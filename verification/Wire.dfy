/** The frames and payload layouts of the protocol, as each end builds and reads them. */
module Wire {
  import opened ByteStrings
  import opened Cipher

  const UUID_LENGTH := 16
  const VERSION := 3
  const REQUEST_HEADER := 23
  const RESPONSE_HEADER := 7
  const PACKET_SIZE := 1024
  const RESPONSE_ROOM := PACKET_SIZE - RESPONSE_HEADER

  // Request codes; 0 is the server's default request type.
  const NO_REQUEST: u16 := 0
  const REGISTRATION: u16 := 1100
  const PUBLIC_KEY: u16 := 1101
  const ENCRYPTED_FILE: u16 := 1103
  const CRC_SUCCESS: u16 := 1104
  const CRC_RESENDING: u16 := 1105
  const CRC_FINISHED: u16 := 1106

  // Response codes
  const REGISTRATION_SUCCESS: u16 := 2100
  const REGISTRATION_FAILED: u16 := 2101
  const AES_KEY: u16 := 2102
  const FILE_CRC: u16 := 2103
  const REQUEST_RECEIVED: u16 := 2104

  // ----- Requests -----

  datatype Request = Request(id: Bytes, version: byte, code: u16, payload: Bytes)

  predicate Sendable(r: Request) {
    |r.id| == UUID_LENGTH && |r.payload| < UINT32_LIMIT
  }

  /** The bytes that `serializeIntoBuffer` writes. */
  function Frame(r: Request): (f: Bytes)
    requires Sendable(r)
    ensures |f| == REQUEST_HEADER + |r.payload|
  {
    r.id + [r.version] + Le16(r.code) + Le32(|r.payload|) + r.payload
  }

  /** A header as the server unpacks it; without exactly 23 bytes it keeps the initial field values. */
  datatype Header = Header(id: Bytes, version: byte, code: u16, size: u32, whole: bool)

  const NO_HEADER := Header([], 0, NO_REQUEST, 0, false)

  function ParseHeader(d: Bytes): Header {
    if |d| == REQUEST_HEADER
    then Header(d[..16], d[16], U16(d[17..19]), U32(d[19..23]), true)
    else NO_HEADER
  }

  function HeaderOf(r: Request): Header
    requires Sendable(r)
  {
    Header(r.id, r.version, r.code, |r.payload|, true)
  }

  lemma FrameSplits(r: Request, rest: Bytes)
    requires Sendable(r)
    ensures ParseHeader((Frame(r) + rest)[..REQUEST_HEADER]) == HeaderOf(r)
    ensures (Frame(r) + rest)[REQUEST_HEADER..] == r.payload + rest
  {
    var d := (Frame(r) + rest)[..REQUEST_HEADER];
    assert d == r.id + [r.version] + Le16(r.code) + Le32(|r.payload|);
    assert d[..16] == r.id && d[17..19] == Le16(r.code) && d[19..23] == Le32(|r.payload|);
    Le16RoundTrip(r.code);
    Le32RoundTrip(|r.payload|);
  }

  /** Where the fields of a request are. */
  lemma FrameShape(r: Request)
    requires Sendable(r)
    ensures var f := Frame(r);
            && f[..16] == r.id && f[16] == r.version && U16(f[17..19]) == r.code
            && U32(f[19..23]) == |r.payload| && f[23..] == r.payload
  {
    FrameSplits(r, []);
    assert Frame(r) + [] == Frame(r);
    assert Frame(r)[..23][..16] == r.id && Frame(r)[..23][17..19] == Frame(r)[17..19];
    assert Frame(r)[..23][19..23] == Frame(r)[19..23];
  }

  predicate AllSendable(rs: seq<Request>) {
    forall r :: r in rs ==> Sendable(r)
  }

  /** What the client has written after sending `rs`. */
  function Stream(rs: seq<Request>): Bytes
    requires AllSendable(rs)
  {
    if rs == [] then [] else Frame(rs[0]) + Stream(rs[1..])
  }

  lemma {:induction false} StreamSnoc(rs: seq<Request>, r: Request)
    requires AllSendable(rs) && Sendable(r)
    ensures AllSendable(rs + [r])
    ensures Stream(rs + [r]) == Stream(rs) + Frame(r)
  {
    if rs == [] {
      assert [r][1..] == [];
    } else {
      assert (rs + [r])[1..] == rs[1..] + [r];
      StreamSnoc(rs[1..], r);
    }
  }

  /** Reading whole frames off a byte string; `None` when it does not consist of whole frames. */
  function ReadRequests(b: Bytes): Option<seq<Request>>
    decreases |b|
  {
    if b == [] then Some([])
    else if |b| < REQUEST_HEADER then None
    else
      var h := ParseHeader(b[..REQUEST_HEADER]);
      var body := b[REQUEST_HEADER..];
      if |body| < h.size then None else
        match ReadRequests(body[h.size..])
        case None => None
        case Some(rs) => Some([Request(h.id, h.version, h.code, body[..h.size])] + rs)
  }

  /** The result of reading one frame before whatever is read of the rest. */
  function Before(r: Request, rest: Option<seq<Request>>): Option<seq<Request>> {
    if rest.None? then None else Some([r] + rest.value)
  }

  lemma ReadFrame(r: Request, later: Bytes)
    requires Sendable(r)
    ensures ReadRequests(Frame(r) + later) == Before(r, ReadRequests(later))
  {
    FrameSplits(r, later);
    var body := (Frame(r) + later)[REQUEST_HEADER..];
    assert body[..|r.payload|] == r.payload && body[|r.payload|..] == later;
  }

  function Prepend(rs: seq<Request>, rest: Option<seq<Request>>): Option<seq<Request>> {
    if rest.None? then None else Some(rs + rest.value)
  }

  lemma PrependFirst(rs: seq<Request>, rest: Option<seq<Request>>)
    ensures rs == [] ==> Prepend(rs, rest) == rest
    ensures rs != [] ==> Prepend(rs, rest) == Before(rs[0], Prepend(rs[1..], rest))
  {
    if rest.Some? {
      assert rs == [] ==> rs + rest.value == rest.value;
      assert rs != [] ==> [rs[0]] + (rs[1..] + rest.value) == rs + rest.value;
    }
  }

  lemma StreamFirst(rs: seq<Request>, rest: Bytes)
    requires AllSendable(rs) && rs != []
    ensures AllSendable(rs[1..]) && Sendable(rs[0]) && Stream(rs) + rest == Frame(rs[0]) + (Stream(rs[1..]) + rest)
  {
  }

  /** Whole frames are read off the front, whatever comes behind them. */
  lemma {:induction false} ReadRequestsBehind(rs: seq<Request>, rest: Bytes)
    requires AllSendable(rs)
    ensures ReadRequests(Stream(rs) + rest) == Prepend(rs, ReadRequests(rest))
  {
    PrependFirst(rs, ReadRequests(rest));
    if rs == [] {
      assert Stream(rs) + rest == rest;
    } else {
      StreamFirst(rs, rest);
      ReadRequestsBehind(rs[1..], rest);
      ReadFrame(rs[0], Stream(rs[1..]) + rest);
    }
  }

  /** Every list of requests is recovered from its concatenated frames. */
  lemma ReadRequestsOfStream(rs: seq<Request>)
    requires AllSendable(rs)
    ensures ReadRequests(Stream(rs)) == Some(rs)
  {
    ReadRequestsBehind(rs, []);
    assert Stream(rs) + [] == Stream(rs) && rs + [] == rs;
  }

  lemma Le16OfU16(b: Bytes)
    requires |b| == 2
    ensures Le16(U16(b)) == b
  {
    assert U16(b) / 0x100 == b[1] as nat && U16(b) % 0x100 == b[0] as nat;
  }

  lemma Le32OfU32(b: Bytes)
    requires |b| == 4
    ensures Le32(U32(b)) == b
  {
    assert U32(b) / UINT16_LIMIT == U16(b[2..]) && U32(b) % UINT16_LIMIT == U16(b[..2]);
    Le16OfU16(b[..2]);
    Le16OfU16(b[2..]);
    assert b == b[..2] + b[2..];
  }

  lemma HeaderFrames(b: Bytes)
    requires |b| >= REQUEST_HEADER && ParseHeader(b[..REQUEST_HEADER]).size <= |b| - REQUEST_HEADER
    ensures var h, body := ParseHeader(b[..REQUEST_HEADER]), b[REQUEST_HEADER..];
            Frame(Request(h.id, h.version, h.code, body[..h.size])) == b[..REQUEST_HEADER + h.size]
  {
    var d := b[..REQUEST_HEADER];
    Le16OfU16(d[17..19]);
    Le32OfU32(d[19..23]);
    assert d == d[..16] + [d[16]] + d[17..19] + d[19..23];
  }

  lemma FirstRequest(b: Bytes) returns (q: Request, rest: Bytes)
    requires b != [] && ReadRequests(b).Some?
    ensures Sendable(q) && b == Frame(q) + rest
    ensures ReadRequests(rest).Some? && ReadRequests(b).value == [q] + ReadRequests(rest).value
  {
    var h, body := ParseHeader(b[..REQUEST_HEADER]), b[REQUEST_HEADER..];
    HeaderFrames(b);
    q, rest := Request(h.id, h.version, h.code, body[..h.size]), body[h.size..];
    assert b == b[..REQUEST_HEADER + h.size] + rest;
  }

  lemma StreamCons(q: Request, rs: seq<Request>)
    requires Sendable(q) && AllSendable(rs)
    ensures AllSendable([q] + rs) && Stream([q] + rs) == Frame(q) + Stream(rs)
  {
    assert ([q] + rs)[1..] == rs;
  }

  /** Reading succeeds only on whole frames, and writing what was read gives the same bytes again. */
  lemma {:induction false} StreamOfReadRequests(b: Bytes)
    requires ReadRequests(b).Some?
    ensures AllSendable(ReadRequests(b).value) && Stream(ReadRequests(b).value) == b
    decreases |b|
  {
    if b != [] {
      var q, rest := FirstRequest(b);
      StreamOfReadRequests(rest);
      StreamCons(q, ReadRequests(rest).value);
    }
  }

  // ----- Responses -----

  datatype Response = Response(code: u16, payload: Bytes)

  /** The server's `pack`: the declared size is the whole payload, the bytes stop at the packet size. */
  function Pack(r: Response): (b: Bytes)
    requires |r.payload| < UINT32_LIMIT
    ensures |b| == RESPONSE_HEADER + (if |r.payload| < RESPONSE_ROOM then |r.payload| else RESPONSE_ROOM)
  {
    var n := if |r.payload| < RESPONSE_ROOM then |r.payload| else RESPONSE_ROOM;
    [VERSION as byte] + Le16(r.code) + Le32(|r.payload|) + r.payload[..n]
  }

  /** The fields of the client's deserialised response. */
  datatype Parsed = Parsed(version: byte, code: u16, size: u32, payload: Bytes)

  /** The sizes for which the client's deserialiser stays inside its buffer. */
  predicate ReadableSize(n: nat) {
    n == 3 || n == 4 || n >= RESPONSE_HEADER
  }

  /** How far the deserialiser reads, with the leftover computed in 32 bits as the client does. */
  function BytesRead(size: u32, declared: u32): nat {
    if 3 + 2 > size then 3
    else if declared == 0 then RESPONSE_HEADER
    else
      var leftover := (size - RESPONSE_HEADER) % UINT32_LIMIT;
      RESPONSE_HEADER + if declared < leftover then declared else leftover
  }

  /** Whatever the server declares, the deserialiser stays inside its buffer exactly for these sizes. */
  lemma DeserialiserInBounds(size: u32)
    ensures (forall declared: u32 :: BytesRead(size, declared) <= size) <==> ReadableSize(size)
  {
    assert BytesRead(size, 0) == if size < 5 then 3 else RESPONSE_HEADER;
  }

  /** The client's deserialiser on the first `n` bytes of its buffer. */
  function Parse(buf: Bytes, n: nat): Parsed
    requires ReadableSize(n) && n <= |buf|
  {
    var code := U16(buf[1..3]);
    if 3 + 2 > n then Parsed(buf[0], code, 0, [])
    else
      var size := U32(buf[3..7]);
      var left := if size < n - RESPONSE_HEADER then size else n - RESPONSE_HEADER;
      Parsed(buf[0], code, size, buf[RESPONSE_HEADER..RESPONSE_HEADER + left])
  }

  /** What the client makes of a response it reads whole. */
  function ParsedOf(r: Response): Parsed
    requires |r.payload| < UINT32_LIMIT
  {
    var n := if |r.payload| < RESPONSE_ROOM then |r.payload| else RESPONSE_ROOM;
    Parsed(VERSION as byte, r.code, |r.payload|, r.payload[..n])
  }

  lemma PackFields(r: Response, tail: Bytes)
    requires |r.payload| < UINT32_LIMIT
    ensures var b := Pack(r) + tail;
            var n := if |r.payload| < 1017 then |r.payload| else 1017;
            && b[0] == VERSION as byte && U16(b[1..3]) == r.code && U32(b[3..7]) == |r.payload|
            && b[7..7 + n] == r.payload[..n] && b[7 + n..] == tail
  {
    var b := Pack(r) + tail;
    assert b[1..3] == Le16(r.code) && b[3..7] == Le32(|r.payload|);
    Le16RoundTrip(r.code);
    Le32RoundTrip(|r.payload|);
  }

  /**
   * A packed response read into a buffer of any size at least its own gives back
   * version, code, the full declared size and the first 1017 payload bytes.
   */
  lemma ParsePacked(r: Response, tail: Bytes, n: nat)
    requires |r.payload| < UINT32_LIMIT
    requires |Pack(r)| <= n <= |Pack(r) + tail|
    requires |r.payload| <= RESPONSE_ROOM || n == |Pack(r)|
    ensures Parse(Pack(r) + tail, n) == ParsedOf(r)
  {
    PackFields(r, tail);
  }

  /** Reading only the three header bytes gives the code alone. */
  lemma ParseHeaderOnly(r: Response)
    requires |r.payload| < UINT32_LIMIT
    ensures Parse(Pack(r)[..3], 3) == Parsed(VERSION as byte, r.code, 0, [])
  {
    PackFields(r, []);
    assert Pack(r)[..3][1..3] == (Pack(r) + [])[1..3];
  }

  function Packable(rs: seq<Response>): bool {
    forall r :: r in rs ==> |r.payload| <= RESPONSE_ROOM
  }

  /** What the server has written after sending `rs`. */
  function Replies(rs: seq<Response>): Bytes
    requires Packable(rs)
  {
    if rs == [] then [] else Pack(rs[0]) + Replies(rs[1..])
  }

  lemma {:induction false} RepliesSnoc(rs: seq<Response>, r: Response)
    requires Packable(rs) && |r.payload| <= RESPONSE_ROOM
    ensures Packable(rs + [r])
    ensures Replies(rs + [r]) == Replies(rs) + Pack(r)
  {
    if rs == [] {
      assert [r][1..] == [];
    } else {
      assert (rs + [r])[1..] == rs[1..] + [r];
      RepliesSnoc(rs[1..], r);
    }
  }

  // ----- Nested payloads -----

  const FILE_PREFIX := 275
  const CRC_PAYLOAD := 279

  /** The file payload the client builds: id, encrypted size, name field, ciphertext. */
  function FilePayload(id: Bytes, name: Bytes, cipher: Bytes): (p: Bytes)
    requires |id| == UUID_LENGTH && |cipher| < UINT32_LIMIT
    ensures |p| == FILE_PREFIX + |cipher|
  {
    id + Le32(|cipher|) + NameField(name) + cipher
  }

  /** At `at` there are the first 255 bytes of the name, filled up with zeroes. */
  predicate NamePlaced(p: Bytes, at: nat, name: Bytes) {
    && at + 255 <= |p|
    && forall i :: 0 <= i < 255 ==> p[at + i] == if i < |name| then name[i] else 0
  }

  /** Where the fields of the file payload are. */
  lemma FilePayloadShape(id: Bytes, name: Bytes, cipher: Bytes)
    requires |id| == UUID_LENGTH && |cipher| < UINT32_LIMIT
    ensures var p := FilePayload(id, name, cipher);
            && p[..16] == id && U32(p[16..20]) == |cipher| && p[275..] == cipher && NamePlaced(p, 20, name)
  {
    var p := FilePayload(id, name, cipher);
    assert p[16..20] == Le32(|cipher|);
    assert p[20..275] == NameField(name);
    Le32RoundTrip(|cipher|);
  }

  // The server's slices of it
  function FileSize(p: Bytes): Option<u32> {
    if |Slice(p, 16, 20)| == 4 then Some(U32(Slice(p, 16, 20))) else None
  }

  function FileName(p: Bytes): Bytes {
    RstripNul(Slice(p, 20, FILE_PREFIX))
  }

  function FileData(p: Bytes, size: u32): Bytes {
    Slice(p, FILE_PREFIX, FILE_PREFIX + size)
  }

  lemma FilePayloadRoundTrip(id: Bytes, name: Bytes, cipher: Bytes)
    requires |id| == UUID_LENGTH && |cipher| < UINT32_LIMIT
    ensures var p := FilePayload(id, name, cipher);
            && p[..UUID_LENGTH] == id
            && FileSize(p) == Some(|cipher|)
            && FileName(p) == NameOfField(name)
            && FileData(p, |cipher|) == cipher
  {
    var p := FilePayload(id, name, cipher);
    assert p[16..20] == Le32(|cipher|);
    assert p[20..FILE_PREFIX] == NameField(name);
    assert p[FILE_PREFIX..] == cipher;
    Le32RoundTrip(|cipher|);
  }

  /** The checksum payload the server packs. */
  function CrcPayload(id: Bytes, size: u32, name: Bytes, crc: u32): (p: Bytes)
    requires |id| == UUID_LENGTH
    ensures |p| == CRC_PAYLOAD
  {
    id + Le32(size) + NameField(name) + Le32(crc)
  }

  /** The checksum the client takes from its fixed offset. */
  function CrcField(p: Bytes): u32 {
    U32(PadTo(p, CRC_PAYLOAD)[FILE_PREFIX..CRC_PAYLOAD])
  }

  /** Where the fields of the checksum payload are. */
  lemma CrcPayloadShape(id: Bytes, size: u32, name: Bytes, crc: u32)
    requires |id| == UUID_LENGTH
    ensures var p := CrcPayload(id, size, name, crc);
            && |p| == 279 && p[..16] == id && U32(p[16..20]) == size && U32(p[275..279]) == crc
            && NamePlaced(p, 20, name)
  {
    var p := CrcPayload(id, size, name, crc);
    assert p[16..20] == Le32(size) && p[275..279] == Le32(crc);
    assert p[20..275] == NameField(name);
    Le32RoundTrip(size);
    Le32RoundTrip(crc);
  }

  lemma CrcPayloadRoundTrip(id: Bytes, size: u32, name: Bytes, crc: u32)
    requires |id| == UUID_LENGTH
    ensures CrcField(CrcPayload(id, size, name, crc)) == crc
  {
    var p := CrcPayload(id, size, name, crc);
    assert PadTo(p, CRC_PAYLOAD)[FILE_PREFIX..CRC_PAYLOAD] == Le32(crc);
    Le32RoundTrip(crc);
  }

  // ----- The client's 32-bit sizes -----

  /** `fileSize` after the ciphertext length is stored in 32 bits. */
  function FileSize32(n: nat): u32 {
    CipherLength(n) % UINT32_LIMIT
  }

  /** The payload size of the file request, narrowed when it is stored in the request. */
  function PayloadSize32(n: nat): u32 {
    (FILE_PREFIX + FileSize32(n)) % UINT32_LIMIT
  }

  /** `sizeWithPayload` of that request. */
  function TotalSize32(n: nat): u32 {
    (REQUEST_HEADER + PayloadSize32(n)) % UINT32_LIMIT
  }

  const MAX_PLAIN := 4294966991

  /** The three 32-bit sizes are all exact precisely up to this plaintext length. */
  lemma SizesExact(n: nat)
    ensures n <= MAX_PLAIN <==>
            && FileSize32(n) == CipherLength(n)
            && PayloadSize32(n) == FILE_PREFIX + CipherLength(n)
            && TotalSize32(n) == REQUEST_HEADER + FILE_PREFIX + CipherLength(n)
  {
    if n <= MAX_PLAIN {
      assert n / BLOCK <= MAX_PLAIN / BLOCK == 268435436;
    } else {
      assert n / BLOCK >= (MAX_PLAIN + 1) / BLOCK == 268435437;
    }
  }
}
