/** The client's request and response objects and the upload frame, on the buffers the client fills. */
module ClientCodec {
  import opened ByteStrings
  import opened Cipher
  import opened Wire

  /** Copies `src` behind what has been written so far, and advances. */
  method Memcpy(buffer: array<byte>, ptr: nat, src: Bytes, ghost written: Bytes) returns (next: nat)
    requires ptr + |src| <= buffer.Length && buffer[..ptr] == written
    modifies buffer
    ensures next == ptr + |src| && buffer[..next] == written + src
    ensures forall i :: next <= i < buffer.Length ==> buffer[i] == old(buffer[i])
  {
    forall i | 0 <= i < |src| {
      buffer[ptr + i] := src[i];
    }
    next := ptr + |src|;
    assert buffer[..ptr] == written;
    assert buffer[ptr..next] == src;
    assert buffer[..next] == buffer[..ptr] + buffer[ptr..next];
  }

  class ClientRequest {
    const clientId: Bytes
    const code: u16
    const size: u32
    const payload: Bytes

    /** The payload size arrives as a 64-bit size and is stored in 32 bits. */
    constructor (clientId: Bytes, code: u16, payloadSize: nat, payload: Bytes)
      requires |clientId| == UUID_LENGTH && |payload| == payloadSize
      ensures this.clientId == clientId && this.code == code && this.payload == payload
      ensures size == payloadSize % UINT32_LIMIT
    {
      this.clientId, this.code, this.size, this.payload := clientId, code, payloadSize % UINT32_LIMIT, payload;
    }

    function SizeWithPayload(): u32 {
      (REQUEST_HEADER + size) % UINT32_LIMIT
    }

    /** Writes the frame at the start of the buffer and leaves the rest of the buffer alone. */
    method SerializeIntoBuffer(buffer: array<byte>)
      requires |clientId| == UUID_LENGTH && |payload| == size
      requires REQUEST_HEADER + size <= buffer.Length
      modifies buffer
      ensures buffer[..] ==
              Frame(Request(clientId, VERSION as byte, code, payload)) + old(buffer[REQUEST_HEADER + size..])
    {
      var ptr := Memcpy(buffer, 0, clientId, []);
      ghost var w1 := [] + clientId;
      ptr := Memcpy(buffer, ptr, [VERSION as byte], w1);
      ghost var w2 := w1 + [VERSION as byte];
      ptr := Memcpy(buffer, ptr, Le16(code), w2);
      ghost var w3 := w2 + Le16(code);
      ptr := Memcpy(buffer, ptr, Le32(size), w3);
      ghost var w4 := w3 + Le32(size);
      ptr := Memcpy(buffer, ptr, payload, w4);
      assert w1 == clientId;
      assert buffer[..] == buffer[..ptr] + buffer[ptr..];
      assert buffer[ptr..] == old(buffer[REQUEST_HEADER + size..]);
    }
  }

  class ServerResponse {
    var version: byte
    var code: u16
    var size: u32
    var payload: Bytes

    function Fields(): Parsed
      reads this
    {
      Parsed(version, code, size, payload)
    }

    /** Deserialises the first `n` bytes of the buffer; what they do not reach keeps its initial value. */
    constructor (buffer: array<byte>, n: nat)
      requires ReadableSize(n) && n <= buffer.Length
      ensures Fields() == Parse(buffer[..], n)
    {
      version, code := buffer[0], U16(buffer[1..3]);
      size, payload := 0, [];
      new;
      assert buffer[..][1..3] == buffer[1..3];
      var bytesRead := 3;
      if bytesRead + 2 > n {
        return;
      }
      assert buffer[..][3..7] == buffer[3..7];
      size := U32(buffer[3..7]);
      bytesRead := bytesRead + 4;
      if size == 0 {
        return;
      }
      var leftover := n - bytesRead;
      if size < leftover {
        leftover := size;
      }
      assert buffer[..][bytesRead..bytesRead + leftover] == buffer[bytesRead..bytesRead + leftover];
      payload := buffer[bytesRead..bytesRead + leftover];
    }
  }

  /** Fills the payload of the file request. */
  method FilePayloadArray(clientUUID: Bytes, fileName: Bytes, encrypted: Bytes) returns (payload: array<byte>)
    requires |clientUUID| == UUID_LENGTH && FILE_PREFIX + |encrypted| < UINT32_LIMIT
    ensures fresh(payload) && payload[..] == FilePayload(clientUUID, fileName, encrypted)
  {
    var paddedFileName := PadTo(fileName, NAME_FIELD);
    var fileSize: u32 := |encrypted| % UINT32_LIMIT;
    payload := new byte[FILE_PREFIX + fileSize](_ => 0);
    var ptr := Memcpy(payload, 0, clientUUID, []);
    ghost var w1 := [] + clientUUID;
    ptr := Memcpy(payload, ptr, Le32(fileSize), w1);
    ghost var w2 := w1 + Le32(fileSize);
    ptr := Memcpy(payload, ptr, paddedFileName[..NAME_FIELD], w2);
    ghost var w3 := w2 + paddedFileName[..NAME_FIELD];
    ptr := Memcpy(payload, ptr, encrypted, w3);
    assert w1 == clientUUID;
    assert payload[..] == payload[..ptr];
  }

  /** Encrypts a file, fills the payload and the frame, and returns the bytes handed to the socket. */
  method EncryptedFileFrame(c: Suite, key: Block, clientUUID: Bytes, fileName: Bytes, data: Bytes)
    returns (frame: array<byte>)
    requires |clientUUID| == UUID_LENGTH && 0 < |data| <= MAX_PLAIN
    ensures |ClientEncrypt(c, key, data)| == CipherLength(|data|) == FileSize32(|data|)
    ensures frame.Length == TotalSize32(|data|)
    ensures frame[..] == Frame(Request(clientUUID, VERSION as byte, ENCRYPTED_FILE,
                                       FilePayload(clientUUID, fileName, ClientEncrypt(c, key, data))))
  {
    FilterIsPadThenChain(c, key, Zeros(BLOCK), data);
    SizesExact(|data|);
    var encrypted := ClientEncrypt(c, key, data);
    assert |encrypted| == CipherLength(|data|);
    var payload := FilePayloadArray(clientUUID, fileName, encrypted);
    var request := new ClientRequest(clientUUID, ENCRYPTED_FILE, FILE_PREFIX + |encrypted|, payload[..]);
    frame := new byte[request.SizeWithPayload()](_ => 0);
    request.SerializeIntoBuffer(frame);
    assert frame[REQUEST_HEADER + request.size..] == [];
  }
}
