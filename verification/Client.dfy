/** The client as atomic steps: one receive (with what it decides and sends next), or one read of the local file. */
module Client {
  import opened ByteStrings
  import opened Cipher
  import opened Wire

  const MAX_RETRIES := 3

  type Try = i: nat | i < MAX_RETRIES

  datatype Pc =
    | Begin
    | WaitRegistration
    | SendKey
    | WaitKey
    | Attempt(n: nat)
    | WaitCrc(i: Try)
    | WaitSuccess(i: Try)
    | WaitResending(i: Try)
    | WaitFinished
    | Done(ok: bool)

  /**
   * `resume` says that me.info was found and read. `data` is what the last file frame
   * encrypted, `crc` the last checksum computed from the file; `sent` and `seen` are the
   * history of requests sent and responses received.
   */
  datatype State = State(name: Bytes, file: Bytes, priv: Bytes, resume: bool, id: Bytes, aes: Option<Block>,
                         data: Bytes, crc: u32, pc: Pc, sent: seq<Request>, seen: seq<Parsed>)

  /** What the environment decides: the file's content when it is read, and whether me.info can be written. */
  datatype Choice = Choice(content: Option<Bytes>, infoWritten: bool)

  datatype Turn = Turn(cl: State, inp: Bytes, out: Bytes)

  function RegistrationRequest(cl: State): Request {
    Request(cl.id, VERSION as byte, REGISTRATION, cl.name)
  }

  function KeyRequest(c: Suite, cl: State): Request {
    Request(cl.id, VERSION as byte, PUBLIC_KEY, PadTo(cl.name, NAME_FIELD) + c.publicOf(cl.priv))
  }

  function FileRequest(c: Suite, cl: State, key: Block, data: Bytes): Request
    requires |cl.id| == UUID_LENGTH && |ClientEncrypt(c, key, data)| < UINT32_LIMIT
  {
    Request(cl.id, VERSION as byte, ENCRYPTED_FILE, FilePayload(cl.id, cl.file, ClientEncrypt(c, key, data)))
  }

  function VerdictRequest(cl: State, code: u16): Request {
    Request(cl.id, VERSION as byte, code, cl.id + NameField(cl.file))
  }

  /** The file can be read: it exists, is not empty, and its size fits 32 bits. */
  predicate Readable(content: Option<Bytes>) {
    content.Some? && 0 < |content.value| < UINT32_LIMIT
  }

  /** There is no file, or it is empty. */
  predicate Nothing(content: Option<Bytes>) {
    content.None? || content.value == []
  }

  /** How many bytes the client waits for; 0 when it is not receiving. */
  function Wanted(pc: Pc): nat {
    match pc
    case WaitRegistration => RESPONSE_HEADER + UUID_LENGTH
    case WaitKey => RESPONSE_HEADER + UUID_LENGTH + WRAPPED_KEY_SIZE
    case WaitCrc(_) => RESPONSE_HEADER + CRC_PAYLOAD
    case WaitSuccess(_) => 3
    case WaitResending(_) => RESPONSE_HEADER
    case WaitFinished => RESPONSE_HEADER
    case _ => 0
  }

  /**
   * A blocking receive returns when its bytes are there or the peer has closed; the sizes the client sends
   * must be exact.
   */
  predicate CanStep(cl: State, inp: Bytes, closed: bool, ch: Choice) {
    && !cl.pc.Done?
    && (|inp| < Wanted(cl.pc) ==> closed)
    && (ch.content.Some? ==> |ch.content.value| <= MAX_PLAIN)
  }

  /** The zeroed buffer after a receive of `n` bytes; short when the peer closed first. */
  function Buffer(inp: Bytes, n: nat): (b: Bytes)
    ensures |b| == n
    ensures forall i :: 0 <= i < n ==> b[i] == if i < |inp| then inp[i] else 0
  {
    if |inp| >= n then inp[..n] else inp + Zeros(n - |inp|)
  }

  function Rest(inp: Bytes, n: nat): Bytes {
    if |inp| >= n then inp[n..] else []
  }

  function Sends(cl: State, r: Request, pc: Pc, inp: Bytes): Turn
    requires Sendable(r)
  {
    Turn(cl.(pc := pc, sent := cl.sent + [r]), inp, Frame(r))
  }

  /** Steps that do not receive. */
  function Act(c: Suite, cl: State, inp: Bytes, ch: Choice): Turn
    requires |cl.id| == UUID_LENGTH && |cl.name| <= NAME_FIELD && |c.publicOf(cl.priv)| == PUBLIC_KEY_SIZE
    requires Wanted(cl.pc) == 0 && !cl.pc.Done? && (ch.content.Some? ==> |ch.content.value| <= MAX_PLAIN)
  {
    match cl.pc
    case Begin =>
      if cl.resume then Turn(cl.(pc := SendKey), inp, [])
      else Sends(cl, RegistrationRequest(cl), WaitRegistration, inp)
    case SendKey =>
      if cl.name == [] then Turn(cl.(pc := Done(false)), inp, [])
      else Sends(cl, KeyRequest(c, cl), WaitKey, inp)
    case Attempt(n) =>
      if n >= MAX_RETRIES then Sends(cl, VerdictRequest(cl, CRC_FINISHED), WaitFinished, inp)
      else if !Readable(ch.content) || cl.aes.None? then Turn(cl.(pc := Attempt(n + 1)), inp, [])
      else
        var data := ch.content.value;
        EncryptedFits(c, cl.aes.value, data);
        Sends(cl.(data := data), FileRequest(c, cl, cl.aes.value, data), WaitCrc(n), inp)
  }

  lemma EncryptedFits(c: Suite, key: Block, data: Bytes)
    requires |data| <= MAX_PLAIN
    ensures FILE_PREFIX + |ClientEncrypt(c, key, data)| < UINT32_LIMIT
  {
    FilterIsPadThenChain(c, key, Zeros(BLOCK), data);
    SizesExact(|data|);
    assert |Pad(data)| == CipherLength(|data|);
  }

  /** A received response is remembered unless the stream was already empty. */
  function Note(cl: State, inp: Bytes, p: Parsed): State {
    if inp == [] then cl else cl.(seen := cl.seen + [p])
  }

  function ServerCrc(p: Parsed): u32 {
    if p.code == FILE_CRC then CrcField(p.payload) else 0
  }

  function FileCrc(c: Suite, content: Option<Bytes>): u32 {
    if Readable(content) then c.crc(content.value) else 0
  }

  /** Steps that receive. */
  function Receive(c: Suite, cl: State, inp: Bytes, ch: Choice): Turn
    requires |cl.id| == UUID_LENGTH && Wanted(cl.pc) > 0
  {
    var n := Wanted(cl.pc);
    var p := Parse(Buffer(inp, n), n);
    var rest := Rest(inp, n);
    var cl1 := Note(cl, inp, p);
    match cl.pc
    case WaitRegistration =>
      if |inp| >= n && p.code == REGISTRATION_SUCCESS
      then Turn(cl1.(id := PadTo(p.payload, UUID_LENGTH)[..UUID_LENGTH],
                     pc := if ch.infoWritten then SendKey else Done(false)), rest, [])
      else Turn(cl1.(pc := Done(false)), rest, [])
    case WaitKey =>
      if |inp| >= n && p.code == AES_KEY
      then
        match c.unwrap(cl.priv, Slice(p.payload, UUID_LENGTH, UUID_LENGTH + WRAPPED_KEY_SIZE))
        case None => Turn(cl1.(pc := Done(false)), rest, [])
        case Some(k) =>
          if |k| != BLOCK then Turn(cl1.(pc := Done(false)), rest, [])
          else Turn(cl1.(aes := Some(k), pc := Attempt(0)), rest, [])
      else Turn(cl1.(pc := Done(false)), rest, [])
    case WaitCrc(i) =>
      var cl2 := cl1.(crc := FileCrc(c, ch.content));
      if ServerCrc(p) == cl2.crc
      then Sends(cl2, VerdictRequest(cl2, CRC_SUCCESS), WaitSuccess(i), rest)
      else Sends(cl2, VerdictRequest(cl2, CRC_RESENDING), WaitResending(i), rest)
    case WaitSuccess(i) =>
      if p.code == REQUEST_RECEIVED then Turn(cl1.(pc := Done(true)), rest, [])
      else Sends(cl1, VerdictRequest(cl1, CRC_RESENDING), WaitResending(i), rest)
    case WaitResending(i) => Turn(cl1.(pc := Attempt(i + 1)), rest, [])
    case _ => Turn(cl1.(pc := Done(false)), rest, [])
  }

  /** The client's identity and inputs, which the protocol needs to be well-formed. */
  predicate Usable(c: Suite, cl: State) {
    |cl.id| == UUID_LENGTH && |cl.name| <= NAME_FIELD && |c.publicOf(cl.priv)| == PUBLIC_KEY_SIZE
  }

  function Step(c: Suite, cl: State, inp: Bytes, closed: bool, ch: Choice): Turn
    requires Usable(c, cl) && CanStep(cl, inp, closed, ch)
  {
    if Wanted(cl.pc) == 0 then Act(c, cl, inp, ch) else Receive(c, cl, inp, ch)
  }

  /** Where a step that sends nothing may lead. */
  predicate Silent(pc: Pc, pc': Pc) {
    match pc
    case Begin => pc' == SendKey
    case WaitRegistration => pc' == SendKey || pc' == Done(false)
    case SendKey => pc' == Done(false)
    case WaitKey => pc' == Attempt(0) || pc' == Done(false)
    case Attempt(n) => n < MAX_RETRIES && pc' == Attempt(n + 1)
    case WaitSuccess(i) => pc' == Done(true)
    case WaitResending(i) => pc' == Attempt(i + 1)
    case WaitFinished => pc' == Done(false)
    case _ => false
  }

  /** Where a step that sends a request with this code may lead. */
  predicate Loud(pc: Pc, pc': Pc, code: u16) {
    match pc
    case Begin => pc' == WaitRegistration && code == REGISTRATION
    case SendKey => pc' == WaitKey && code == PUBLIC_KEY
    case Attempt(n) =>
      if n < MAX_RETRIES then pc' == WaitCrc(n) && code == ENCRYPTED_FILE
      else pc' == WaitFinished && code == CRC_FINISHED
    case WaitCrc(i) =>
      || (pc' == WaitSuccess(i) && code == CRC_SUCCESS)
      || (pc' == WaitResending(i) && code == CRC_RESENDING)
    case WaitSuccess(i) => pc' == WaitResending(i) && code == CRC_RESENDING
    case _ => false
  }

  predicate Moves(cl: State, cl': State) {
    && cl'.resume == cl.resume && (cl.pc.Begin? ==> (cl'.pc.SendKey? <==> cl.resume))
    && (|| (cl'.sent == cl.sent && Silent(cl.pc, cl'.pc))
        || (cl'.sent != [] && cl'.sent == cl.sent + [cl'.sent[|cl'.sent| - 1]]
            && Loud(cl.pc, cl'.pc, cl'.sent[|cl'.sent| - 1].code)))
  }

  lemma ActMoves(c: Suite, cl: State, inp: Bytes, ch: Choice)
    requires Usable(c, cl) && CanStep(cl, inp, true, ch) && Wanted(cl.pc) == 0
    ensures Moves(cl, Act(c, cl, inp, ch).cl)
  {
  }

  lemma VerdictMoves(c: Suite, cl: State, inp: Bytes, ch: Choice)
    requires |cl.id| == UUID_LENGTH && (cl.pc.WaitCrc? || cl.pc.WaitSuccess?)
    ensures Moves(cl, Receive(c, cl, inp, ch).cl)
  {
  }

  lemma OtherMoves(c: Suite, cl: State, inp: Bytes, ch: Choice)
    requires |cl.id| == UUID_LENGTH && Wanted(cl.pc) > 0 && !cl.pc.WaitCrc? && !cl.pc.WaitSuccess?
    ensures Moves(cl, Receive(c, cl, inp, ch).cl)
  {
  }

  lemma ReceiveMoves(c: Suite, cl: State, inp: Bytes, ch: Choice)
    requires |cl.id| == UUID_LENGTH && Wanted(cl.pc) > 0
    ensures Moves(cl, Receive(c, cl, inp, ch).cl)
  {
    if cl.pc.WaitCrc? || cl.pc.WaitSuccess? {
      VerdictMoves(c, cl, inp, ch);
    } else {
      OtherMoves(c, cl, inp, ch);
    }
  }

  /** The control flow of the client: every step is one of these moves, and sends at most the one request it names. */
  lemma StepMoves(c: Suite, cl: State, inp: Bytes, closed: bool, ch: Choice)
    requires Usable(c, cl) && CanStep(cl, inp, closed, ch)
    ensures Moves(cl, Step(c, cl, inp, closed, ch).cl)
  {
    if Wanted(cl.pc) == 0 {
      ActMoves(c, cl, inp, ch);
    } else {
      ReceiveMoves(c, cl, inp, ch);
    }
  }

  /** A turn sends nothing, or one whole frame. */
  ghost predicate SendsOne(cl: State, t: Turn) {
    if |t.cl.sent| == |cl.sent| then t.cl.sent == cl.sent && t.out == []
    else
      && |t.cl.sent| == |cl.sent| + 1 && cl.sent <= t.cl.sent
      && Sendable(t.cl.sent[|cl.sent|]) && t.out == Frame(t.cl.sent[|cl.sent|])
  }

  lemma ActSendsOne(c: Suite, cl: State, inp: Bytes, ch: Choice)
    requires Usable(c, cl) && CanStep(cl, inp, true, ch) && Wanted(cl.pc) == 0
    ensures SendsOne(cl, Act(c, cl, inp, ch))
  {
    match cl.pc {
      case Begin =>
      case SendKey =>
      case Attempt(n) =>
        if n < MAX_RETRIES && Readable(ch.content) && cl.aes.Some? {
          EncryptedFits(c, cl.aes.value, ch.content.value);
        }
    }
  }

  lemma VerdictSendsOne(c: Suite, cl: State, inp: Bytes, ch: Choice)
    requires |cl.id| == UUID_LENGTH && (cl.pc.WaitCrc? || cl.pc.WaitSuccess?)
    ensures SendsOne(cl, Receive(c, cl, inp, ch))
  {
  }

  lemma OtherSendsNone(c: Suite, cl: State, inp: Bytes, ch: Choice)
    requires |cl.id| == UUID_LENGTH && Wanted(cl.pc) > 0 && !cl.pc.WaitCrc? && !cl.pc.WaitSuccess?
    ensures SendsOne(cl, Receive(c, cl, inp, ch))
  {
  }

  lemma ReceiveSendsOne(c: Suite, cl: State, inp: Bytes, ch: Choice)
    requires |cl.id| == UUID_LENGTH && Wanted(cl.pc) > 0
    ensures SendsOne(cl, Receive(c, cl, inp, ch))
  {
    if cl.pc.WaitCrc? || cl.pc.WaitSuccess? {
      VerdictSendsOne(c, cl, inp, ch);
    } else {
      OtherSendsNone(c, cl, inp, ch);
    }
  }

  /** What no step changes, and what no step changes after registration. */
  predicate Keeps(cl: State, cl': State) {
    && cl'.name == cl.name && cl'.file == cl.file && cl'.priv == cl.priv && cl'.resume == cl.resume
    && |cl'.id| == UUID_LENGTH
    && (!cl.pc.Begin? && !cl.pc.WaitRegistration? ==>
          cl'.id == cl.id && !cl'.pc.Begin? && !cl'.pc.WaitRegistration?)
  }

  lemma ActKeeps(c: Suite, cl: State, inp: Bytes, ch: Choice)
    requires Usable(c, cl) && CanStep(cl, inp, true, ch) && Wanted(cl.pc) == 0
    ensures Keeps(cl, Act(c, cl, inp, ch).cl)
  {
  }

  lemma VerdictKeeps(c: Suite, cl: State, inp: Bytes, ch: Choice)
    requires |cl.id| == UUID_LENGTH && (cl.pc.WaitCrc? || cl.pc.WaitSuccess?)
    ensures Keeps(cl, Receive(c, cl, inp, ch).cl)
  {
  }

  lemma OtherKeeps(c: Suite, cl: State, inp: Bytes, ch: Choice)
    requires |cl.id| == UUID_LENGTH && Wanted(cl.pc) > 0 && !cl.pc.WaitCrc? && !cl.pc.WaitSuccess?
    ensures Keeps(cl, Receive(c, cl, inp, ch).cl)
  {
  }

  lemma ReceiveKeeps(c: Suite, cl: State, inp: Bytes, ch: Choice)
    requires |cl.id| == UUID_LENGTH && Wanted(cl.pc) > 0
    ensures Keeps(cl, Receive(c, cl, inp, ch).cl)
  {
    if cl.pc.WaitCrc? || cl.pc.WaitSuccess? {
      VerdictKeeps(c, cl, inp, ch);
    } else {
      OtherKeeps(c, cl, inp, ch);
    }
  }

  lemma StepKeeps(c: Suite, cl: State, inp: Bytes, closed: bool, ch: Choice)
    requires Usable(c, cl) && CanStep(cl, inp, closed, ch)
    ensures Keeps(cl, Step(c, cl, inp, closed, ch).cl) && Usable(c, Step(c, cl, inp, closed, ch).cl)
  {
    if Wanted(cl.pc) == 0 {
      ActKeeps(c, cl, inp, ch);
    } else {
      ReceiveKeeps(c, cl, inp, ch);
    }
  }

  /** Attempts left, then the place within an attempt. */
  function Rank(pc: Pc): nat {
    match pc
    case Begin => 20
    case WaitRegistration => 19
    case SendKey => 18
    case WaitKey => 17
    case Attempt(n) => 4 * (if n < MAX_RETRIES then MAX_RETRIES - n else 0) + 2
    case WaitCrc(i) => 4 * (MAX_RETRIES - i) + 1
    case WaitSuccess(i) => 4 * (MAX_RETRIES - i)
    case WaitResending(i) => 4 * (MAX_RETRIES - i) - 1
    case WaitFinished => 1
    case Done(_) => 0
  }

  lemma MovesDescend(cl: State, cl': State)
    requires Moves(cl, cl')
    ensures Rank(cl'.pc) < Rank(cl.pc)
  {
  }

  /** Every step of the client leaves fewer attempts, or the same attempt further on. */
  lemma StepDescends(c: Suite, cl: State, inp: Bytes, closed: bool, ch: Choice)
    requires Usable(c, cl) && CanStep(cl, inp, closed, ch)
    ensures Rank(Step(c, cl, inp, closed, ch).cl.pc) < Rank(cl.pc)
  {
    StepMoves(c, cl, inp, closed, ch);
    MovesDescend(cl, Step(c, cl, inp, closed, ch).cl);
  }
}
