/**
 * One session: the client and its handler, joined by two byte streams. The shared
 * state is an argument of every step and may differ from step to step, so what is
 * proved here holds whatever other sessions do in between.
 */
module Session {
  import opened ByteStrings
  import opened Cipher
  import opened Wire
  import opened Tables
  import Cl = Client
  import H = Handler

  datatype Session = Session(cl: Cl.State, h: H.Thread, c2s: Bytes, s2c: Bytes)

  datatype Move = ClientMove(cc: Cl.Choice) | HandlerMove(hc: H.Choice)

  predicate ClientClosed(s: Session) {
    s.cl.pc.Done?
  }

  /** Only a handler that gives up closes its socket; after success the socket stays open. */
  predicate HandlerClosed(s: Session) {
    s.h.pc == H.Stopped(false)
  }

  /** Header reads are whole; payload reads are split at will; a send fails only towards a closed peer. */
  predicate Allowed(s: Session, m: Move) {
    match m
    case ClientMove(cc) => Cl.CanStep(s.cl, s.s2c, HandlerClosed(s), cc)
    case HandlerMove(hc) =>
      && H.CanStep(s.h, s.c2s, ClientClosed(s), hc)
      && (s.h.pc.AwaitHeader? ==> hc.k == REQUEST_HEADER || hc.k == |s.c2s| < REQUEST_HEADER)
      && (!ClientClosed(s) ==> hc.sent)
  }

  /** Whatever part of a payload a read returns, down to a single byte, the handler can take it. */
  lemma AnyPart(s: Session, hc: H.Choice)
    requires s.h.pc.AwaitPayload? && |s.h.pc.acc| < s.h.pc.header.size && (!ClientClosed(s) ==> hc.sent)
    ensures 1 <= hc.k <= s.h.pc.header.size - |s.h.pc.acc| && hc.k <= |s.c2s| ==> Allowed(s, HandlerMove(hc))
  {
  }

  /** Whatever a read of the local file finds, and whether me.info can be written or not, the client can go on. */
  lemma AnyRead(s: Session, cc: Cl.Choice)
    requires !ClientClosed(s) && (|s.s2c| >= Cl.Wanted(s.cl.pc) || HandlerClosed(s))
    ensures cc.content.None? || |cc.content.value| <= MAX_PLAIN ==> Allowed(s, ClientMove(cc))
  {
  }

  function AfterClient(s: Session, t: Cl.Turn): Session {
    Session(t.cl, s.h, s.c2s + t.out, t.inp)
  }

  function AfterHandler(s: Session, t: H.Turn): Session {
    Session(s.cl, t.h, t.inp, s.s2c + t.out)
  }

  /** One step of session number `n`, and what it leaves of the shared state. */
  function Next(c: Suite, n: nat, s: Session, sh: Shared, m: Move): (Session, Shared)
    requires Cl.Usable(c, s.cl) && Allowed(s, m)
  {
    match m
    case ClientMove(cc) => (AfterClient(s, Cl.Step(c, s.cl, s.s2c, HandlerClosed(s), cc)), sh)
    case HandlerMove(hc) =>
      var t := H.Step(c, n, s.h, s.c2s, ClientClosed(s), sh, hc);
      (AfterHandler(s, t), t.sh)
  }

  predicate Start(c: Suite, s: Session) {
    && Cl.Usable(c, s.cl) && s.cl.pc == Cl.Begin && s.cl.sent == [] && s.cl.seen == [] && s.cl.aes == None
    && s.h == H.NewThread(s.h.key)
    && s.c2s == [] && s.s2c == []
  }

  // ----- Frame alignment -----

  /** The handler has received a prefix of what the client sent, and the stream holds exactly the rest. */
  ghost predicate RequestsAligned(s: Session) {
    var k := |s.h.got|;
    && AllSendable(s.cl.sent) && s.h.got <= s.cl.sent
    && match s.h.pc
       case Stopped(_) => true
       case AwaitPayload(_, hd, acc) =>
         if hd.whole
         then k < |s.cl.sent| && hd == HeaderOf(s.cl.sent[k]) && |acc| <= hd.size
              && acc + s.c2s == s.cl.sent[k].payload + Stream(s.cl.sent[k + 1..])
         else ClientClosed(s) && hd == NO_HEADER && acc == [] && s.c2s == [] && k == |s.cl.sent|
       case _ => s.c2s == Stream(s.cl.sent[k..])
  }

  /** After success the client has left the four size bytes of the acknowledgement unread. */
  function Tail(cl: Cl.State): Bytes {
    if cl.pc == Cl.Done(true) then Pack(H.ACK)[3..] else []
  }

  /** The client has received a prefix of what the handler sent, and the stream holds exactly the rest. */
  ghost predicate RepliesAligned(s: Session) {
    var k := |s.cl.seen|;
    && Packable(s.h.replies) && k <= |s.h.replies|
    && (forall j :: 0 <= j < k ==> s.cl.seen[j] == ParsedOf(s.h.replies[j]))
    && s.s2c == Tail(s.cl) + Replies(s.h.replies[k..])
  }

  // ----- The joint phase -----

  predicate Quiet(s: Session) {
    |s.cl.sent| == |s.h.got| && |s.h.replies| == |s.cl.seen|
  }

  predicate Asked(s: Session, r: Request) {
    |s.cl.sent| == |s.h.got| + 1 && s.cl.sent[|s.h.got|] == r && |s.h.replies| == |s.cl.seen|
  }

  predicate Answered(s: Session, r: Response) {
    |s.cl.sent| == |s.h.got| && |s.h.replies| == |s.cl.seen| + 1 && s.h.replies[|s.cl.seen|] == r
  }

  /** The handler is waiting for, or inside, the payload of a request of this stage. */
  predicate Reading(h: H.Thread, stage: H.Stage) {
    h.pc == H.AwaitHeader(stage) || (h.pc.AwaitPayload? && h.pc.stage == stage && h.pc.header.whole)
  }

  predicate Registering(s: Session) {
    || (Asked(s, Cl.RegistrationRequest(s.cl))
        && (Reading(s.h, H.Register) || s.h.pc == H.AwaitHeader(H.First)) && s.h.pc != H.AwaitHeader(H.Register))
    || (Quiet(s) && s.h.pc == H.Work(H.RegInsert(s.cl.name)))
    || (Quiet(s) && s.h.pc.Work? && s.h.pc.task.RegSeen? && |s.h.pc.task.id| == UUID_LENGTH)
    || (Quiet(s) && s.h.pc.Work? && s.h.pc.task.RegReply?
        && (s.h.pc.task.given.Some? ==> |s.h.pc.task.given.value| == UUID_LENGTH))
    || (Answered(s, Response(REGISTRATION_SUCCESS, s.h.id)) && |s.h.id| == UUID_LENGTH
        && s.h.pc == H.AwaitHeader(H.KeyExchange))
    || (Answered(s, Response(REGISTRATION_FAILED, Zeros(16))) && HandlerClosed(s))
  }

  /** The handler is ready for the key request of this client, fresh or resumed. */
  predicate ReadyForKey(s: Session) {
    (s.h.pc == H.AwaitHeader(H.KeyExchange) && s.h.id == s.cl.id) || (s.cl.resume && s.h.pc == H.AwaitHeader(H.First))
  }

  predicate Keying(c: Suite, s: Session) {
    || (Asked(s, Cl.KeyRequest(c, s.cl))
        && (ReadyForKey(s)
            || (s.h.id == s.cl.id && s.h.pc.AwaitPayload? && s.h.pc.stage == H.KeyExchange && s.h.pc.header.whole)))
    || (Quiet(s) && s.h.id == s.cl.id && s.h.publicKey == c.publicOf(s.cl.priv)
        && s.h.pc.Work? && (s.h.pc.task.KeyStore? || s.h.pc.task.KeySeen? || s.h.pc.task.KeyReply?))
    || (s.h.pc == H.AwaitHeader(H.File) && s.h.id == s.cl.id && |s.h.replies| == |s.cl.seen| + 1
        && var w := s.h.replies[|s.cl.seen|];
           Answered(s, w) && w.code == AES_KEY && |w.payload| == UUID_LENGTH + WRAPPED_KEY_SIZE
           && c.unwrap(s.cl.priv, w.payload[UUID_LENGTH..]) == Some(s.h.key))
  }

  /** Both ends hold the same id and the same symmetric key. */
  predicate Keyed(s: Session) {
    s.cl.aes == Some(s.h.key) && s.h.id == s.cl.id
  }

  /** The handler gave up and everything it sent has been read: the client runs out its attempts alone. */
  predicate Abandoned(s: Session) {
    HandlerClosed(s) && |s.h.replies| == |s.cl.seen|
  }

  predicate JobMatches(c: Suite, s: Session, job: H.Job) {
    && job.name == NameOfField(s.cl.file) && job.data == s.cl.data
    && job.size == |ClientEncrypt(c, s.h.key, s.cl.data)|
  }

  predicate UploadMatches(c: Suite, s: Session, up: H.Upload) {
    && up.name == NameOfField(s.cl.file) && up.cipher == ClientEncrypt(c, s.h.key, s.cl.data)
    && up.size == |up.cipher|
  }

  predicate ReadingVerdict(c: Suite, s: Session) {
    && (s.h.pc.AwaitHeader? || s.h.pc.AwaitPayload?) && s.h.pc.stage.Verdict?
    && JobMatches(c, s, s.h.pc.stage.job) && Reading(s.h, s.h.pc.stage)
  }

  predicate Uploading(c: Suite, s: Session) {
    && |s.cl.id| == UUID_LENGTH && |s.cl.data| <= MAX_PLAIN && |ClientEncrypt(c, s.h.key, s.cl.data)| < UINT32_LIMIT
    && (|| (Asked(s, Cl.FileRequest(c, s.cl, s.h.key, s.cl.data)) && Reading(s.h, H.File))
        || (Quiet(s) && s.h.pc.Work? && (s.h.pc.task.FileInsert? || s.h.pc.task.FileSeen? || s.h.pc.task.FileReply?)
            && UploadMatches(c, s, s.h.pc.task.up))
        || (Quiet(s) && s.h.pc == H.Work(H.FinalAck))
        || (s.h.pc.AwaitHeader? && ReadingVerdict(c, s)
            && Answered(s, H.CrcReply(s.cl.id, s.h.pc.stage.job, c.crc(s.cl.data))))
        || (Answered(s, H.ACK) && HandlerClosed(s)))
  }

  /** The handler is past its acknowledgement of FILE_CRC_SUCCESS. */
  predicate Storing(c: Suite, s: Session) {
    || (s.h.pc.Work? && (s.h.pc.task.Save? || s.h.pc.task.MarkVerified? || s.h.pc.task.VerifiedSeen?)
        && JobMatches(c, s, s.h.pc.task.job))
    || s.h.pc == H.Stopped(true)
  }

  /** The last request the client sent is its FILE_CRC_SUCCESS. */
  predicate SaidSuccess(s: Session) {
    s.cl.sent != [] && s.cl.sent[|s.cl.sent| - 1] == Cl.VerdictRequest(s.cl, CRC_SUCCESS)
  }

  predicate Confirming(c: Suite, s: Session) {
    && s.cl.crc == c.crc(s.cl.data) && SaidSuccess(s)
    && (|| (Asked(s, Cl.VerdictRequest(s.cl, CRC_SUCCESS)) && ReadingVerdict(c, s))
        || (Quiet(s) && s.h.pc.Work? && s.h.pc.task.Acknowledge? && s.h.pc.task.code == CRC_SUCCESS
            && JobMatches(c, s, s.h.pc.task.job))
        || (Answered(s, H.ACK) && (Storing(c, s) || s.h.pc == H.Work(H.FinalAck)))
        || (|s.cl.sent| == |s.h.got| && |s.h.replies| == |s.cl.seen| + 2 && HandlerClosed(s)
            && s.h.replies[|s.cl.seen|] == H.ACK && s.h.replies[|s.cl.seen| + 1] == H.ACK))
  }

  predicate Refusing(c: Suite, s: Session) {
    || (Asked(s, Cl.VerdictRequest(s.cl, CRC_RESENDING)) && ReadingVerdict(c, s))
    || (Quiet(s) && s.h.pc.Work? && s.h.pc.task.Acknowledge? && s.h.pc.task.code == CRC_RESENDING)
    || (Answered(s, H.ACK) && s.h.pc == H.AwaitHeader(H.File))
  }

  predicate Finishing(s: Session) {
    || (Asked(s, Cl.VerdictRequest(s.cl, CRC_FINISHED)) && Reading(s.h, H.File))
    || (Quiet(s) && s.h.pc == H.Work(H.FinalAck))
    || (Answered(s, H.ACK) && HandlerClosed(s))
  }

  predicate Succeeded(c: Suite, s: Session) {
    && s.cl.crc == c.crc(s.cl.data) && |s.cl.sent| == |s.h.got| && SaidSuccess(s)
    && (|| (Quiet(s) && (Storing(c, s) || s.h.pc == H.Work(H.FinalAck) || HandlerClosed(s)))
        || (Answered(s, H.ACK) && HandlerClosed(s)))
  }

  predicate Failed(s: Session) {
    || HandlerClosed(s)
    || (Quiet(s) && (s.h.pc == H.AwaitHeader(H.First) || s.h.pc == H.AwaitHeader(H.KeyExchange)
                     || s.h.pc == H.AwaitPayload(H.KeyExchange, NO_HEADER, [])))
  }

  /** Where the handler and the messages in flight can be, for each position of the client. */
  predicate Phase(c: Suite, s: Session) {
    match s.cl.pc
    case Begin => Quiet(s) && s.h.pc == H.AwaitHeader(H.First)
    case WaitRegistration => Registering(s)
    case SendKey => Quiet(s) && ReadyForKey(s)
    case WaitKey => Keying(c, s)
    case Attempt(_) => Keyed(s) && (Abandoned(s) || (Quiet(s) && s.h.pc == H.AwaitHeader(H.File)))
    case WaitCrc(_) => Keyed(s) && (Abandoned(s) || Uploading(c, s))
    case WaitSuccess(_) => Keyed(s) && (Abandoned(s) || Confirming(c, s))
    case WaitResending(_) => Keyed(s) && (Abandoned(s) || Refusing(c, s))
    case WaitFinished => Keyed(s) && (Abandoned(s) || Finishing(s))
    case Done(true) => Keyed(s) && Succeeded(c, s)
    case Done(false) => Failed(s)
  }

  /** Before the key response is read. */
  predicate BeforeKey(pc: Cl.Pc) {
    pc.Begin? || pc.WaitRegistration? || pc.SendKey? || pc.WaitKey?
  }

  ghost predicate Inv(c: Suite, s: Session) {
    && Cl.Usable(c, s.cl) && RequestsAligned(s) && RepliesAligned(s) && Phase(c, s)
    && (s.cl.aes.Some? ==> Keyed(s) && !BeforeKey(s.cl.pc))
  }

  lemma StartInv(c: Suite, s: Session)
    requires Start(c, s)
    ensures Inv(c, s)
  {
  }

  // ----- Requests stay aligned -----

  lemma SentBehindPayload(s: Session, t: Cl.Turn, r: Request)
    requires RequestsAligned(s) && s.h.pc.AwaitPayload? && !ClientClosed(s)
    requires Sendable(r) && t.cl.sent == s.cl.sent + [r] && t.out == Frame(r)
    ensures RequestsAligned(AfterClient(s, t))
  {
    var k := |s.h.got|;
    assert t.cl.sent[k + 1..] == s.cl.sent[k + 1..] + [r];
    StreamSnoc(s.cl.sent[k + 1..], r);
    assert s.h.pc.acc + (s.c2s + t.out) == (s.h.pc.acc + s.c2s) + Frame(r);
  }

  lemma SentBehindFrames(s: Session, t: Cl.Turn, r: Request)
    requires RequestsAligned(s) && !s.h.pc.AwaitPayload?
    requires Sendable(r) && t.cl.sent == s.cl.sent + [r] && t.out == Frame(r)
    ensures RequestsAligned(AfterClient(s, t))
  {
    var k := |s.h.got|;
    if !s.h.pc.Stopped? {
      assert t.cl.sent[k..] == s.cl.sent[k..] + [r];
      StreamSnoc(s.cl.sent[k..], r);
    }
  }

  lemma ClientKeepsRequests(c: Suite, s: Session, t: Cl.Turn)
    requires RequestsAligned(s) && !ClientClosed(s)
    requires Cl.SendsOne(s.cl, t)
    ensures RequestsAligned(AfterClient(s, t))
  {
    if |t.cl.sent| == |s.cl.sent| {
      assert s.c2s + [] == s.c2s;
    } else {
      var r := t.cl.sent[|s.cl.sent|];
      assert t.cl.sent == s.cl.sent + [r];
      if s.h.pc.AwaitPayload? {
        SentBehindPayload(s, t, r);
      } else {
        SentBehindFrames(s, t, r);
      }
    }
  }

  /** A header read that finds bytes finds the header of the next request, and nothing else. */
  lemma HeaderRead(s: Session, hc: H.Choice)
    requires RequestsAligned(s) && s.h.pc.AwaitHeader? && Allowed(s, HandlerMove(hc)) && s.c2s != []
    ensures var k := |s.h.got|;
            && hc.k == REQUEST_HEADER && k < |s.cl.sent|
            && ParseHeader(s.c2s[..hc.k]) == HeaderOf(s.cl.sent[k])
            && s.c2s[hc.k..] == s.cl.sent[k].payload + Stream(s.cl.sent[k + 1..])
  {
    var k := |s.h.got|;
    assert s.cl.sent[k..] != [];
    assert s.cl.sent[k..][1..] == s.cl.sent[k + 1..];
    FrameSplits(s.cl.sent[k], Stream(s.cl.sent[k + 1..]));
  }

  lemma HeaderKeepsRequests(c: Suite, n: nat, s: Session, sh: Shared, hc: H.Choice)
    requires Cl.Usable(c, s.cl) && RequestsAligned(s) && s.h.pc.AwaitHeader? && Allowed(s, HandlerMove(hc))
    ensures RequestsAligned(Next(c, n, s, sh, HandlerMove(hc)).0)
  {
    var s' := Next(c, n, s, sh, HandlerMove(hc)).0;
    if s.c2s != [] {
      HeaderRead(s, hc);
      HeaderAligned(s, s', HeaderOf(s.cl.sent[|s.h.got|]));
    } else {
      assert s.c2s[..0] == [] && s.c2s[0..] == [] && ParseHeader([]) == NO_HEADER;
      assert Stream(s.cl.sent[|s.h.got|..]) == [] ==> s.cl.sent[|s.h.got|..] == [];
      HeaderAligned(s, s', NO_HEADER);
    }
  }

  lemma HeaderAligned(s: Session, s': Session, hd: Header)
    requires RequestsAligned(s) && s.h.pc.AwaitHeader? && s'.cl == s.cl && s'.h == H.OnHeader(s.h, s.h.pc.stage, hd)
    requires var k := |s.h.got|;
             if hd.whole
             then k < |s.cl.sent| && hd == HeaderOf(s.cl.sent[k])
                  && s'.c2s == s.cl.sent[k].payload + Stream(s.cl.sent[k + 1..])
             else ClientClosed(s) && hd == NO_HEADER && s'.c2s == [] && k == |s.cl.sent|
    ensures RequestsAligned(s')
  {
    assert [] + s'.c2s == s'.c2s;
  }

  lemma PayloadKeepsRequests(c: Suite, n: nat, s: Session, sh: Shared, hc: H.Choice)
    requires Cl.Usable(c, s.cl) && RequestsAligned(s) && s.h.pc.AwaitPayload? && Allowed(s, HandlerMove(hc))
    ensures RequestsAligned(Next(c, n, s, sh, HandlerMove(hc)).0)
  {
    var s' := Next(c, n, s, sh, HandlerMove(hc)).0;
    if |s.h.pc.acc| < s.h.pc.header.size {
      PayloadNotAtEnd(s);
      PartAligned(s, s', hc.k);
    } else if s.h.pc.header.whole {
      PayloadComplete(s);
      assert s'.h.got == s.h.got + [s.cl.sent[|s.h.got|]];
    }
  }

  lemma PartAligned(s: Session, s': Session, k: nat)
    requires RequestsAligned(s) && s.h.pc.AwaitPayload? && k <= |s.c2s| && |s.h.pc.acc| + k <= s.h.pc.header.size
    requires s'.cl == s.cl && s'.h == s.h.(pc := s.h.pc.(acc := s.h.pc.acc + s.c2s[..k])) && s'.c2s == s.c2s[k..]
    requires s.h.pc.header.whole
    ensures RequestsAligned(s')
  {
    assert s'.h.pc.acc + s'.c2s == s.h.pc.acc + s.c2s;
  }

  /** While a payload is incomplete its bytes are in the stream: the stream cannot end inside it. */
  lemma PayloadNotAtEnd(s: Session)
    requires RequestsAligned(s) && s.h.pc.AwaitPayload? && |s.h.pc.acc| < s.h.pc.header.size
    ensures s.c2s != []
  {
    assert |s.h.pc.acc + s.c2s| >= s.h.pc.header.size;
  }

  /** A completed payload is the payload of the request whose header was read. */
  lemma PayloadComplete(s: Session)
    requires RequestsAligned(s) && s.h.pc.AwaitPayload? && s.h.pc.header.whole
    requires |s.h.pc.acc| >= s.h.pc.header.size
    ensures var k := |s.h.got|;
            var hd := s.h.pc.header;
            && k < |s.cl.sent| && s.h.pc.acc == s.cl.sent[k].payload
            && Request(hd.id, hd.version, hd.code, s.h.pc.acc) == s.cl.sent[k]
            && s.c2s == Stream(s.cl.sent[k + 1..])
  {
    var k := |s.h.got|;
    var acc, p := s.h.pc.acc, s.cl.sent[k].payload;
    var rest := Stream(s.cl.sent[k + 1..]);
    assert (acc + s.c2s)[..|acc|] == acc && (p + rest)[..|acc|] == p;
    assert (acc + s.c2s)[|acc|..] == s.c2s && (p + rest)[|acc|..] == rest;
  }

  lemma HandlerKeepsRequests(c: Suite, n: nat, s: Session, sh: Shared, hc: H.Choice)
    requires Cl.Usable(c, s.cl) && RequestsAligned(s) && Allowed(s, HandlerMove(hc))
    ensures RequestsAligned(Next(c, n, s, sh, HandlerMove(hc)).0)
  {
    if s.h.pc.AwaitHeader? {
      HeaderKeepsRequests(c, n, s, sh, hc);
    } else if s.h.pc.AwaitPayload? {
      PayloadKeepsRequests(c, n, s, sh, hc);
    } else {
      TaskKeepsGot(c, n, s.h, s.c2s, sh, hc);
    }
  }

  lemma TaskKeepsGot(c: Suite, n: nat, h: H.Thread, inp: Bytes, sh: Shared, ch: H.Choice)
    requires h.pc.Work?
    ensures var t := H.TaskStep(c, n, h, inp, sh, ch, h.pc.task);
            t.inp == inp && t.h.got == h.got && !t.h.pc.AwaitPayload?
  {
  }
}
