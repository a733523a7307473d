/**
 * What the history says happened, against what a handler sent and received. Every event names a
 * handler; here it is tied to the responses in that handler's `replies` and the headers it read.
 */
module Conversations {
  import opened ByteStrings
  import opened Cipher
  import opened Wire
  import opened Tables
  import opened Handler

  /** A step logs nothing, or one event of its own handler. */
  ghost predicate LogsOwn(log: seq<Event>, log': seq<Event>, n: nat) {
    || log' == log
    || (|log'| == |log| + 1 && log' == log + [log'[|log|]] && log'[|log|].h == n)
  }

  lemma StepLogsOwn(c: Suite, n: nat, h: Thread, inp: Bytes, closed: bool, sh: Shared, ch: Choice)
    requires CanStep(h, inp, closed, ch)
    ensures LogsOwn(sh.log, Step(c, n, h, inp, closed, sh, ch).sh.log, n)
  {
  }

  // ----- What a task leaves alone -----

  /** Before the first response of a connection that registers. */
  predicate Unanswered(pc: Pc) {
    match pc
    case AwaitHeader(stage) => stage.First? || stage.Register?
    case AwaitPayload(stage, _, _) => stage.First? || stage.Register?
    case Work(t) => t.RegInsert? || t.RegSeen? || t.RegReply?
    case Stopped(_) => false
  }

  /** A task reads no header, confirms nothing and takes back no response. */
  predicate ReadsNone(h: Thread, h': Thread, log: seq<Event>, log': seq<Event>) {
    && h'.headers == h.headers && !h'.pc.AwaitPayload? && h.replies <= h'.replies
    && (log' == log || (log' != [] && !log'[|log'| - 1].Confirmed?))
  }

  /** Nothing new is sent, or one response that does not answer a registration. */
  predicate AnswersNone(h: Thread, h': Thread) {
    || h'.replies == h.replies
    || (h'.replies != [] && h'.replies == h.replies + [h'.replies[|h'.replies| - 1]]
        && h'.replies[|h'.replies| - 1].code != REGISTRATION_SUCCESS
        && h'.replies[|h'.replies| - 1].code != REGISTRATION_FAILED)
  }

  /** After the registration is answered, a handler keeps id and name, registers no more and answers no more. */
  predicate Later(h: Thread, h': Thread, log: seq<Event>, log': seq<Event>) {
    && h'.id == h.id && h'.name == h.name && !Unanswered(h'.pc) && AnswersNone(h, h')
    && (log' == log || (log' != [] && !log'[|log'| - 1].Registered?))
  }

  lemma RegistrationReadsNone(n: nat, h: Thread, inp: Bytes, sh: Shared, ch: Choice)
    requires h.pc.Work? && Unanswered(h.pc)
    ensures var t := RegistrationTask(n, h, inp, sh, ch, h.pc.task); ReadsNone(h, t.h, sh.log, t.sh.log)
  {
  }

  lemma LaterKey(c: Suite, h: Thread, inp: Bytes, sh: Shared, ch: Choice)
    requires h.pc.Work? && (h.pc.task.KeyStore? || h.pc.task.KeySeen? || h.pc.task.KeyReply?)
    ensures var t := KeyTask(c, h, inp, sh, ch, h.pc.task);
            Later(h, t.h, sh.log, t.sh.log) && ReadsNone(h, t.h, sh.log, t.sh.log)
  {
  }

  lemma LaterFile(c: Suite, n: nat, h: Thread, inp: Bytes, sh: Shared, ch: Choice)
    requires h.pc.Work? && (h.pc.task.FileInsert? || h.pc.task.FileSeen? || h.pc.task.FileReply?)
    ensures var t := FileTask(c, n, h, inp, sh, ch, h.pc.task);
            Later(h, t.h, sh.log, t.sh.log) && ReadsNone(h, t.h, sh.log, t.sh.log)
  {
  }

  lemma LaterVerdict(n: nat, h: Thread, inp: Bytes, sh: Shared, ch: Choice)
    requires h.pc.Work?
    requires var t := h.pc.task; t.Acknowledge? || t.Save? || t.MarkVerified? || t.VerifiedSeen? || t.FinalAck?
    ensures var t := VerdictTask(n, h, inp, sh, ch, h.pc.task);
            Later(h, t.h, sh.log, t.sh.log) && ReadsNone(h, t.h, sh.log, t.sh.log)
  {
  }

  lemma TaskLeaves(c: Suite, n: nat, h: Thread, inp: Bytes, sh: Shared, ch: Choice)
    requires h.pc.Work?
    ensures var t := TaskStep(c, n, h, inp, sh, ch, h.pc.task);
            ReadsNone(h, t.h, sh.log, t.sh.log) && (!Unanswered(h.pc) ==> Later(h, t.h, sh.log, t.sh.log))
  {
    if Unanswered(h.pc) {
      RegistrationReadsNone(n, h, inp, sh, ch);
    } else {
      match h.pc.task {
        case KeyStore => LaterKey(c, h, inp, sh, ch);
        case KeySeen => LaterKey(c, h, inp, sh, ch);
        case KeyReply => LaterKey(c, h, inp, sh, ch);
        case FileInsert(_) => LaterFile(c, n, h, inp, sh, ch);
        case FileSeen(_) => LaterFile(c, n, h, inp, sh, ch);
        case FileReply(_) => LaterFile(c, n, h, inp, sh, ch);
        case _ => LaterVerdict(n, h, inp, sh, ch);
      }
    }
  }

  // ----- Checksums told and confirmations heard -----

  /** The handler sent the response that carries the checksum of `data`, under this id and file name. */
  ghost predicate Told(c: Suite, h: Thread, id: Bytes, name: Bytes, data: Bytes) {
    exists size: u32 :: CrcReply(PadTo(id, UUID_LENGTH)[..UUID_LENGTH], Job(name, size, data), c.crc(data)) in h.replies
  }

  /** The response that `Told` speaks of is a FILE_CRC response from which a client takes exactly that checksum. */
  lemma ToldIsReadable(c: Suite, h: Thread, id: Bytes, name: Bytes, data: Bytes)
    requires Told(c, h, id, name, data)
    ensures exists r :: r in h.replies && r.code == FILE_CRC && CrcField(r.payload) == c.crc(data)
  {
    var size: u32 :|
      CrcReply(PadTo(id, UUID_LENGTH)[..UUID_LENGTH], Job(name, size, data), c.crc(data)) in h.replies;
    CrcPayloadRoundTrip(PadTo(id, UUID_LENGTH)[..UUID_LENGTH], size, name, c.crc(data));
  }

  /** How many confirmations the history has of handler `n`. */
  function Confirmations(log: seq<Event>, n: nat): nat {
    if log == [] then 0 else
      var e := log[|log| - 1];
      Confirmations(log[..|log| - 1], n) + if e.Confirmed? && e.h == n then 1 else 0
  }

  /** How many FILE_CRC_SUCCESS headers were read. */
  function SuccessHeaders(hds: seq<Header>): nat {
    if hds == [] then 0 else
      SuccessHeaders(hds[..|hds| - 1]) + if hds[|hds| - 1].code == CRC_SUCCESS then 1 else 0
  }

  lemma ConfirmationsSnoc(log: seq<Event>, e: Event, n: nat)
    ensures Confirmations(log + [e], n) == Confirmations(log, n) + if e.Confirmed? && e.h == n then 1 else 0
  {
    assert (log + [e])[..|log|] == log;
  }

  lemma SuccessHeadersSnoc(hds: seq<Header>, hd: Header)
    ensures SuccessHeaders(hds + [hd]) == SuccessHeaders(hds) + if hd.code == CRC_SUCCESS then 1 else 0
  {
    assert (hds + [hd])[..|hds|] == hds;
  }

  lemma {:induction false} ConfirmedIsCounted(log: seq<Event>, n: nat, id: Bytes, name: Bytes, data: Bytes)
    requires Confirmed(n, id, name, data) in log
    ensures Confirmations(log, n) > 0
  {
    if log[|log| - 1] != Confirmed(n, id, name, data) {
      ConfirmedIsCounted(log[..|log| - 1], n, id, name, data);
    }
  }

  /** A FILE_CRC_SUCCESS header has been read and is about to be logged as a confirmation. */
  function Pending(pc: Pc): nat {
    if pc.AwaitPayload? && pc.stage.Verdict? && pc.header.code == CRC_SUCCESS then 1 else 0
  }

  /** Every checksum in the history was sent, and every confirmation has a FILE_CRC_SUCCESS header of its own. */
  ghost predicate Conversed(c: Suite, log: seq<Event>, n: nat, h: Thread) {
    && AllTold(c, log, n, h)
    && Confirmations(log, n) + Pending(h.pc) <= SuccessHeaders(h.headers)
  }

  lemma ToldStays(c: Suite, h: Thread, h': Thread, id: Bytes, name: Bytes, data: Bytes)
    requires Told(c, h, id, name, data) && h.replies <= h'.replies
    ensures Told(c, h', id, name, data)
  {
    var size: u32 :|
      CrcReply(PadTo(id, UUID_LENGTH)[..UUID_LENGTH], Job(name, size, data), c.crc(data)) in h.replies;
    assert CrcReply(PadTo(id, UUID_LENGTH)[..UUID_LENGTH], Job(name, size, data), c.crc(data)) in h'.replies;
  }

  lemma StepTells(c: Suite, n: nat, h: Thread, inp: Bytes, closed: bool, sh: Shared, ch: Choice, e: Event)
    requires CanStep(h, inp, closed, ch) && e.CrcSent?
    requires Step(c, n, h, inp, closed, sh, ch).sh.log == sh.log + [e]
    ensures Told(c, Step(c, n, h, inp, closed, sh, ch).h, e.id, e.name, e.data)
  {
    var t := Step(c, n, h, inp, closed, sh, ch);
    assert |t.sh.log| == |sh.log| + 1 && t.sh.log[|sh.log|] == e;
    var r := CrcReply(IdOf(h), Job(e.name, h.pc.task.up.size, e.data), c.crc(e.data));
    assert t.h.replies == h.replies + [r];
  }

  lemma HeaderHears(n: nat, h: Thread, inp: Bytes, sh: Shared, k: nat)
    requires h.pc.AwaitHeader? && k <= |inp|
    ensures var t := ReceiveStep(n, h, inp, sh, k);
            t.sh == sh && Pending(t.h.pc) + SuccessHeaders(h.headers) <= SuccessHeaders(t.h.headers)
  {
    SuccessHeadersSnoc(h.headers, ParseHeader(inp[..k]));
  }

  /** The end of a payload logs a confirmation exactly when one was pending, and leaves none pending. */
  lemma PayloadConfirms(n: nat, h: Thread, inp: Bytes, sh: Shared, k: nat)
    requires h.pc.AwaitPayload? && (|h.pc.acc| < h.pc.header.size ==> k <= |inp|)
    ensures var t := ReceiveStep(n, h, inp, sh, k);
            && t.h.headers == h.headers
            && (if t.h.pc.AwaitPayload? then t.sh == sh && Pending(t.h.pc) == Pending(h.pc)
                else t.sh.log == sh.log || (Pending(h.pc) == 1 && |t.sh.log| == |sh.log| + 1 && sh.log <= t.sh.log))
  {
  }

  lemma PayloadHears(n: nat, h: Thread, inp: Bytes, sh: Shared, k: nat)
    requires h.pc.AwaitPayload? && (|h.pc.acc| < h.pc.header.size ==> k <= |inp|)
    ensures var t := ReceiveStep(n, h, inp, sh, k);
            && t.h.headers == h.headers
            && Confirmations(t.sh.log, n) + Pending(t.h.pc) <= Confirmations(sh.log, n) + Pending(h.pc)
  {
    var t := ReceiveStep(n, h, inp, sh, k);
    PayloadConfirms(n, h, inp, sh, k);
    if t.sh.log != sh.log {
      assert t.sh.log == sh.log + [t.sh.log[|sh.log|]];
      ConfirmationsSnoc(sh.log, t.sh.log[|sh.log|], n);
    }
  }

  lemma StepHears(c: Suite, n: nat, h: Thread, inp: Bytes, closed: bool, sh: Shared, ch: Choice)
    requires CanStep(h, inp, closed, ch)
    requires Confirmations(sh.log, n) + Pending(h.pc) <= SuccessHeaders(h.headers)
    ensures var t := Step(c, n, h, inp, closed, sh, ch);
            Confirmations(t.sh.log, n) + Pending(t.h.pc) <= SuccessHeaders(t.h.headers)
  {
    match h.pc {
      case AwaitHeader(_) => HeaderHears(n, h, inp, sh, ch.k);
      case AwaitPayload(_, _, _) => PayloadHears(n, h, inp, sh, ch.k);
      case Work(_) =>
        var log' := TaskStep(c, n, h, inp, sh, ch, h.pc.task).sh.log;
        TaskLeaves(c, n, h, inp, sh, ch);
        StepLogsOwn(c, n, h, inp, closed, sh, ch);
        if log' != sh.log {
          ConfirmationsSnoc(sh.log, log'[|sh.log|], n);
        }
    }
  }

  ghost predicate AllTold(c: Suite, log: seq<Event>, n: nat, h: Thread) {
    forall e :: e in log && e.CrcSent? && e.h == n ==> Told(c, h, e.id, e.name, e.data)
  }

  lemma AllToldKept(c: Suite, log: seq<Event>, log': seq<Event>, n: nat, h: Thread, h': Thread)
    requires AllTold(c, log, n, h) && LogsOwn(log, log', n) && h.replies <= h'.replies
    requires log' != log && log'[|log|].CrcSent?
             ==> Told(c, h', log'[|log|].id, log'[|log|].name, log'[|log|].data)
    ensures AllTold(c, log', n, h')
  {
    forall e | e in log' && e.CrcSent? && e.h == n ensures Told(c, h', e.id, e.name, e.data) {
      if e in log {
        ToldStays(c, h, h', e.id, e.name, e.data);
      }
    }
  }

  lemma StepConversed(c: Suite, n: nat, h: Thread, inp: Bytes, closed: bool, sh: Shared, ch: Choice)
    requires CanStep(h, inp, closed, ch) && Conversed(c, sh.log, n, h)
    ensures var t := Step(c, n, h, inp, closed, sh, ch); Conversed(c, t.sh.log, n, t.h)
  {
    var t := Step(c, n, h, inp, closed, sh, ch);
    StepLogsOwn(c, n, h, inp, closed, sh, ch);
    StepHears(c, n, h, inp, closed, sh, ch);
    if h.pc.Work? {
      TaskLeaves(c, n, h, inp, sh, ch);
    }
    if t.sh.log != sh.log && t.sh.log[|sh.log|].CrcSent? {
      StepTells(c, n, h, inp, closed, sh, ch, t.sh.log[|sh.log|]);
    }
    AllToldKept(c, sh.log, t.sh.log, n, h, t.h);
  }

  // ----- Registrations answered -----

  predicate NoneRegistered(log: seq<Event>, n: nat) {
    forall e :: e in log && e.Registered? ==> e.h != n
  }

  predicate Replied(h: Thread, code: u16) {
    exists r :: r in h.replies && r.code == code
  }

  /** The insert has been made under this id and is not yet answered. */
  function Drawn(pc: Pc): Option<Bytes> {
    if pc.Work? && pc.task.RegSeen? then Some(pc.task.id)
    else if pc.Work? && pc.task.RegReply? then pc.task.given
    else None
  }

  /** What the responses of handler `n` say about its registration, against the history. */
  ghost predicate Answered(log: seq<Event>, n: nat, h: Thread) {
    && (Unanswered(h.pc) ==> h.replies == [] && (Drawn(h.pc).None? ==> NoneRegistered(log, n)))
    && (h.pc.Work? && h.pc.task.RegInsert? ==> h.pc.task.name == h.name)
    && (Drawn(h.pc).Some? ==> |Drawn(h.pc).value| == UUID_LENGTH && Registered(n, Drawn(h.pc).value, h.name) in log)
    && (Replied(h, REGISTRATION_SUCCESS) ==> Registered(n, h.id, h.name) in log)
    && (forall r :: r in h.replies && r.code == REGISTRATION_SUCCESS ==> r.payload == h.id)
    && (Replied(h, REGISTRATION_FAILED) ==> h.pc == Stopped(false) && NoneRegistered(log, n))
  }

  lemma HeaderAnswered(n: nat, h: Thread, inp: Bytes, sh: Shared, k: nat)
    requires h.pc.AwaitHeader? && k <= |inp| && Answered(sh.log, n, h)
    ensures var t := ReceiveStep(n, h, inp, sh, k); Answered(t.sh.log, n, t.h)
  {
  }

  lemma PayloadAnswered(n: nat, h: Thread, inp: Bytes, sh: Shared, k: nat)
    requires h.pc.AwaitPayload? && (|h.pc.acc| < h.pc.header.size ==> k <= |inp|) && Answered(sh.log, n, h)
    ensures var t := ReceiveStep(n, h, inp, sh, k); Answered(t.sh.log, n, t.h)
  {
  }

  lemma RegistrationAnswered(n: nat, h: Thread, inp: Bytes, sh: Shared, ch: Choice)
    requires h.pc.Work? && Unanswered(h.pc) && Answered(sh.log, n, h)
    ensures var t := RegistrationTask(n, h, inp, sh, ch, h.pc.task); Answered(t.sh.log, n, t.h)
  {
  }

  lemma LaterAnswered(c: Suite, n: nat, h: Thread, inp: Bytes, sh: Shared, ch: Choice)
    requires h.pc.Work? && !Unanswered(h.pc) && Answered(sh.log, n, h)
    ensures var t := TaskStep(c, n, h, inp, sh, ch, h.pc.task); Answered(t.sh.log, n, t.h)
  {
    TaskLeaves(c, n, h, inp, sh, ch);
    StepLogsOwn(c, n, h, inp, true, sh, ch);
  }

  lemma StepAnswered(c: Suite, n: nat, h: Thread, inp: Bytes, closed: bool, sh: Shared, ch: Choice)
    requires CanStep(h, inp, closed, ch) && Answered(sh.log, n, h)
    ensures var t := Step(c, n, h, inp, closed, sh, ch); Answered(t.sh.log, n, t.h)
  {
    if h.pc.AwaitHeader? {
      HeaderAnswered(n, h, inp, sh, ch.k);
    } else if h.pc.AwaitPayload? {
      PayloadAnswered(n, h, inp, sh, ch.k);
    } else if Unanswered(h.pc) {
      RegistrationAnswered(n, h, inp, sh, ch);
    } else {
      LaterAnswered(c, n, h, inp, sh, ch);
    }
  }

  /** At its insert, with this choice, the registration is refused: by a fault, or because the id or name is taken. */
  predicate Refuses(h: Thread, sh: Shared, ch: Choice) {
    && h.pc.Work? && h.pc.task.RegInsert?
    && (!ch.ok || Taken(sh.clients, BytesLe(ch.uuid), h.pc.task.name))
  }

  /** Whether the insert was refused, against the answer. */
  predicate AnswerFits(h: Thread, refused: bool) {
    && (Replied(h, REGISTRATION_FAILED) || h.pc == Work(RegReply(None)) ==> refused)
    && (refused ==> h.pc == Work(RegReply(None))
                    || (h.pc == Stopped(false) && (h.replies == [] || Replied(h, REGISTRATION_FAILED))))
  }

  lemma StepAnswerFits(c: Suite, n: nat, h: Thread, inp: Bytes, closed: bool, sh: Shared, ch: Choice, refused: bool)
    requires CanStep(h, inp, closed, ch) && Answered(sh.log, n, h) && AnswerFits(h, refused)
    ensures AnswerFits(Step(c, n, h, inp, closed, sh, ch).h, refused || Refuses(h, sh, ch))
  {
    if h.pc.Work? && !Unanswered(h.pc) {
      TaskLeaves(c, n, h, inp, sh, ch);
    } else if !h.pc.Work? {
      ReceiveAnswerFits(n, h, inp, closed, sh, ch, refused);
    } else {
      RegistrationAnswerFits(n, h, inp, sh, ch, refused);
    }
  }

  lemma ReceiveAnswerFits(n: nat, h: Thread, inp: Bytes, closed: bool, sh: Shared, ch: Choice, refused: bool)
    requires !h.pc.Work? && CanStep(h, inp, closed, ch) && AnswerFits(h, refused)
    ensures AnswerFits(ReceiveStep(n, h, inp, sh, ch.k).h, refused)
  {
  }

  lemma RegistrationAnswerFits(n: nat, h: Thread, inp: Bytes, sh: Shared, ch: Choice, refused: bool)
    requires h.pc.Work? && Unanswered(h.pc) && AnswerFits(h, refused) && h.replies == []
    ensures AnswerFits(RegistrationTask(n, h, inp, sh, ch, h.pc.task).h, refused || Refuses(h, sh, ch))
  {
  }

  // ----- Another handler's step -----

  ghost predicate Consistent(c: Suite, log: seq<Event>, n: nat, h: Thread) {
    Conversed(c, log, n, h) && Answered(log, n, h)
  }

  lemma NewConsistent(c: Suite, log: seq<Event>, n: nat, key: Block)
    requires forall e :: e in log ==> e.h != n
    ensures Consistent(c, log, n, NewThread(key))
  {
    NoConfirmations(log, n);
  }

  lemma {:induction false} NoConfirmations(log: seq<Event>, n: nat)
    requires forall e :: e in log ==> e.h != n
    ensures Confirmations(log, n) == 0
  {
    if log != [] {
      NoConfirmations(log[..|log| - 1], n);
    }
  }

  lemma OthersConsistent(c: Suite, log: seq<Event>, log': seq<Event>, m: nat, n: nat, h: Thread)
    requires Consistent(c, log, n, h) && LogsOwn(log, log', m) && m != n
    ensures Consistent(c, log', n, h)
  {
    if log' != log {
      ConfirmationsSnoc(log, log'[|log|], n);
    }
  }
}
