/** Which requests a client sends over a whole run when no endpoint fails, and how often the handler's loop turns. */
module Accounting {
  import opened ByteStrings
  import opened Cipher
  import opened Wire
  import opened Tables
  import opened Session
  import opened Protocol
  import Cl = Client
  import H = Handler
  import ClientMoves
  import HandlerMoves

  function Codes(rs: seq<Request>): (cs: seq<u16>)
    ensures |cs| == |rs| && forall i :: 0 <= i < |rs| ==> cs[i] == rs[i].code
  {
    seq(|rs|, i requires 0 <= i < |rs| => rs[i].code)
  }

  /** `j` attempts that were each answered with FILE_CRC_FAILED_RESENDING. */
  function Rounds(j: nat): seq<u16> {
    if j == 0 then [] else Rounds(j - 1) + [ENCRYPTED_FILE, CRC_RESENDING]
  }

  /** The requests before the file loop: a resumed client does not register. */
  function Opening(cl: Cl.State): seq<u16> {
    if cl.resume then [PUBLIC_KEY] else [REGISTRATION, PUBLIC_KEY]
  }

  /** The database accepts the file row, the disk accepts the save, and sends succeed. */
  predicate NoFault(s: Session, m: Move) {
    m.HandlerMove? ==> m.hc.sent && (s.h.pc.Work? && (s.h.pc.task.FileInsert? || s.h.pc.task.Save?) ==> m.hc.ok)
  }

  /** The handler is alive and has not decided to give up. */
  predicate Willing(h: H.Thread) {
    h.pc != H.Stopped(false) && h.pc != H.Work(H.FinalAck)
  }

  /** After `j` refused attempts: the requests sent so far, and the turns of the handler's loop. */
  predicate Ledger(s: Session, j: nat) {
    var codes := Codes(s.cl.sent);
    var base := Opening(s.cl) + Rounds(j);
    match s.cl.pc
    case Begin => codes == [] && s.h.times == 0
    case WaitRegistration => !s.cl.resume && codes == [REGISTRATION] && s.h.times == 0
    case SendKey => codes == (if s.cl.resume then [] else [REGISTRATION]) && s.h.times == 0
    case WaitKey => codes == Opening(s.cl) && s.h.times == 0 && j == 0
    case Attempt(n) => codes == base && j <= n <= Cl.MAX_RETRIES && s.h.times == j && Willing(s.h)
    case WaitCrc(i) => codes == base + [ENCRYPTED_FILE] && j <= i && s.h.times == j && Willing(s.h)
    case WaitSuccess(i) =>
      && codes == base + [ENCRYPTED_FILE, CRC_SUCCESS] && j <= i && Willing(s.h)
      && s.h.times == (if s.h.pc.Stopped? then j + 1 else j)
    case WaitResending(i) =>
      && codes == base + [ENCRYPTED_FILE, CRC_RESENDING] && j <= i && Willing(s.h)
      && s.h.times == (if s.h.pc == H.AwaitHeader(H.File) then j + 1 else j)
    case WaitFinished =>
      && codes == base + [CRC_FINISHED] && j <= Cl.MAX_RETRIES
      && s.h.times == (if Willing(s.h) then j else j + 1)
    case Done(true) =>
      && codes == base + [ENCRYPTED_FILE, CRC_SUCCESS] && j < Cl.MAX_RETRIES && Willing(s.h)
      && s.h.times == (if s.h.pc.Stopped? then j + 1 else j)
    case Done(false) =>
      || (codes == (if s.cl.sent == [] then [] else [REGISTRATION]) && s.h.times == 0 && s.h.pc != H.Stopped(true))
      || (codes == base + [CRC_FINISHED] && j <= Cl.MAX_RETRIES && HandlerClosed(s) && s.h.times == j + 1)
  }

  lemma CodesSnoc(rs: seq<Request>, r: Request)
    ensures Codes(rs + [r]) == Codes(rs) + [r.code]
  {
  }

  /** A move of the client, and what it adds to the codes sent. */
  predicate Counted(cl: Cl.State, cl': Cl.State) {
    && Cl.Moves(cl, cl')
    && Codes(cl'.sent) == Codes(cl.sent) + if cl'.sent == cl.sent then [] else [cl'.sent[|cl'.sent| - 1].code]
  }

  lemma MovesCounted(cl: Cl.State, cl': Cl.State)
    requires Cl.Moves(cl, cl')
    ensures Counted(cl, cl')
  {
    if cl'.sent != cl.sent {
      CodesSnoc(cl.sent, cl'.sent[|cl'.sent| - 1]);
    }
  }

  /** The same ledger, one refused attempt more when a RESENDING was acknowledged. */
  function Refused(s: Session, s': Session, j: nat): nat {
    if s.cl.pc.WaitResending? then j + 1 else if s'.cl.pc.WaitKey? then 0 else j
  }

  lemma LoopLedger(c: Suite, s: Session, s': Session, j: nat)
    requires Phase(c, s) && Phase(c, s') && Ledger(s, j) && Counted(s.cl, s'.cl) && s'.h == s.h
    requires s.cl.pc.Attempt? || s.cl.pc.WaitCrc? || s.cl.pc.WaitSuccess? || s.cl.pc.WaitResending?
    ensures Ledger(s', Refused(s, s', j))
  {
    match s.cl.pc {
      case WaitSuccess(_) => SuccessAccepted(c, s, s');
      case WaitResending(i) => ResendingAccepted(c, s, s', j);
      case Attempt(_) => AttemptCounted(c, s, s', j);
      case WaitCrc(_) => AttemptCounted(c, s, s', j);
    }
  }

  lemma ClientLedger(c: Suite, s: Session, s': Session, j: nat)
    requires Phase(c, s) && Phase(c, s') && Ledger(s, j) && Counted(s.cl, s'.cl) && s'.h == s.h
    ensures Ledger(s', Refused(s, s', j))
  {
    if s.cl.pc.WaitKey? {
      KeyAccepted(c, s, s');
    } else if s.cl.pc.WaitFinished? {
      FinishAccepted(c, s, s', j);
    } else if s.cl.pc.Begin? || s.cl.pc.WaitRegistration? || s.cl.pc.SendKey? {
      OpeningCounted(c, s, s', j, Refused(s, s', j));
    } else {
      LoopLedger(c, s, s', j);
    }
  }

  lemma OpeningCounted(c: Suite, s: Session, s': Session, j: nat, j': nat)
    requires Phase(c, s) && Phase(c, s') && (s.cl.pc.Begin? || s.cl.pc.WaitRegistration? || s.cl.pc.SendKey?)
    requires Ledger(s, j) && Counted(s.cl, s'.cl) && s'.h == s.h
    requires s'.cl.pc.WaitKey? ==> j' == 0
    ensures Ledger(s', j')
  {
  }

  lemma FinishAccepted(c: Suite, s: Session, s': Session, j: nat)
    requires Phase(c, s) && Phase(c, s') && s.cl.pc.WaitFinished? && Ledger(s, j)
    requires Counted(s.cl, s'.cl) && s'.h == s.h
    ensures Ledger(s', j)
  {
  }

  lemma AttemptCounted(c: Suite, s: Session, s': Session, j: nat)
    requires Phase(c, s) && Phase(c, s') && (s.cl.pc.Attempt? || s.cl.pc.WaitCrc?) && Ledger(s, j)
    requires Counted(s.cl, s'.cl) && s'.h == s.h
    ensures Ledger(s', j)
  {
    var base := Opening(s.cl) + Rounds(j);
    assert base + [ENCRYPTED_FILE] + [CRC_SUCCESS] == base + [ENCRYPTED_FILE, CRC_SUCCESS];
    assert base + [ENCRYPTED_FILE] + [CRC_RESENDING] == base + [ENCRYPTED_FILE, CRC_RESENDING];
  }

  lemma KeyAccepted(c: Suite, s: Session, s': Session)
    requires Phase(c, s) && Phase(c, s') && s.cl.pc.WaitKey?
    requires Counted(s.cl, s'.cl) && s'.h == s.h
    ensures s'.cl.pc == Cl.Attempt(0) && Willing(s.h)
  {
  }

  lemma SuccessAccepted(c: Suite, s: Session, s': Session)
    requires Phase(c, s) && Phase(c, s') && s.cl.pc.WaitSuccess? && Willing(s.h)
    requires Counted(s.cl, s'.cl) && s'.h == s.h
    ensures s'.cl.pc == Cl.Done(true)
  {
    assert Confirming(c, s);
  }

  lemma ResendingAccepted(c: Suite, s: Session, s': Session, j: nat)
    requires Phase(c, s) && Phase(c, s') && s.cl.pc.WaitResending? && Ledger(s, j)
    requires Counted(s.cl, s'.cl) && s'.h == s.h
    ensures Ledger(s', j + 1)
  {
    assert s.h.pc == H.AwaitHeader(H.File);
    var base := Opening(s.cl);
    assert base + Rounds(j) + [ENCRYPTED_FILE, CRC_RESENDING] == base + Rounds(j + 1);
  }

  /** Where a task before the file loop may lead. */
  predicate Opens(pc: H.Pc) {
    match pc
    case AwaitHeader(stage) => stage.KeyExchange? || stage.File?
    case AwaitPayload(_, _, _) => false
    case Work(t) => t.RegSeen? || t.RegReply? || t.KeySeen? || t.KeyReply?
    case Stopped(ok) => !ok
  }

  /** Where a payload before the file loop may lead. */
  predicate Begins(pc: H.Pc) {
    pc == H.Stopped(false) || (pc.Work? && (pc.task.RegInsert? || pc.task.KeyStore?))
  }

  /** What a step of a handler without faults does to its position and its counter. */
  predicate Turned(h: H.Thread, h': H.Thread) {
    match h.pc
    case AwaitHeader(stage) =>
      && h'.times == h.times
      && (if stage.First? then (h'.pc.AwaitPayload? && !h'.pc.stage.Verdict?) || h'.pc == H.Stopped(false)
          else h'.pc.AwaitPayload? && h'.pc.stage == stage)
    case AwaitPayload(stage, hd, _) =>
      if h'.pc.AwaitPayload? then h'.times == h.times && h'.pc.stage == stage
      else if stage.Verdict? then h'.times == h.times && h'.pc == H.Work(H.Acknowledge(stage.job, hd.code))
      else if !stage.File? then h'.times == h.times && Begins(h'.pc)
      else if hd.code == ENCRYPTED_FILE then h'.times == h.times && h'.pc.Work? && h'.pc.task.FileInsert?
      else h'.times == h.times + 1 && (hd.code == CRC_FINISHED ==> h'.pc == H.Work(H.FinalAck))
    case Work(t) => (
      match t
      case FileInsert(up) => h'.pc == H.Work(H.FileSeen(up)) && h'.times == h.times
      case FileSeen(up) => h'.pc == H.Work(H.FileReply(up)) && h'.times == h.times
      case FileReply(_) => h'.pc.AwaitHeader? && h'.times == h.times
      case Acknowledge(job, code) =>
        if code == CRC_SUCCESS then h'.pc == H.Work(H.Save(job)) && h'.times == h.times
        else h'.times == h.times + 1
             && h'.pc == if code == CRC_RESENDING then H.AwaitHeader(H.File) else H.Work(H.FinalAck)
      case Save(job) => h'.pc == H.Work(H.MarkVerified(job)) && h'.times == h.times
      case MarkVerified(job) => h'.pc == H.Work(H.VerifiedSeen(job)) && h'.times == h.times
      case VerifiedSeen(_) => h'.pc == H.Stopped(true) && h'.times == h.times + 1
      case FinalAck => h'.pc == H.Stopped(false) && h'.times == h.times
      case _ => h'.times == h.times && Opens(h'.pc))
    case Stopped(_) => false
  }

  lemma TaskTurns(c: Suite, n: nat, h: H.Thread, inp: Bytes, sh: Shared, ch: H.Choice)
    requires h.pc.Work? && ch.sent && (h.pc.task.FileInsert? || h.pc.task.Save? ==> ch.ok)
    requires h.pc.task.FileReply? ==> DecryptData(c, h.key, h.pc.task.up.cipher).Some?
    ensures Turned(h, H.TaskStep(c, n, h, inp, sh, ch, h.pc.task).h)
  {
    match h.pc.task {
      case FileReply(_) =>
      case Acknowledge(_, _) =>
      case KeyReply =>
      case _ =>
    }
  }

  lemma ReceiveTurns(n: nat, h: H.Thread, inp: Bytes, closed: bool, sh: Shared, ch: H.Choice)
    requires !h.pc.Work? && H.CanStep(h, inp, closed, ch)
    requires h.pc.AwaitPayload? && h.pc.stage.File? && h.pc.header.code == ENCRYPTED_FILE ==>
             |h.pc.acc| >= h.pc.header.size ==> FileSize(h.pc.acc).Some?
    requires h.pc.AwaitPayload? && |h.pc.acc| < h.pc.header.size ==> inp != []
    ensures Turned(h, H.ReceiveStep(n, h, inp, sh, ch.k).h)
  {
  }

  /** A step of the handler that counts and moves as `Turned` says, and reads the request that was sent. */
  ghost predicate HandlerTurn(c: Suite, s: Session, s': Session) {
    && Phase(c, s) && Phase(c, s') && s'.cl == s.cl && Turned(s.h, s'.h)
    && (s.h.pc.AwaitPayload? && s.h.pc.header.whole ==>
          |s.h.got| < |s.cl.sent| && s.h.pc.header.code == s.cl.sent[|s.h.got|].code)
    && (s.h.pc.AwaitPayload? && !s.h.pc.header.whole ==> s.h.pc.header.code == NO_REQUEST)
  }

  lemma EarlyLedger(c: Suite, s: Session, s': Session, j: nat)
    requires HandlerTurn(c, s, s') && Ledger(s, j) && (BeforeKey(s.cl.pc) || s.cl.pc == Cl.Done(false))
    ensures Ledger(s', j)
  {
  }

  lemma UploadLedger(c: Suite, s: Session, s': Session, j: nat)
    requires HandlerTurn(c, s, s') && Ledger(s, j) && (s.cl.pc.Attempt? || s.cl.pc.WaitCrc?)
    ensures Ledger(s', j)
  {
  }

  lemma SuccessLedger(c: Suite, s: Session, s': Session, j: nat)
    requires HandlerTurn(c, s, s') && Ledger(s, j) && (s.cl.pc.WaitSuccess? || s.cl.pc == Cl.Done(true))
    ensures Ledger(s', j)
  {
  }

  lemma FailureLedger(c: Suite, s: Session, s': Session, j: nat)
    requires HandlerTurn(c, s, s') && Ledger(s, j) && (s.cl.pc.WaitResending? || s.cl.pc.WaitFinished?)
    ensures Ledger(s', j)
  {
  }

  lemma HandlerLedger(c: Suite, s: Session, s': Session, j: nat)
    requires HandlerTurn(c, s, s') && Ledger(s, j)
    ensures Ledger(s', j)
  {
    match s.cl.pc {
      case Attempt(_) => UploadLedger(c, s, s', j);
      case WaitCrc(_) => UploadLedger(c, s, s', j);
      case WaitSuccess(_) => SuccessLedger(c, s, s', j);
      case WaitResending(_) => FailureLedger(c, s, s', j);
      case WaitFinished => FailureLedger(c, s, s', j);
      case Done(true) => SuccessLedger(c, s, s', j);
      case _ => EarlyLedger(c, s, s', j);
    }
  }

  lemma ClientMoveLedger(c: Suite, s: Session, ch: Cl.Choice, j: nat) returns (j': nat)
    requires Lawful(c) && Inv(c, s) && ClientMoves.Can(s, ch) && Ledger(s, j)
    ensures Ledger(ClientMoves.After(c, s, ch), j')
    ensures !s.cl.pc.WaitResending? && j == 0 ==> j' == 0
  {
    ClientMoves.ClientMoveKeeps(c, s, ch);
    Cl.StepMoves(c, s.cl, s.s2c, HandlerClosed(s), ch);
    MovesCounted(s.cl, ClientMoves.After(c, s, ch).cl);
    j' := Refused(s, ClientMoves.After(c, s, ch), j);
    ClientLedger(c, s, ClientMoves.After(c, s, ch), j);
  }

  lemma UploadParses(c: Suite, s: Session)
    requires RequestsAligned(s) && Cl.Usable(c, s.cl) && Phase(c, s) && s.h.pc.AwaitPayload? && s.h.pc.stage.File?
    requires |s.h.pc.acc| >= s.h.pc.header.size && s.h.pc.header.code == ENCRYPTED_FILE
    ensures FileSize(s.h.pc.acc).Some?
  {
    PayloadComplete(s);
    FilePayloadRoundTrip(s.cl.id, s.cl.file, ClientEncrypt(c, s.h.key, s.cl.data));
  }

  lemma WorkTurns(c: Suite, n: nat, s: Session, sh: Shared, ch: H.Choice)
    requires Lawful(c) && Cl.Usable(c, s.cl) && Phase(c, s) && HandlerMoves.Can(s, ch) && NoFault(s, HandlerMove(ch))
    requires s.h.pc.Work?
    ensures Turned(s.h, HandlerMoves.After(c, n, s, sh, ch).h)
  {
    if s.h.pc.task.FileReply? {
      CipherRoundTrip(c, s.h.key, s.cl.data, s.h.pc.task.up.cipher);
    }
    TaskTurns(c, n, s.h, s.c2s, sh, ch);
  }

  lemma ReadTurns(c: Suite, n: nat, s: Session, sh: Shared, ch: H.Choice)
    requires Inv(c, s) && HandlerMoves.Can(s, ch) && !s.h.pc.Work?
    ensures Turned(s.h, HandlerMoves.After(c, n, s, sh, ch).h)
  {
    if s.h.pc.AwaitPayload? {
      if |s.h.pc.acc| < s.h.pc.header.size {
        PayloadNotAtEnd(s);
      } else if s.h.pc.stage.File? && s.h.pc.header.code == ENCRYPTED_FILE {
        UploadParses(c, s);
      }
    }
    ReceiveTurns(n, s.h, s.c2s, ClientClosed(s), sh, ch);
  }

  lemma HandlerTurns(c: Suite, n: nat, s: Session, sh: Shared, ch: H.Choice)
    requires Lawful(c) && Inv(c, s) && HandlerMoves.Can(s, ch) && NoFault(s, HandlerMove(ch))
    ensures Turned(s.h, HandlerMoves.After(c, n, s, sh, ch).h)
  {
    if s.h.pc.Work? {
      WorkTurns(c, n, s, sh, ch);
    } else {
      ReadTurns(c, n, s, sh, ch);
    }
  }

  lemma PayloadCode(s: Session)
    requires RequestsAligned(s) && s.h.pc.AwaitPayload?
    ensures s.h.pc.header.whole ==> |s.h.got| < |s.cl.sent| && s.h.pc.header.code == s.cl.sent[|s.h.got|].code
    ensures !s.h.pc.header.whole ==> s.h.pc.header.code == NO_REQUEST
  {
  }

  lemma HandlerTurned(c: Suite, n: nat, s: Session, sh: Shared, ch: H.Choice)
    requires Lawful(c) && Inv(c, s) && HandlerMoves.Can(s, ch) && NoFault(s, HandlerMove(ch))
    ensures HandlerTurn(c, s, HandlerMoves.After(c, n, s, sh, ch))
  {
    HandlerMoves.HandlerMoveKeeps(c, n, s, sh, ch);
    HandlerTurns(c, n, s, sh, ch);
    if s.h.pc.AwaitPayload? {
      PayloadCode(s);
    }
  }

  lemma HandlerMoveLedger(c: Suite, n: nat, s: Session, sh: Shared, ch: H.Choice, j: nat)
    requires Lawful(c) && Inv(c, s) && HandlerMoves.Can(s, ch) && NoFault(s, HandlerMove(ch)) && Ledger(s, j)
    ensures Ledger(HandlerMoves.After(c, n, s, sh, ch), j)
  {
    HandlerTurned(c, n, s, sh, ch);
    HandlerLedger(c, s, HandlerMoves.After(c, n, s, sh, ch), j);
  }

  /** Every move of the run is free of faults. */
  ghost predicate Faultless(c: Suite, n: nat, s: Session, ticks: seq<Tick>)
    requires Cl.Usable(c, s.cl)
  {
    forall i :: 0 <= i < |ticks| ==> NoFault(Exec(c, n, s, ticks[..i]), ticks[i].m)
  }

  lemma {:induction false} ExecLedger(c: Suite, n: nat, s: Session, ticks: seq<Tick>) returns (j: nat)
    requires Lawful(c) && Start(c, s) && Faultless(c, n, s, ticks)
    ensures Ledger(Exec(c, n, s, ticks), j)
  {
    if ticks == [] {
      j := 0;
    } else {
      var front, t := ticks[..|ticks| - 1], ticks[|ticks| - 1];
      assert forall i :: 0 <= i < |front| ==> front[..i] == ticks[..i];
      j := ExecLedger(c, n, s, front);
      var b := Exec(c, n, s, front);
      ExecInv(c, n, s, front);
      if Allowed(b, t.m) {
        if t.m.ClientMove? {
          j := ClientMoveLedger(c, b, t.m.cc, j);
        } else {
          HandlerMoveLedger(c, n, b, t.sh, t.m.hc, j);
        }
      }
    }
  }

  /**
   * A finished run without faults. Success after `j` refused attempts: exactly `j` rounds of file and
   * RESENDING, then one file and one SUCCESS, and the handler's loop turned once per file. Failure in
   * the file loop: `j` such rounds and exactly one FINISHED, and one turn more than files. Otherwise the
   * client stopped before it sent its key.
   */
  lemma RetryAccounting(c: Suite, n: nat, s0: Session, ticks: seq<Tick>) returns (j: nat)
    requires Lawful(c) && Start(c, s0) && Faultless(c, n, s0, ticks) && Finished(Exec(c, n, s0, ticks))
    ensures var s := Exec(c, n, s0, ticks);
            var codes := Codes(s.cl.sent);
            if s.cl.pc == Cl.Done(true) then
              && j < Cl.MAX_RETRIES && s.h.pc == H.Stopped(true) && s.h.times == j + 1
              && codes == Opening(s.cl) + Rounds(j) + [ENCRYPTED_FILE, CRC_SUCCESS]
            else
              && s.h.pc == H.Stopped(false)
              && ((codes == Opening(s.cl) + Rounds(j) + [CRC_FINISHED] && j <= Cl.MAX_RETRIES && s.h.times == j + 1)
                  || (PUBLIC_KEY !in codes && s.h.times == 0))
  {
    j := ExecLedger(c, n, s0, ticks);
    ExecInv(c, n, s0, ticks);
  }
}
