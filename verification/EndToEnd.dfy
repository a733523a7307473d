/** A session on its own, over a file that does not change and with no fault: from the file to the disk. */
module EndToEnd {
  import opened ByteStrings
  import opened Cipher
  import opened Wire
  import opened Tables
  import opened Session
  import opened Protocol
  import opened Accounting
  import Cl = Client
  import H = Handler
  import ClientMoves
  import HandlerMoves

  /** The run of the only session, carrying the shared state along; a move that is not allowed changes nothing. */
  function Solo(c: Suite, s: Session, sh: Shared, ms: seq<Move>): (r: (Session, Shared))
    requires Cl.Usable(c, s.cl)
    ensures Cl.Usable(c, r.0.cl)
  {
    if ms == [] then (s, sh) else
      var (b, bsh) := Solo(c, s, sh, ms[..|ms| - 1]);
      var m := ms[|ms| - 1];
      if !Allowed(b, m) then (b, bsh) else
        NextUsable(c, 0, b, bsh, m);
        Next(c, 0, b, bsh, m)
  }

  predicate NameFree(sh: Shared, name: Bytes) {
    forall r :: r in sh.clients ==> r.name != name
  }

  /** Every read finds `data`, me.info can be written, nothing fails, and a new UUID is new. */
  predicate Benign(s: Session, sh: Shared, data: Bytes, m: Move) {
    match m
    case ClientMove(cc) => cc.content == Some(data) && cc.infoWritten
    case HandlerMove(hc) =>
      && hc.ok && hc.sent
      && (s.h.pc.Work? && s.h.pc.task.RegInsert? ==> forall r :: r in sh.clients ==> r.id != BytesLe(hc.uuid))
  }

  ghost predicate BenignRun(c: Suite, s: Session, sh: Shared, data: Bytes, ms: seq<Move>)
    requires Cl.Usable(c, s.cl)
  {
    forall i :: 0 <= i < |ms| ==>
      Benign(Solo(c, s, sh, ms[..i]).0, Solo(c, s, sh, ms[..i]).1, data, ms[i])
  }

  /** Until its insert, a client that registers finds its name free. */
  predicate Unclaimed(s: Session, sh: Shared) {
    && !s.cl.resume
    && (s.cl.pc.Begin?
        || (s.cl.pc.WaitRegistration?
            && (|| s.h.pc == H.AwaitHeader(H.First)
                || (s.h.pc.AwaitPayload? && s.h.pc.stage.Register?)
                || (s.h.pc.Work? && s.h.pc.task.RegInsert?))))
    ==> NameFree(sh, s.cl.name)
  }

  /** Every position is on the straight way to success in the first attempt. */
  predicate Straight(s: Session, data: Bytes) {
    && Willing(s.h) && s.h.pc != H.Work(H.RegReply(None))
    && s.cl.name != []
    && match s.cl.pc
       case Attempt(n) => n == 0
       case WaitCrc(i) => i == 0 && s.cl.data == data
       case WaitSuccess(i) => i == 0 && s.cl.data == data
       case WaitResending(_) => false
       case WaitFinished => false
       case Done(ok) => ok && s.cl.data == data
       case _ => true
  }

  predicate RowsFor(sh: Shared, name: Bytes, client: Bytes, verified: bool) {
    && (exists r :: r in sh.files && r.client == client && r.name == name)
    && (verified ==> forall r :: r in sh.files && r.client == client && r.name == name ==> r.verified)
  }

  /** The shared state, as far as the handler has come. */
  predicate Stored(s: Session, sh: Shared, data: Bytes) {
    var name, client := NameOfField(s.cl.file), BytesLe(s.cl.id);
    match s.h.pc
    case AwaitHeader(stage) => stage.Verdict? ==> RowsFor(sh, name, client, false)
    case AwaitPayload(stage, _, _) => stage.Verdict? ==> RowsFor(sh, name, client, false)
    case Stopped(ok) =>
      ok ==> RowsFor(sh, name, client, true) && PathOf(name) in sh.disk && sh.disk[PathOf(name)] == data
    case Work(t) =>
      && (t.FileSeen? || t.FileReply? || t.Acknowledge? || t.Save? ==> RowsFor(sh, name, client, false))
      && (t.MarkVerified? || t.VerifiedSeen? ==>
            RowsFor(sh, name, client, t.VerifiedSeen?) && PathOf(name) in sh.disk && sh.disk[PathOf(name)] == data)
  }

  lemma ClientStraight(c: Suite, s: Session, sh: Shared, data: Bytes, cc: Cl.Choice)
    requires Lawful(c) && Inv(c, s) && ClientMoves.Can(s, cc) && Straight(s, data)
    requires Benign(s, sh, data, ClientMove(cc)) && 0 < |data| <= MAX_PLAIN
    ensures Straight(ClientMoves.After(c, s, cc), data)
  {
    if Cl.Wanted(s.cl.pc) == 0 {
      ActStraight(c, s, sh, data, cc);
    } else {
      ReceiveStraight(c, s, sh, data, cc);
    }
  }

  lemma ActStraight(c: Suite, s: Session, sh: Shared, data: Bytes, cc: Cl.Choice)
    requires Cl.Usable(c, s.cl) && Phase(c, s) && ClientMoves.Can(s, cc) && Straight(s, data)
    requires Benign(s, sh, data, ClientMove(cc)) && 0 < |data| <= MAX_PLAIN && Cl.Wanted(s.cl.pc) == 0
    ensures Straight(ClientMoves.After(c, s, cc), data)
  {
  }

  lemma ReceiveStraight(c: Suite, s: Session, sh: Shared, data: Bytes, cc: Cl.Choice)
    requires Lawful(c) && Inv(c, s) && ClientMoves.Can(s, cc) && Straight(s, data) && Cl.Wanted(s.cl.pc) > 0
    requires Benign(s, sh, data, ClientMove(cc)) && 0 < |data| <= MAX_PLAIN
    ensures Straight(ClientMoves.After(c, s, cc), data)
  {
    match s.cl.pc {
      case WaitRegistration => RegistrationStraight(c, s, sh, data, cc);
      case WaitKey => KeyStraight(c, s, data, cc);
      case WaitCrc(_) => ClientMoves.CrcVerdict(c, s, cc);
      case WaitSuccess(_) =>
        assert Confirming(c, s);
        ClientMoves.SuccessRead(c, s, cc);
    }
  }

  lemma KeyStraight(c: Suite, s: Session, data: Bytes, cc: Cl.Choice)
    requires Lawful(c) && Inv(c, s) && ClientMoves.Can(s, cc) && s.cl.pc.WaitKey?
    ensures ClientMoves.After(c, s, cc).cl.pc == Cl.Attempt(0)
    ensures ClientMoves.After(c, s, cc).cl.name == s.cl.name && ClientMoves.After(c, s, cc).h == s.h
  {
    ClientMoves.ClientMoveKeeps(c, s, cc);
    Cl.StepMoves(c, s.cl, s.s2c, HandlerClosed(s), cc);
    Cl.StepKeeps(c, s.cl, s.s2c, HandlerClosed(s), cc);
    MovesCounted(s.cl, ClientMoves.After(c, s, cc).cl);
    KeyAccepted(c, s, ClientMoves.After(c, s, cc));
  }

  lemma RegistrationStraight(c: Suite, s: Session, sh: Shared, data: Bytes, cc: Cl.Choice)
    requires Inv(c, s) && ClientMoves.Can(s, cc) && Straight(s, data) && s.cl.pc.WaitRegistration? && cc.infoWritten
    ensures ClientMoves.After(c, s, cc).cl.pc == Cl.SendKey
  {
    var n := Cl.Wanted(s.cl.pc);
    assert |s.h.replies| > |s.cl.seen| by {
      if |s.h.replies| == |s.cl.seen| { ClientMoves.ReceiveNothing(s, n); }
    }
    ClientMoves.ReceiveWhole(s, n);
  }

  /** What the straight way needs of a registering handler: its insert was accepted. */
  predicate Accepted(s: Session, s': Session) {
    && (s.cl.pc.WaitRegistration? && !s.h.pc.AwaitHeader? ==>
          Willing(s'.h) && s'.h.pc != H.Work(H.RegReply(None)))
    && (!s.h.pc.Work? ==> s'.h.replies == s.h.replies)
  }

  lemma EarlyStraight(c: Suite, s: Session, s': Session, data: Bytes)
    requires HandlerTurn(c, s, s') && Straight(s, data) && Accepted(s, s') && BeforeKey(s.cl.pc)
    ensures Straight(s', data)
  {
  }

  lemma UploadStraight(c: Suite, s: Session, s': Session, data: Bytes)
    requires HandlerTurn(c, s, s') && Straight(s, data) && (s.cl.pc.Attempt? || s.cl.pc.WaitCrc?)
    ensures Straight(s', data)
  {
  }

  lemma VerdictStraight(c: Suite, s: Session, s': Session, data: Bytes)
    requires HandlerTurn(c, s, s') && Straight(s, data) && (s.cl.pc.WaitSuccess? || s.cl.pc.Done?)
    ensures Straight(s', data)
  {
  }

  lemma InsertAccepted(c: Suite, s: Session, sh: Shared, data: Bytes, hc: H.Choice)
    requires Cl.Usable(c, s.cl) && Phase(c, s) && HandlerMoves.Can(s, hc) && Straight(s, data)
    requires Benign(s, sh, data, HandlerMove(hc))
    requires s.h.pc.Work? && s.h.pc.task.RegInsert? ==> NameFree(sh, s.cl.name)
    ensures Accepted(s, HandlerMoves.After(c, 0, s, sh, hc))
  {
    if s.h.pc.Work? && s.h.pc.task.RegInsert? {
      assert !Taken(sh.clients, BytesLe(hc.uuid), s.cl.name);
    }
  }

  lemma HandlerStraight(c: Suite, s: Session, sh: Shared, data: Bytes, hc: H.Choice)
    requires Lawful(c) && Inv(c, s) && HandlerMoves.Can(s, hc) && Straight(s, data)
    requires Benign(s, sh, data, HandlerMove(hc))
    requires s.h.pc.Work? && s.h.pc.task.RegInsert? ==> NameFree(sh, s.cl.name)
    ensures Straight(HandlerMoves.After(c, 0, s, sh, hc), data)
  {
    var s' := HandlerMoves.After(c, 0, s, sh, hc);
    HandlerTurned(c, 0, s, sh, hc);
    InsertAccepted(c, s, sh, data, hc);
    if BeforeKey(s.cl.pc) {
      EarlyStraight(c, s, s', data);
    } else if s.cl.pc.Attempt? || s.cl.pc.WaitCrc? {
      UploadStraight(c, s, s', data);
    } else {
      VerdictStraight(c, s, s', data);
    }
  }

  // ----- The shared state along the way -----

  lemma EarlyStored(c: Suite, s: Session, s': Session, sh: Shared, data: Bytes)
    requires Phase(c, s) && (s.cl.pc.Begin? || s.cl.pc.WaitRegistration?) && s'.h == s.h
    ensures Stored(s', sh, data)
  {
  }

  lemma ClientStored(c: Suite, s: Session, sh: Shared, data: Bytes, cc: Cl.Choice)
    requires Cl.Usable(c, s.cl) && Phase(c, s) && ClientMoves.Can(s, cc) && Stored(s, sh, data)
    ensures Stored(ClientMoves.After(c, s, cc), sh, data)
  {
    if s.cl.pc.Begin? || s.cl.pc.WaitRegistration? {
      EarlyStored(c, s, ClientMoves.After(c, s, cc), sh, data);
    } else {
      Cl.StepKeeps(c, s.cl, s.s2c, HandlerClosed(s), cc);
    }
  }

  /** Only three tasks touch the files table or the disk. */
  predicate TouchesFiles(pc: H.Pc) {
    pc.Work? && (pc.task.FileInsert? || pc.task.Save? || pc.task.MarkVerified?)
  }

  lemma FilesKept(c: Suite, n: nat, h: H.Thread, inp: Bytes, closed: bool, sh: Shared, ch: H.Choice)
    requires H.CanStep(h, inp, closed, ch) && !TouchesFiles(h.pc)
    ensures var sh' := H.Step(c, n, h, inp, closed, sh, ch).sh;
            sh'.files == sh.files && sh'.disk == sh.disk
  {
  }

  lemma WorkKeptStored(c: Suite, s: Session, s': Session, sh: Shared, sh': Shared, data: Bytes)
    requires s'.cl == s.cl && Turned(s.h, s'.h) && Stored(s, sh, data) && !TouchesFiles(s.h.pc) && Straight(s, data)
    requires sh'.files == sh.files && sh'.disk == sh.disk
    requires s.h.pc.Work? && s.h.pc.task.FileReply? ==> s'.h.pc.stage.Verdict?
    requires s.h.pc.Work?
    ensures Stored(s', sh', data)
  {
  }

  lemma ReceiveKeptStored(c: Suite, s: Session, s': Session, sh: Shared, sh': Shared, data: Bytes)
    requires s'.cl == s.cl && Turned(s.h, s'.h) && Stored(s, sh, data) && Straight(s, data)
    requires sh'.files == sh.files && sh'.disk == sh.disk
    requires s.h.pc.AwaitHeader? || (s.h.pc.AwaitPayload? && !s.h.pc.stage.File?)
    ensures Stored(s', sh', data)
  {
  }

  lemma UploadKeptStored(c: Suite, s: Session, s': Session, sh: Shared, sh': Shared, data: Bytes)
    requires HandlerTurn(c, s, s') && Stored(s, sh, data) && Straight(s, data)
    requires sh'.files == sh.files && sh'.disk == sh.disk
    requires s.h.pc.AwaitPayload? && s.h.pc.stage.File?
    ensures Stored(s', sh', data)
  {
  }

  lemma KeptStored(c: Suite, s: Session, s': Session, sh: Shared, sh': Shared, data: Bytes)
    requires HandlerTurn(c, s, s') && Stored(s, sh, data) && !TouchesFiles(s.h.pc) && Straight(s, data)
    requires sh'.files == sh.files && sh'.disk == sh.disk
    requires s.h.pc.Work? && s.h.pc.task.FileReply? ==> s'.h.pc.stage.Verdict?
    ensures Stored(s', sh', data)
  {
    if s.h.pc.Work? {
      WorkKeptStored(c, s, s', sh, sh', data);
    } else if s.h.pc.AwaitPayload? && s.h.pc.stage.File? {
      UploadKeptStored(c, s, s', sh, sh', data);
    } else {
      ReceiveKeptStored(c, s, s', sh, sh', data);
    }
  }

  lemma RowAdded(sh: Shared, sh': Shared, row: FileRow)
    requires sh'.files == sh.files + [row]
    ensures RowsFor(sh', row.name, row.client, false)
  {
    assert row in sh'.files;
  }

  lemma FileInsertStored(c: Suite, s: Session, sh: Shared, data: Bytes, hc: H.Choice)
    requires Cl.Usable(c, s.cl) && Phase(c, s) && HandlerMoves.Can(s, hc) && Straight(s, data)
    requires s.h.pc.Work? && s.h.pc.task.FileInsert? && hc.ok
    ensures Stored(HandlerMoves.After(c, 0, s, sh, hc), Next(c, 0, s, sh, HandlerMove(hc)).1, data)
  {
    var up := s.h.pc.task.up;
    assert s.cl.pc.WaitCrc? && Uploading(c, s);
    RowAdded(sh, Next(c, 0, s, sh, HandlerMove(hc)).1, FileRow(up.name, PathOf(up.name), BytesLe(s.h.id), false));
  }

  lemma SaveStored(c: Suite, s: Session, sh: Shared, data: Bytes, hc: H.Choice)
    requires Cl.Usable(c, s.cl) && Phase(c, s) && HandlerMoves.Can(s, hc) && Straight(s, data) && Stored(s, sh, data)
    requires s.h.pc.Work? && s.h.pc.task.Save? && hc.ok
    ensures Stored(HandlerMoves.After(c, 0, s, sh, hc), Next(c, 0, s, sh, HandlerMove(hc)).1, data)
  {
    JobIsClients(c, s, data);
  }

  lemma RowsMarked(sh: Shared, sh': Shared, name: Bytes, client: Bytes)
    requires RowsFor(sh, name, client, false) && sh'.files == SetVerified(sh.files, name, client)
    ensures RowsFor(sh', name, client, true)
  {
    var r :| r in sh.files && r.client == client && r.name == name;
    var i :| 0 <= i < |sh.files| && sh.files[i] == r;
    assert sh'.files[i] == r.(verified := true);
    assert sh'.files[i] in sh'.files;
  }

  lemma JobIsClients(c: Suite, s: Session, data: Bytes)
    requires Phase(c, s) && Straight(s, data) && s.h.pc.Work? && (s.h.pc.task.Save? || s.h.pc.task.MarkVerified?)
    ensures s.h.id == s.cl.id && s.h.pc.task.job.name == NameOfField(s.cl.file) && s.h.pc.task.job.data == data
  {
    assert Confirming(c, s) || Succeeded(c, s);
  }

  lemma MarkStored(c: Suite, s: Session, sh: Shared, data: Bytes, hc: H.Choice)
    requires Cl.Usable(c, s.cl) && Phase(c, s) && HandlerMoves.Can(s, hc) && Straight(s, data) && Stored(s, sh, data)
    requires s.h.pc.Work? && s.h.pc.task.MarkVerified?
    ensures Stored(HandlerMoves.After(c, 0, s, sh, hc), Next(c, 0, s, sh, HandlerMove(hc)).1, data)
  {
    JobIsClients(c, s, data);
    RowsMarked(sh, Next(c, 0, s, sh, HandlerMove(hc)).1, NameOfField(s.cl.file), BytesLe(s.cl.id));
  }

  lemma TouchStored(c: Suite, s: Session, sh: Shared, data: Bytes, hc: H.Choice)
    requires Cl.Usable(c, s.cl) && Phase(c, s) && HandlerMoves.Can(s, hc) && Straight(s, data) && Stored(s, sh, data)
    requires TouchesFiles(s.h.pc) && hc.ok
    ensures Stored(HandlerMoves.After(c, 0, s, sh, hc), Next(c, 0, s, sh, HandlerMove(hc)).1, data)
  {
    match s.h.pc.task {
      case FileInsert(_) => FileInsertStored(c, s, sh, data, hc);
      case Save(_) => SaveStored(c, s, sh, data, hc);
      case MarkVerified(_) => MarkStored(c, s, sh, data, hc);
    }
  }

  lemma CrcAwaitsVerdict(c: Suite, s: Session, sh: Shared, hc: H.Choice)
    requires Lawful(c) && Cl.Usable(c, s.cl) && Phase(c, s) && hc.sent && s.h.pc.Work? && s.h.pc.task.FileReply?
    ensures var pc := H.FileTask(c, 0, s.h, s.c2s, sh, hc, s.h.pc.task).h.pc; pc.AwaitHeader? && pc.stage.Verdict?
  {
    assert s.cl.pc.WaitCrc? && Uploading(c, s);
    CipherRoundTrip(c, s.h.key, s.cl.data, s.h.pc.task.up.cipher);
  }

  lemma UntouchedStored(c: Suite, s: Session, sh: Shared, data: Bytes, hc: H.Choice)
    requires Lawful(c) && Inv(c, s) && HandlerMoves.Can(s, hc) && Straight(s, data) && Stored(s, sh, data)
    requires Benign(s, sh, data, HandlerMove(hc)) && !TouchesFiles(s.h.pc)
    ensures Stored(HandlerMoves.After(c, 0, s, sh, hc), Next(c, 0, s, sh, HandlerMove(hc)).1, data)
  {
    HandlerTurned(c, 0, s, sh, hc);
    FilesKept(c, 0, s.h, s.c2s, ClientClosed(s), sh, hc);
    if s.h.pc.Work? && s.h.pc.task.FileReply? {
      CrcAwaitsVerdict(c, s, sh, hc);
    }
    KeptStored(c, s, HandlerMoves.After(c, 0, s, sh, hc), sh, Next(c, 0, s, sh, HandlerMove(hc)).1, data);
  }

  lemma HandlerStored(c: Suite, s: Session, sh: Shared, data: Bytes, hc: H.Choice)
    requires Lawful(c) && Inv(c, s) && HandlerMoves.Can(s, hc) && Straight(s, data) && Stored(s, sh, data)
    requires Benign(s, sh, data, HandlerMove(hc))
    ensures Stored(HandlerMoves.After(c, 0, s, sh, hc), Next(c, 0, s, sh, HandlerMove(hc)).1, data)
  {
    if TouchesFiles(s.h.pc) {
      TouchStored(c, s, sh, data, hc);
    } else {
      UntouchedStored(c, s, sh, data, hc);
    }
  }

  lemma ClientUnclaimed(c: Suite, s: Session, sh: Shared, cc: Cl.Choice)
    requires Inv(c, s) && ClientMoves.Can(s, cc) && Unclaimed(s, sh)
    ensures Unclaimed(ClientMoves.After(c, s, cc), sh)
  {
    if Cl.Wanted(s.cl.pc) > 0 {
      Cl.ReceiveMoves(c, s.cl, s.s2c, cc);
    }
  }

  lemma HandlerUnclaimed(c: Suite, s: Session, sh: Shared, hc: H.Choice)
    requires Cl.Usable(c, s.cl) && Phase(c, s) && HandlerMoves.Can(s, hc) && Unclaimed(s, sh)
    ensures Unclaimed(HandlerMoves.After(c, 0, s, sh, hc), Next(c, 0, s, sh, HandlerMove(hc)).1)
  {
  }

  ghost predicate Going(c: Suite, s: Session, sh: Shared, data: Bytes) {
    Inv(c, s) && Straight(s, data) && Ledger(s, 0) && Provided(s, sh, data)
  }

  predicate Provided(s: Session, sh: Shared, data: Bytes) {
    Stored(s, sh, data) && Unclaimed(s, sh)
  }

  lemma ClientGoesOn(c: Suite, s: Session, sh: Shared, data: Bytes, cc: Cl.Choice)
    requires Lawful(c) && Going(c, s, sh, data) && ClientMoves.Can(s, cc)
    requires Benign(s, sh, data, ClientMove(cc)) && 0 < |data| <= MAX_PLAIN
    ensures Going(c, ClientMoves.After(c, s, cc), sh, data)
  {
    ClientMoves.ClientMoveKeeps(c, s, cc);
    ClientStraight(c, s, sh, data, cc);
    ClientStored(c, s, sh, data, cc);
    ClientUnclaimed(c, s, sh, cc);
    var j := ClientMoveLedger(c, s, cc, 0);
  }

  lemma HandlerProvides(c: Suite, s: Session, sh: Shared, data: Bytes, hc: H.Choice)
    requires Lawful(c) && Inv(c, s) && Straight(s, data) && Provided(s, sh, data) && HandlerMoves.Can(s, hc)
    requires Benign(s, sh, data, HandlerMove(hc))
    ensures Provided(HandlerMoves.After(c, 0, s, sh, hc), Next(c, 0, s, sh, HandlerMove(hc)).1, data)
  {
    HandlerStored(c, s, sh, data, hc);
    HandlerUnclaimed(c, s, sh, hc);
  }

  lemma InsertFindsFree(c: Suite, s: Session, sh: Shared)
    requires Phase(c, s) && Ledger(s, 0) && Unclaimed(s, sh) && s.h.pc.Work? && s.h.pc.task.RegInsert?
    ensures NameFree(sh, s.cl.name)
  {
  }

  lemma HandlerGoesOn(c: Suite, s: Session, sh: Shared, data: Bytes, hc: H.Choice)
    requires Lawful(c) && Going(c, s, sh, data) && HandlerMoves.Can(s, hc) && Benign(s, sh, data, HandlerMove(hc))
    ensures Going(c, HandlerMoves.After(c, 0, s, sh, hc), Next(c, 0, s, sh, HandlerMove(hc)).1, data)
  {
    if s.h.pc.Work? && s.h.pc.task.RegInsert? {
      InsertFindsFree(c, s, sh);
    }
    HandlerMoves.HandlerMoveKeeps(c, 0, s, sh, hc);
    HandlerStraight(c, s, sh, data, hc);
    HandlerMoveLedger(c, 0, s, sh, hc, 0);
    HandlerProvides(c, s, sh, data, hc);
  }

  lemma {:induction false} SoloGoing(c: Suite, s: Session, sh: Shared, data: Bytes, ms: seq<Move>)
    requires Lawful(c) && Start(c, s) && s.cl.name != [] && 0 < |data| <= MAX_PLAIN
    requires !s.cl.resume ==> NameFree(sh, s.cl.name)
    requires BenignRun(c, s, sh, data, ms)
    ensures Going(c, Solo(c, s, sh, ms).0, Solo(c, s, sh, ms).1, data)
  {
    if ms == [] {
      StartInv(c, s);
    } else {
      var front, m := ms[..|ms| - 1], ms[|ms| - 1];
      assert forall i :: 0 <= i < |front| ==> front[..i] == ms[..i];
      SoloGoing(c, s, sh, data, front);
      var (b, bsh) := Solo(c, s, sh, front);
      if Allowed(b, m) {
        match m {
          case ClientMove(cc) => ClientGoesOn(c, b, bsh, data, cc);
          case HandlerMove(hc) => HandlerGoesOn(c, b, bsh, data, hc);
        }
      }
    }
  }

  /** The disk holds `data` under a name: below the root directory, or where an absolute name says. */
  predicate HoldsFile(disk: map<Bytes, Bytes>, name: Bytes, data: Bytes) {
    var path := if Absolute(name) then name else ROOT + [SLASH] + name;
    path in disk && disk[path] == data
  }

  /** The end of the straight way. */
  lemma StraightEnd(c: Suite, s: Session, sh: Shared, data: Bytes)
    requires Going(c, s, sh, data) && Finished(s) && NameOfField(s.cl.file) == s.cl.file
    ensures && s.cl.pc == Cl.Done(true) && s.h.pc == H.Stopped(true)
            && Codes(s.cl.sent) == Opening(s.cl) + [ENCRYPTED_FILE, CRC_SUCCESS]
            && HoldsFile(sh.disk, s.cl.file, data)
            && RowsFor(sh, s.cl.file, BytesLe(s.cl.id), true)
  {
    assert Opening(s.cl) + Rounds(0) == Opening(s.cl);
  }

  /**
   * A non-empty file that does not change reaches the disk: once both ends have finished, the client has
   * returned true on its first attempt, the handler has finished with success, the file stored under the
   * name is the client's file byte for byte, and every row of this client and name (there is one) is verified.
   * Until then neither end ever leaves the way to that success.
   */
  lemma FileArrives(c: Suite, s: Session, sh: Shared, data: Bytes, ms: seq<Move>)
    requires Lawful(c) && Start(c, s) && s.cl.name != [] && 0 < |data| <= MAX_PLAIN
    requires !s.cl.resume ==> NameFree(sh, s.cl.name)
    requires |s.cl.file| <= NAME_FIELD && (s.cl.file != [] ==> s.cl.file[|s.cl.file| - 1] != 0)
    requires BenignRun(c, s, sh, data, ms)
    ensures var (s', sh') := Solo(c, s, sh, ms);
            && Straight(s', data)
            && (Finished(s') ==>
                  && s'.cl.pc == Cl.Done(true) && s'.h.pc == H.Stopped(true)
                  && Codes(s'.cl.sent) == Opening(s'.cl) + [ENCRYPTED_FILE, CRC_SUCCESS]
                  && HoldsFile(sh'.disk, s'.cl.file, data)
                  && RowsFor(sh', s'.cl.file, BytesLe(s'.cl.id), true))
  {
    SoloGoing(c, s, sh, data, ms);
    SoloKeepsFile(c, s, sh, ms);
    NameFieldRoundTrip(s.cl.file);
    if Finished(Solo(c, s, sh, ms).0) {
      StraightEnd(c, Solo(c, s, sh, ms).0, Solo(c, s, sh, ms).1, data);
    }
  }

  lemma {:induction false} SoloKeepsFile(c: Suite, s: Session, sh: Shared, ms: seq<Move>)
    requires Cl.Usable(c, s.cl)
    ensures Solo(c, s, sh, ms).0.cl.file == s.cl.file
  {
    if ms != [] {
      SoloKeepsFile(c, s, sh, ms[..|ms| - 1]);
      var b, m := Solo(c, s, sh, ms[..|ms| - 1]).0, ms[|ms| - 1];
      if Allowed(b, m) && m.ClientMove? {
        Cl.StepKeeps(c, b.cl, b.s2c, HandlerClosed(b), m.cc);
      }
    }
  }

  /** Until its insert, the handler can draw this UUID. */
  predicate Undrawn(pc: H.Pc, sh: Shared, uuid: Block) {
    BeforeInsert(pc) ==> forall r :: r in sh.clients ==> r.id != BytesLe(uuid)
  }

  predicate BeforeInsert(pc: H.Pc) {
    match pc
    case AwaitHeader(stage) => stage.First? || stage.Register?
    case AwaitPayload(stage, _, _) => stage.Register?
    case Work(t) => t.RegInsert?
    case Stopped(_) => false
  }

  lemma ReceiveUndrawn(h: H.Thread, inp: Bytes, closed: bool, sh: Shared, ch: H.Choice, uuid: Block)
    requires !h.pc.Work? && H.CanStep(h, inp, closed, ch) && Undrawn(h.pc, sh, uuid)
    ensures var t := H.ReceiveStep(0, h, inp, sh, ch.k); Undrawn(t.h.pc, t.sh, uuid)
  {
  }

  lemma UndrawnKept(c: Suite, h: H.Thread, inp: Bytes, closed: bool, sh: Shared, ch: H.Choice, uuid: Block)
    requires H.CanStep(h, inp, closed, ch) && Undrawn(h.pc, sh, uuid)
    ensures var t := H.Step(c, 0, h, inp, closed, sh, ch); Undrawn(t.h.pc, t.sh, uuid)
  {
    if h.pc.Work? {
      NoInsertFollows(c, h, inp, sh, ch);
    } else {
      ReceiveUndrawn(h, inp, closed, sh, ch, uuid);
    }
  }

  lemma NoInsertFollows(c: Suite, h: H.Thread, inp: Bytes, sh: Shared, ch: H.Choice)
    requires h.pc.Work?
    ensures !BeforeInsert(H.TaskStep(c, 0, h, inp, sh, ch, h.pc.task).h.pc)
  {
    match h.pc.task {
      case KeyReply =>
      case FileReply(_) =>
      case Acknowledge(_, _) =>
      case _ =>
    }
  }

  /** On the way there is always a next step that keeps to it. */
  lemma NeverStuck(c: Suite, s: Session, sh: Shared, data: Bytes, uuid: Block) returns (m: Move)
    requires Lawful(c) && Going(c, s, sh, data) && !Finished(s) && 0 < |data| <= MAX_PLAIN
    requires Undrawn(s.h.pc, sh, uuid)
    ensures Allowed(s, m) && Benign(s, sh, data, m)
  {
    SomeMove(c, s);
    if Allowed(s, ClientMove(Cl.Choice(None, true))) {
      m := ClientMove(Cl.Choice(Some(data), true));
    } else {
      m := HandlerMove(Patient(s).(uuid := uuid));
    }
  }

  lemma SoloSnoc(c: Suite, s: Session, sh: Shared, data: Bytes, ms: seq<Move>, m: Move)
    requires Cl.Usable(c, s.cl) && BenignRun(c, s, sh, data, ms)
    requires var (b, bsh) := Solo(c, s, sh, ms); Allowed(b, m) && Benign(b, bsh, data, m)
    ensures BenignRun(c, s, sh, data, ms + [m])
    ensures var (b, bsh) := Solo(c, s, sh, ms); Solo(c, s, sh, ms + [m]) == Next(c, 0, b, bsh, m)
  {
    assert (ms + [m])[..|ms|] == ms;
    forall i | 0 <= i < |ms + [m]|
      ensures Benign(Solo(c, s, sh, (ms + [m])[..i]).0, Solo(c, s, sh, (ms + [m])[..i]).1, data, (ms + [m])[i])
    {
      if i < |ms| {
        assert (ms + [m])[..i] == ms[..i];
      }
    }
  }

  /** The next move of such a run that has not ended, with what it descends to. */
  lemma BenignMove(c: Suite, s: Session, sh: Shared, data: Bytes, uuid: Block, ms: seq<Move>) returns (m: Move)
    requires Lawful(c) && Start(c, s) && s.cl.name != [] && 0 < |data| <= MAX_PLAIN
    requires !s.cl.resume ==> NameFree(sh, s.cl.name)
    requires BenignRun(c, s, sh, data, ms)
    requires var (b, bsh) := Solo(c, s, sh, ms); !Finished(b) && Undrawn(b.h.pc, bsh, uuid)
    ensures BenignRun(c, s, sh, data, ms + [m])
    ensures var (b, bsh) := Solo(c, s, sh, ms);
            var (b', bsh') := Solo(c, s, sh, ms + [m]);
            Allowed(b, m) && (b', bsh') == Next(c, 0, b, bsh, m) && Undrawn(b'.h.pc, bsh', uuid) && Descends(b, b')
  {
    var (b, bsh) := Solo(c, s, sh, ms);
    SoloGoing(c, s, sh, data, ms);
    m := NeverStuck(c, b, bsh, data, uuid);
    SoloSnoc(c, s, sh, data, ms, m);
    MoveDescends(c, 0, b, bsh, m);
    if m.HandlerMove? {
      UndrawnKept(c, b.h, b.c2s, ClientClosed(b), bsh, m.hc, uuid);
    }
  }

  /** Every such run can be carried on to its end; as every move descends, it gets there however it is carried on. */
  lemma {:induction false} RunCompletes(c: Suite, s: Session, sh: Shared, data: Bytes, uuid: Block, ms: seq<Move>,
                                        b: Session)
    returns (all: seq<Move>)
    requires Lawful(c) && Start(c, s) && s.cl.name != [] && 0 < |data| <= MAX_PLAIN
    requires !s.cl.resume ==> NameFree(sh, s.cl.name)
    requires BenignRun(c, s, sh, data, ms) && b == Solo(c, s, sh, ms).0
    requires Undrawn(b.h.pc, Solo(c, s, sh, ms).1, uuid)
    ensures ms <= all && BenignRun(c, s, sh, data, all) && Finished(Solo(c, s, sh, all).0)
    decreases Height(b).0, Height(b).1, Height(b).2
  {
    if Finished(b) {
      all := ms;
    } else {
      var m := BenignMove(c, s, sh, data, uuid, ms);
      all := RunCompletes(c, s, sh, data, uuid, ms + [m], Solo(c, s, sh, ms + [m]).0);
    }
  }
}
