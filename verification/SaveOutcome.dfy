/**
 * The client returns true on an acknowledgement that the server sends before it saves. Here is exactly
 * when such a client's file was saved, and that it need not have been.
 */
module SaveOutcome {
  import opened ByteStrings
  import opened Cipher
  import opened Wire
  import opened Tables
  import opened Session
  import opened Protocol
  import opened World
  import opened EndToEnd
  import Cl = Client
  import H = Handler
  import ClientMoves
  import HandlerMoves
  import SW = ServerWorld
  import ST = ServerTheorems

  predicate AtSave(pc: H.Pc) {
    pc.Work? && pc.task.Save?
  }

  predicate PastSave(pc: H.Pc) {
    (pc.Work? && (pc.task.MarkVerified? || pc.task.VerifiedSeen?)) || pc == H.Stopped(true)
  }

  // ----- What a session shows of its save -----

  /** The client has its acknowledgement, or can read it, and the handler has given up since. */
  predicate Declined(s: Session) {
    && (s.h.pc == H.Work(H.FinalAck) || HandlerClosed(s))
    && (s.cl.pc == Cl.Done(true) || (s.cl.pc.WaitSuccess? && |s.h.replies| > |s.cl.seen|))
  }

  /** The results of the saves of this session's handler, read off the session alone. */
  function Outcome(s: Session): seq<bool> {
    if PastSave(s.h.pc) then [true] else if Declined(s) then [false] else []
  }

  lemma NoOutcome(c: Suite, s: Session)
    requires Cl.Usable(c, s.cl) && Phase(c, s) && !s.cl.pc.WaitSuccess? && s.cl.pc != Cl.Done(true)
    ensures Outcome(s) == [] && !AtSave(s.h.pc)
  {
  }

  lemma AwaitingSuccess(c: Suite, s: Session, cc: Cl.Choice)
    requires Inv(c, s) && ClientMoves.Can(s, cc) && s.cl.pc.WaitSuccess?
    ensures Outcome(ClientMoves.After(c, s, cc)) == Outcome(s)
  {
    if |s.h.replies| == |s.cl.seen| {
      ClientMoves.ReceiveNothing(s, 3);
    } else {
      ClientMoves.SuccessRead(c, s, cc);
    }
  }

  /** Sending a verdict comes before any outcome: a handler that has given up has nothing left to read. */
  lemma AwaitingCrc(c: Suite, s: Session, cc: Cl.Choice)
    requires Inv(c, s) && ClientMoves.Can(s, cc) && s.cl.pc.WaitCrc?
    ensures Outcome(ClientMoves.After(c, s, cc)) == Outcome(s)
  {
    var s' := ClientMoves.After(c, s, cc);
    NoOutcome(c, s);
    ClientMoves.CrcSends(c, s, cc);
    if HandlerClosed(s) {
      ClientMoves.CrcAbandoned(c, s, cc);
    } else {
      HandlerAwaits(c, s);
    }
  }

  lemma HandlerAwaits(c: Suite, s: Session)
    requires Inv(c, s) && s.cl.pc.WaitCrc? && !HandlerClosed(s) && |s.s2c| >= Cl.Wanted(s.cl.pc)
    ensures s.h.pc.AwaitHeader?
  {
    if |s.h.replies| == |s.cl.seen| {
      ClientMoves.ReceiveNothing(s, Cl.Wanted(s.cl.pc));
    }
  }

  lemma ClientKeepsOutcome(c: Suite, s: Session, cc: Cl.Choice)
    requires Inv(c, s) && ClientMoves.Can(s, cc)
    ensures Outcome(ClientMoves.After(c, s, cc)) == Outcome(s)
  {
    if s.cl.pc.WaitCrc? {
      AwaitingCrc(c, s, cc);
    } else if s.cl.pc.WaitSuccess? {
      AwaitingSuccess(c, s, cc);
    } else {
      Cl.StepMoves(c, s.cl, s.s2c, HandlerClosed(s), cc);
      NoOutcome(c, s);
      ClientMoves.ClientMoveKeeps(c, s, cc);
      NoOutcome(c, ClientMoves.After(c, s, cc));
    }
  }

  // The handler's side, once the client has said FILE_CRC_SUCCESS

  predicate Decided(s: Session) {
    s.cl.pc.WaitSuccess? || s.cl.pc == Cl.Done(true)
  }

  lemma ReadingDecides(c: Suite, n: nat, s: Session, sh: Shared, hc: H.Choice)
    requires Cl.Usable(c, s.cl) && Phase(c, s) && HandlerMoves.Can(s, hc) && Decided(s) && !s.h.pc.Work?
    ensures Outcome(HandlerMoves.After(c, n, s, sh, hc)) == Outcome(s) == []
  {
    assert s.h.pc.stage.Verdict?;
  }

  /** Which tasks are left, and that a readable acknowledgement goes with all but the first of them. */
  predicate DecidedTask(s: Session) {
    && s.h.pc.Work?
    && match s.h.pc.task
       case Acknowledge(_, code) => code == CRC_SUCCESS && s.cl.pc.WaitSuccess?
       case _ =>
         && (s.h.pc.task.Save? || s.h.pc.task.MarkVerified? || s.h.pc.task.VerifiedSeen? || s.h.pc.task.FinalAck?)
         && (s.cl.pc.WaitSuccess? ==> |s.h.replies| > |s.cl.seen|)
  }

  lemma DecidedTasks(c: Suite, s: Session)
    requires Cl.Usable(c, s.cl) && Phase(c, s) && Decided(s) && s.h.pc.Work?
    ensures DecidedTask(s)
  {
  }

  lemma VerdictDecides(c: Suite, n: nat, s: Session, sh: Shared, hc: H.Choice)
    requires Decided(s) && DecidedTask(s) && (!ClientClosed(s) ==> hc.sent)
    ensures var t := H.VerdictTask(n, s.h, s.c2s, sh, hc, s.h.pc.task);
            Outcome(AfterHandler(s, t)) == Outcome(s) + if AtSave(s.h.pc) then [hc.ok] else []
  {
  }

  lemma TaskDecides(c: Suite, n: nat, s: Session, sh: Shared, hc: H.Choice)
    requires Cl.Usable(c, s.cl) && Phase(c, s) && HandlerMoves.Can(s, hc) && Decided(s) && s.h.pc.Work?
    ensures Outcome(HandlerMoves.After(c, n, s, sh, hc)) == Outcome(s) + if AtSave(s.h.pc) then [hc.ok] else []
  {
    DecidedTasks(c, s);
    VerdictDecides(c, n, s, sh, hc);
  }

  lemma HandlerOutcome(c: Suite, n: nat, s: Session, sh: Shared, hc: H.Choice)
    requires Lawful(c) && Inv(c, s) && HandlerMoves.Can(s, hc)
    ensures Outcome(HandlerMoves.After(c, n, s, sh, hc)) == Outcome(s) + if AtSave(s.h.pc) then [hc.ok] else []
  {
    if !Decided(s) {
      HandlerMoves.HandlerMoveKeeps(c, n, s, sh, hc);
      NoOutcome(c, s);
      NoOutcome(c, HandlerMoves.After(c, n, s, sh, hc));
    } else if s.h.pc.Work? {
      TaskDecides(c, n, s, sh, hc);
    } else {
      ReadingDecides(c, n, s, sh, hc);
    }
  }

  // ----- Saved if and only if the disk accepted -----

  /** The results of the save steps of handler `i` in a run, in order. */
  function SaveResults(c: Suite, w: World, ws: seq<WorldMove>, i: nat): seq<bool> {
    if ws == [] then [] else
      var b, wm := WorldRun(c, w, ws[..|ws| - 1]), ws[|ws| - 1];
      SaveResults(c, w, ws[..|ws| - 1], i)
      + if Enabled(c, b, wm) && wm.Act? && wm.i == i && wm.m.HandlerMove? && AtSave(b.ss[i].h.pc)
        then [wm.m.hc.ok] else []
  }

  lemma MoveOutcome(c: Suite, n: nat, s: Session, sh: Shared, m: Move)
    requires Lawful(c) && Inv(c, s) && Allowed(s, m)
    ensures Outcome(Next(c, n, s, sh, m).0) ==
            Outcome(s) + if m.HandlerMove? && AtSave(s.h.pc) then [m.hc.ok] else []
  {
    match m {
      case ClientMove(cc) => ClientKeepsOutcome(c, s, cc);
      case HandlerMove(hc) => HandlerOutcome(c, n, s, sh, hc);
    }
  }

  lemma {:induction false} RunOutcome(c: Suite, w: World, ws: seq<WorldMove>, i: nat)
    requires Lawful(c) && WorldStart(w)
    ensures SaveResults(c, w, ws, i) ==
            if i < |WorldRun(c, w, ws).ss| then Outcome(WorldRun(c, w, ws).ss[i]) else []
  {
    if ws != [] {
      var b, wm := WorldRun(c, w, ws[..|ws| - 1]), ws[|ws| - 1];
      RunOutcome(c, w, ws[..|ws| - 1], i);
      WorldRunInv(c, w, ws[..|ws| - 1]);
      if Enabled(c, b, wm) && wm.Act? && wm.i == i {
        MoveOutcome(c, i, b.ss[i], b.sh, wm.m);
      }
    }
  }

  /** The history has a save by handler `i`. */
  predicate HasSaved(log: seq<Event>, i: nat) {
    exists e :: e in log && e.Saved? && e.h == i
  }

  lemma StepSaves(c: Suite, n: nat, s: Session, sh: Shared, hc: H.Choice, i: nat)
    requires Cl.Usable(c, s.cl) && HandlerMoves.Can(s, hc)
    ensures HasSaved(Next(c, n, s, sh, HandlerMove(hc)).1.log, i)
            <==> HasSaved(sh.log, i) || (n == i && AtSave(s.h.pc) && hc.ok)
  {
    SW.DiskEffect(c, n, s.h, s.c2s, ClientClosed(s), sh, hc);
    var log' := Next(c, n, s, sh, HandlerMove(hc)).1.log;
    if log' != sh.log {
      assert log'[|sh.log|] in log' && forall e :: e in sh.log ==> e in log';
    }
  }

  lemma {:induction false} SavesLogged(c: Suite, w: World, ws: seq<WorldMove>, i: nat)
    requires w.sh.log == []
    ensures HasSaved(WorldRun(c, w, ws).sh.log, i) <==> true in SaveResults(c, w, ws, i)
  {
    if ws != [] {
      var b, wm := WorldRun(c, w, ws[..|ws| - 1]), ws[|ws| - 1];
      SavesLogged(c, w, ws[..|ws| - 1], i);
      if Enabled(c, b, wm) && wm.Act? && wm.m.HandlerMove? {
        StepSaves(c, wm.i, b.ss[wm.i], b.sh, wm.m.hc, i);
      }
    }
  }

  /** A path that was ever saved to holds what the last save there wrote. */
  lemma SavedIsHeld(c: Suite, w: World, ws: seq<WorldMove>, e: Event)
    requires WorldStart(w) && e in WorldRun(c, w, ws).sh.log && e.Saved?
    ensures var sh := WorldRun(c, w, ws).sh; ST.HoldsLastSave(sh.disk, sh.log, PathOf(e.name))
  {
    var ms := RunSimulates(c, w, ws);
    assert SW.Fresh(Project(w));
    SW.RunInvariants(c, Project(w), ms);
    ST.ReplayIsLastSave(w.sh.disk, WorldRun(c, w, ws).sh.log, PathOf(e.name));
  }

  /**
   * In any run of the whole system, a session that has ended and whose client returned true made exactly one
   * save step. If the disk accepted it, exactly the bytes the client encrypted were saved under its file name
   * and the handler ended with success; if not, the handler saved nothing in the whole run.
   */
  lemma SavedIffAccepted(c: Suite, w: World, ws: seq<WorldMove>, i: nat)
    requires Lawful(c) && WorldStart(w) && i < |WorldRun(c, w, ws).ss|
    requires var s := WorldRun(c, w, ws).ss[i]; s.cl.pc == Cl.Done(true) && s.h.pc.Stopped?
    ensures var w' := WorldRun(c, w, ws);
            var s, results := w'.ss[i], SaveResults(c, w, ws, i);
            && (results == [true] || results == [false])
            && (results == [true] <==> HasSaved(w'.sh.log, i))
            && (results == [true] <==> s.h.pc == H.Stopped(true))
            && (results == [true] ==>
                  && Saved(i, s.cl.id, NameOfField(s.cl.file), s.cl.data) in w'.sh.log
                  && ST.HoldsLastSave(w'.sh.disk, w'.sh.log, PathOf(NameOfField(s.cl.file))))
  {
    RunOutcome(c, w, ws, i);
    SavesLogged(c, w, ws, i);
    WorldRunInv(c, w, ws);
    var w' := WorldRun(c, w, ws);
    if HasSaved(w'.sh.log, i) {
      var e :| e in w'.sh.log && e.Saved? && e.h == i;
      assert Backed(c, w'.ss[i], e);
      SavedIsHeld(c, w, ws, e);
    }
  }

  // ----- A client that returns true without a save -----

  /** The disk is as it was, the old rows of the files table are as they were, and no new row is verified. */
  predicate NothingStored(sh0: Shared, sh: Shared) {
    && sh.disk == sh0.disk && sh0.files <= sh.files
    && forall k :: |sh0.files| <= k < |sh.files| ==> !sh.files[k].verified
  }

  lemma StepStoresNothing(c: Suite, s: Session, sh0: Shared, sh: Shared, hc: H.Choice)
    requires Cl.Usable(c, s.cl) && HandlerMoves.Can(s, hc)
    requires NothingStored(sh0, sh) && !PastSave(s.h.pc) && (AtSave(s.h.pc) ==> !hc.ok)
    ensures NothingStored(sh0, Next(c, 0, s, sh, HandlerMove(hc)).1)
  {
    if !TouchesFiles(s.h.pc) {
      FilesKept(c, 0, s.h, s.c2s, ClientClosed(s), sh, hc);
    }
  }

  lemma MoveStaysBefore(c: Suite, s: Session, sh0: Shared, sh: Shared, m: Move)
    requires Lawful(c) && Inv(c, s) && Allowed(s, m) && !PastSave(s.h.pc) && !AtSave(s.h.pc) && NothingStored(sh0, sh)
    ensures var (s', sh') := Next(c, 0, s, sh, m); !PastSave(s'.h.pc) && NothingStored(sh0, sh')
  {
    if m.HandlerMove? {
      HandlerOutcome(c, 0, s, sh, m.hc);
      StepStoresNothing(c, s, sh0, sh, m.hc);
    }
  }

  /** A run without faults comes to the save, with nothing stored so far. */
  lemma {:induction false} ComesToSave(c: Suite, s: Session, sh: Shared, data: Bytes, uuid: Block, ms: seq<Move>)
    returns (all: seq<Move>)
    requires Lawful(c) && Start(c, s) && s.cl.name != [] && 0 < |data| <= MAX_PLAIN
    requires !s.cl.resume ==> NameFree(sh, s.cl.name)
    requires BenignRun(c, s, sh, data, ms)
    requires var (b, bsh) := Solo(c, s, sh, ms);
             Undrawn(b.h.pc, bsh, uuid) && !PastSave(b.h.pc) && NothingStored(sh, bsh)
    ensures BenignRun(c, s, sh, data, all)
    ensures var (b, bsh) := Solo(c, s, sh, all); AtSave(b.h.pc) && NothingStored(sh, bsh)
    decreases Height(Solo(c, s, sh, ms).0).0, Height(Solo(c, s, sh, ms).0).1, Height(Solo(c, s, sh, ms).0).2
  {
    var (b, bsh) := Solo(c, s, sh, ms);
    SoloGoing(c, s, sh, data, ms);
    if AtSave(b.h.pc) {
      all := ms;
    } else {
      var m := BenignMove(c, s, sh, data, uuid, ms);
      MoveStaysBefore(c, b, sh, bsh, m);
      all := ComesToSave(c, s, sh, data, uuid, ms + [m]);
    }
  }

  /** The disk refuses; otherwise nothing fails. */
  const REFUSING := H.Choice(0, false, true, Zeros(16), 0, [])

  lemma SoloNext(c: Suite, s: Session, sh: Shared, ms: seq<Move>, m: Move)
    requires Cl.Usable(c, s.cl) && Allowed(Solo(c, s, sh, ms).0, m)
    ensures var (b, bsh) := Solo(c, s, sh, ms); Solo(c, s, sh, ms + [m]) == Next(c, 0, b, bsh, m)
  {
    assert (ms + [m])[..|ms|] == ms;
  }

  lemma RefusedSession(c: Suite, s: Session, sh0: Shared, sh: Shared)
    requires Cl.Usable(c, s.cl) && Decided(s) && DecidedTask(s) && AtSave(s.h.pc) && NothingStored(sh0, sh)
    ensures Allowed(s, HandlerMove(REFUSING))
    ensures var (s', sh') := Next(c, 0, s, sh, HandlerMove(REFUSING));
            && s'.h.pc == H.Work(H.FinalAck) && NothingStored(sh0, sh')
            && Decided(s') && (s'.cl.pc.WaitSuccess? ==> |s'.h.replies| > |s'.cl.seen|)
  {
  }

  lemma SavesDecided(c: Suite, s: Session)
    requires Cl.Usable(c, s.cl) && Phase(c, s) && AtSave(s.h.pc)
    ensures Decided(s) && DecidedTask(s)
  {
    if Decided(s) {
      DecidedTasks(c, s);
    } else {
      NoOutcome(c, s);
    }
  }

  lemma SaveRefused(c: Suite, s: Session, sh0: Shared, sh: Shared)
    requires Lawful(c) && Inv(c, s) && AtSave(s.h.pc) && NothingStored(sh0, sh)
    ensures Allowed(s, HandlerMove(REFUSING))
    ensures var (s', sh') := Next(c, 0, s, sh, HandlerMove(REFUSING));
            && Inv(c, s') && s'.h.pc == H.Work(H.FinalAck) && NothingStored(sh0, sh')
            && Decided(s') && (s'.cl.pc.WaitSuccess? ==> |s'.h.replies| > |s'.cl.seen|)
  {
    SavesDecided(c, s);
    RefusedSession(c, s, sh0, sh);
    HandlerMoves.HandlerMoveKeeps(c, 0, s, sh, REFUSING);
  }

  lemma ThreeAreThere(c: Suite, s: Session)
    requires Cl.Usable(c, s.cl) && RepliesAligned(s) && Phase(c, s)
    requires s.cl.pc.WaitSuccess? && |s.h.replies| > |s.cl.seen|
    ensures |s.s2c| >= 3
  {
    ClientMoves.ConfirmedAnswer(c, s);
    ClientMoves.ReceiveThree(s);
  }

  lemma AcknowledgementIsThere(c: Suite, s: Session)
    requires Inv(c, s) && s.cl.pc.WaitSuccess? && |s.h.replies| > |s.cl.seen|
    ensures Allowed(s, ClientMove(Cl.Choice(None, false)))
  {
    ThreeAreThere(c, s);
    AnyRead(s, Cl.Choice(None, false));
  }

  /** The client reads the acknowledgement that was sent before the save, and returns true. */
  lemma ReadsAcknowledgement(c: Suite, s: Session, sh: Shared)
    requires Lawful(c) && Inv(c, s) && s.cl.pc.WaitSuccess? && |s.h.replies| > |s.cl.seen|
    ensures Allowed(s, ClientMove(Cl.Choice(None, false)))
    ensures var (s', sh') := Next(c, 0, s, sh, ClientMove(Cl.Choice(None, false)));
            Inv(c, s') && s'.cl.pc == Cl.Done(true) && s'.h == s.h && sh' == sh
  {
    AcknowledgementIsThere(c, s);
    ClientMoves.SuccessRead(c, s, Cl.Choice(None, false));
    ClientMoves.ClientMoveKeeps(c, s, Cl.Choice(None, false));
  }

  lemma GivesUp(c: Suite, s: Session, sh0: Shared, sh: Shared)
    requires Cl.Usable(c, s.cl) && s.cl.pc == Cl.Done(true) && s.h.pc == H.Work(H.FinalAck) && NothingStored(sh0, sh)
    ensures Allowed(s, HandlerMove(REFUSING))
    ensures var (s', sh') := Next(c, 0, s, sh, HandlerMove(REFUSING));
            s'.cl.pc == Cl.Done(true) && s'.h.pc == H.Stopped(false) && NothingStored(sh0, sh')
  {
  }

  /**
   * From every starting point, a run in which nothing fails but the one save: the client returns true, the
   * handler ends without success, the disk is as it was and no row became verified.
   */
  lemma UnsavedSuccess(c: Suite, s: Session, sh: Shared, data: Bytes, uuid: Block)
    returns (front: seq<Move>, ms: seq<Move>)
    requires Lawful(c) && Start(c, s) && s.cl.name != [] && 0 < |data| <= MAX_PLAIN
    requires !s.cl.resume ==> NameFree(sh, s.cl.name)
    requires forall r :: r in sh.clients ==> r.id != BytesLe(uuid)
    ensures BenignRun(c, s, sh, data, front) && AtSave(Solo(c, s, sh, front).0.h.pc)
    ensures front + [HandlerMove(REFUSING)] <= ms
    ensures var (s', sh') := Solo(c, s, sh, ms);
            s'.cl.pc == Cl.Done(true) && s'.h.pc == H.Stopped(false) && NothingStored(sh, sh')
  {
    front := ComesToSave(c, s, sh, data, uuid, []);
    SoloGoing(c, s, sh, data, front);
    SaveRefused(c, Solo(c, s, sh, front).0, sh, Solo(c, s, sh, front).1);
    SoloNext(c, s, sh, front, HandlerMove(REFUSING));
    ms := front + [HandlerMove(REFUSING)];
    ms := ClientFinishes(c, s, sh, ms);
    GivesUp(c, Solo(c, s, sh, ms).0, sh, Solo(c, s, sh, ms).1);
    SoloNext(c, s, sh, ms, HandlerMove(REFUSING));
    ms := ms + [HandlerMove(REFUSING)];
  }

  lemma ClientFinishes(c: Suite, s: Session, sh: Shared, ms: seq<Move>) returns (all: seq<Move>)
    requires Lawful(c) && Cl.Usable(c, s.cl)
    requires var (b, bsh) := Solo(c, s, sh, ms);
             && Inv(c, b) && b.h.pc == H.Work(H.FinalAck) && NothingStored(sh, bsh)
             && Decided(b) && (b.cl.pc.WaitSuccess? ==> |b.h.replies| > |b.cl.seen|)
    ensures ms <= all
    ensures var (b, bsh) := Solo(c, s, sh, all);
            b.cl.pc == Cl.Done(true) && b.h.pc == H.Work(H.FinalAck) && NothingStored(sh, bsh)
  {
    all := ms;
    if Solo(c, s, sh, ms).0.cl.pc.WaitSuccess? {
      ReadsAcknowledgement(c, Solo(c, s, sh, ms).0, Solo(c, s, sh, ms).1);
      SoloNext(c, s, sh, ms, ClientMove(Cl.Choice(None, false)));
      all := ms + [ClientMove(Cl.Choice(None, false))];
    }
  }

  /** One such run, from an empty server: client "a" resumes and uploads the one-byte file "a". */
  lemma SuccessWithoutSave() returns (c: Suite, s: Session, sh: Shared, ms: seq<Move>)
    ensures Lawful(c) && Start(c, s) && s.cl.file == ['a' as byte]
    ensures sh == Shared([], [], map[], [])
    ensures var (s', sh') := Solo(c, s, sh, ms);
            && s'.cl.pc == Cl.Done(true) && s'.h.pc == H.Stopped(false)
            && sh'.disk == map[] && forall r :: r in sh'.files ==> !r.verified
  {
    c := LawfulSuiteExists();
    var a := ['a' as byte];
    s := Session(Cl.State(a, a, [], true, Zeros(16), None, [], 0, Cl.Begin, [], []), H.NewThread(Zeros(16)), [], []);
    sh := Shared([], [], map[], []);
    var front;
    front, ms := UnsavedSuccess(c, s, sh, a, Zeros(16));
  }
}
