/** Any number of sessions over one server: a run of the server world with these clients as its peers. */
module World {
  import opened ByteStrings
  import opened Cipher
  import opened Wire
  import opened Tables
  import opened Session
  import opened Protocol
  import Cl = Client
  import H = Handler
  import ClientMoves
  import HandlerMoves
  import SW = ServerWorld
  import ST = ServerTheorems

  datatype World = World(sh: Shared, ss: seq<Session>)

  /** A client connects, or session `i` makes a move. */
  datatype WorldMove = Connect(s: Session) | Act(i: nat, m: Move)

  predicate Enabled(c: Suite, w: World, wm: WorldMove) {
    match wm
    case Connect(s) => Start(c, s)
    case Act(i, m) => i < |w.ss| && Cl.Usable(c, w.ss[i].cl) && Allowed(w.ss[i], m)
  }

  /** One move; a move that is not enabled changes nothing. */
  function WorldNext(c: Suite, w: World, wm: WorldMove): World {
    if !Enabled(c, w, wm) then w else
      match wm
      case Connect(s) => w.(ss := w.ss + [s])
      case Act(i, m) =>
        var (s, sh) := Next(c, i, w.ss[i], w.sh, m);
        World(sh, w.ss[i := s])
  }

  function WorldRun(c: Suite, w: World, ws: seq<WorldMove>): World {
    if ws == [] then w else WorldNext(c, WorldRun(c, w, ws[..|ws| - 1]), ws[|ws| - 1])
  }

  predicate WorldStart(w: World) {
    w.ss == [] && w.sh.log == [] && UniqueClients(w.sh.clients)
  }

  // ----- Refinement of the server world -----

  function ConnOf(s: Session): SW.Conn {
    SW.Conn(s.h, s.c2s, ClientClosed(s))
  }

  function Project(w: World): SW.Server {
    SW.Server(w.sh, seq(|w.ss|, i requires 0 <= i < |w.ss| => ConnOf(w.ss[i])))
  }

  /** What a move of the composed system is for the server: an accepted connection, delivered bytes, or its own step. */
  function ServerView(c: Suite, w: World, wm: WorldMove): SW.Move
    requires Enabled(c, w, wm)
  {
    match wm
    case Connect(s) => SW.Accept(s.h.key)
    case Act(i, ClientMove(cc)) =>
      var t := Cl.Step(c, w.ss[i].cl, w.ss[i].s2c, HandlerClosed(w.ss[i]), cc);
      SW.Deliver(i, t.out, t.cl.pc.Done?)
    case Act(i, HandlerMove(hc)) => SW.Advance(i, hc)
  }

  lemma NextSimulates(c: Suite, w: World, wm: WorldMove)
    requires Enabled(c, w, wm)
    ensures Project(WorldNext(c, w, wm)) == SW.Next(c, Project(w), ServerView(c, w, wm))
  {
    var p, q := Project(WorldNext(c, w, wm)), SW.Next(c, Project(w), ServerView(c, w, wm));
    assert p.sh == q.sh && |p.conns| == |q.conns|;
    assert forall i :: 0 <= i < |p.conns| ==> p.conns[i] == q.conns[i];
  }

  /** Every run of the composed system is a run of the server under arbitrary peers, so its theorems apply here. */
  lemma {:induction false} RunSimulates(c: Suite, w: World, ws: seq<WorldMove>) returns (ms: seq<SW.Move>)
    ensures Project(WorldRun(c, w, ws)) == SW.Run(c, Project(w), ms)
  {
    if ws == [] {
      ms := [];
    } else {
      var b, wm := WorldRun(c, w, ws[..|ws| - 1]), ws[|ws| - 1];
      ms := RunSimulates(c, w, ws[..|ws| - 1]);
      if Enabled(c, b, wm) {
        NextSimulates(c, b, wm);
        ms := ms + [ServerView(c, b, wm)];
      }
    }
  }

  // ----- What a save says about its client -----

  /** The session whose handler saved: its client computed this checksum from its file and confirmed. */
  predicate Backed(c: Suite, s: Session, e: Event)
    requires e.Saved?
  {
    && (s.cl.pc.WaitSuccess? || s.cl.pc == Cl.Done(true))
    && (s.h.pc == H.Stopped(true) || (s.h.pc.Work? && (s.h.pc.task.MarkVerified? || s.h.pc.task.VerifiedSeen?)))
    && e.id == s.cl.id && e.name == NameOfField(s.cl.file) && e.data == s.cl.data && s.cl.crc == c.crc(e.data)
  }

  ghost predicate WorldInv(c: Suite, w: World) {
    && (forall i :: 0 <= i < |w.ss| ==> Inv(c, w.ss[i]))
    && (forall e :: e in w.sh.log && e.Saved? ==> e.h < |w.ss| && Backed(c, w.ss[e.h], e))
  }

  lemma ClientKeepsBacked(c: Suite, s: Session, cc: Cl.Choice, e: Event)
    requires Inv(c, s) && ClientMoves.Can(s, cc) && e.Saved? && Backed(c, s, e)
    ensures Backed(c, ClientMoves.After(c, s, cc), e)
  {
    assert Confirming(c, s);
    ClientMoves.SuccessRead(c, s, cc);
  }

  lemma HandlerKeepsBacked(c: Suite, n: nat, s: Session, sh: Shared, hc: H.Choice, e: Event)
    requires Inv(c, s) && HandlerMoves.Can(s, hc) && e.Saved? && Backed(c, s, e)
    ensures Backed(c, HandlerMoves.After(c, n, s, sh, hc), e)
  {
  }

  lemma SavesOwn(c: Suite, s: Session, s': Session, e: Event)
    requires Cl.Usable(c, s.cl) && Phase(c, s) && s.h.pc.Work? && s.h.pc.task.Save? && s'.cl == s.cl
    requires s'.h == s.h.(pc := H.Work(H.MarkVerified(s.h.pc.task.job)))
    requires e == Saved(e.h, s.h.id, s.h.pc.task.job.name, s.h.pc.task.job.data)
    ensures Backed(c, s', e)
  {
    assert Confirming(c, s) || Succeeded(c, s);
  }

  /** The save itself is backed: the handler saves what this client encrypted and confirmed. */
  lemma SaveIsBacked(c: Suite, n: nat, s: Session, sh: Shared, hc: H.Choice)
    requires Inv(c, s) && HandlerMoves.Can(s, hc)
    ensures var sh' := Next(c, n, s, sh, HandlerMove(hc)).1;
            || sh'.log == sh.log
            || exists e :: sh'.log == sh.log + [e]
                 && (e.Saved? ==> e.h == n && Backed(c, HandlerMoves.After(c, n, s, sh, hc), e))
  {
    SW.DiskEffect(c, n, s.h, s.c2s, ClientClosed(s), sh, hc);
    if s.h.pc.Work? && s.h.pc.task.Save? && hc.ok {
      var job := s.h.pc.task.job;
      var e := Saved(n, s.h.id, job.name, job.data);
      assert SW.Adds(sh, Next(c, n, s, sh, HandlerMove(hc)).1, e);
      SavesOwn(c, s, HandlerMoves.After(c, n, s, sh, hc), e);
    }
  }

  lemma WorldNextInv(c: Suite, w: World, wm: WorldMove)
    requires Lawful(c) && WorldInv(c, w)
    ensures WorldInv(c, WorldNext(c, w, wm))
  {
    if Enabled(c, w, wm) {
      match wm {
        case Connect(s) => StartInv(c, s);
        case Act(i, ClientMove(cc)) => ClientActInv(c, w, i, cc);
        case Act(i, HandlerMove(hc)) => HandlerActInv(c, w, i, hc);
      }
    }
  }

  lemma ClientActInv(c: Suite, w: World, i: nat, cc: Cl.Choice)
    requires Lawful(c) && WorldInv(c, w) && Enabled(c, w, Act(i, ClientMove(cc)))
    ensures WorldInv(c, WorldNext(c, w, Act(i, ClientMove(cc))))
  {
    ClientMoves.ClientMoveKeeps(c, w.ss[i], cc);
    forall e | e in w.sh.log && e.Saved? && e.h == i ensures Backed(c, ClientMoves.After(c, w.ss[i], cc), e) {
      ClientKeepsBacked(c, w.ss[i], cc, e);
    }
  }

  lemma HandlerActInv(c: Suite, w: World, i: nat, hc: H.Choice)
    requires Lawful(c) && WorldInv(c, w) && Enabled(c, w, Act(i, HandlerMove(hc)))
    ensures WorldInv(c, WorldNext(c, w, Act(i, HandlerMove(hc))))
  {
    HandlerMoves.HandlerMoveKeeps(c, i, w.ss[i], w.sh, hc);
    SaveIsBacked(c, i, w.ss[i], w.sh, hc);
    forall e | e in w.sh.log && e.Saved? && e.h == i
      ensures Backed(c, HandlerMoves.After(c, i, w.ss[i], w.sh, hc), e)
    {
      HandlerKeepsBacked(c, i, w.ss[i], w.sh, hc, e);
    }
  }

  lemma {:induction false} WorldRunInv(c: Suite, w: World, ws: seq<WorldMove>)
    requires Lawful(c) && WorldStart(w)
    ensures WorldInv(c, WorldRun(c, w, ws))
  {
    if ws != [] {
      WorldRunInv(c, w, ws[..|ws| - 1]);
      WorldNextInv(c, WorldRun(c, w, ws[..|ws| - 1]), ws[|ws| - 1]);
    }
  }

  /** A session of the run whose client has this row's id and file name, with what it computed and what was saved. */
  ghost predicate UploadedBy(c: Suite, w: World, row: FileRow, i: nat) {
    && i < |w.ss| && BytesLe(w.ss[i].cl.id) == row.client && NameOfField(w.ss[i].cl.file) == row.name
    && w.ss[i].cl.crc == c.crc(w.ss[i].cl.data)
    && ST.Exchange(c, Project(w), i, w.ss[i].cl.id, row.name, w.ss[i].cl.data)
  }

  lemma ExchangeIsUpload(c: Suite, w: World, row: FileRow)
    requires WorldInv(c, w)
    requires exists h: nat, id, data :: BytesLe(id) == row.client && ST.Exchange(c, Project(w), h, id, row.name, data)
    ensures exists i :: UploadedBy(c, w, row, i)
  {
    var h: nat, id, data :| BytesLe(id) == row.client && ST.Exchange(c, Project(w), h, id, row.name, data);
    var e := Saved(h, id, row.name, data);
    assert e in w.sh.log && Backed(c, w.ss[h], e);
    assert UploadedBy(c, w, row, h);
  }

  /**
   * With these clients, however many run at once: a row that the run made verified belongs to a session
   * whose handler sent the checksum, read a confirmation and saved, in this order, the very bytes its client
   * had encrypted; and the client's own checksum of its file equals that of the saved bytes.
   */
  lemma VerifiedMatchesClient(c: Suite, w: World, ws: seq<WorldMove>, k: nat)
    requires Lawful(c) && WorldStart(w)
    requires var files := WorldRun(c, w, ws).sh.files; k < |files| && files[k].verified
    requires !(k < |w.sh.files| && w.sh.files[k].verified)
    ensures exists i :: UploadedBy(c, WorldRun(c, w, ws), WorldRun(c, w, ws).sh.files[k], i)
  {
    var w' := WorldRun(c, w, ws);
    var row := w'.sh.files[k];
    var ms := RunSimulates(c, w, ws);
    assert SW.Fresh(Project(w));
    ST.VerifiedMeansConfirmed(c, Project(w), ms, k);
    WorldRunInv(c, w, ws);
    ExchangeIsUpload(c, w', row);
  }
}
