/** A registered client and its later runs: the id in me.info names the row that the server made for it. */
module IdentityAcross {
  import opened ByteStrings
  import opened Cipher
  import opened Wire
  import opened Tables
  import opened Session
  import opened Protocol
  import opened World
  import Cl = Client
  import H = Handler
  import ClientMoves
  import HandlerMoves
  import SW = ServerWorld
  import ST = ServerTheorems
  import MeInfo

  /** The clients table has a row with this id and name. */
  predicate HasRow(sh: Shared, id: Bytes, name: Bytes) {
    exists k :: 0 <= k < |sh.clients| && sh.clients[k].id == BytesLe(id) && sh.clients[k].name == name
  }

  /** The client read REGISTRATION_SUCCESS from this server, whatever became of its run afterwards. */
  predicate Registered(s: Session) {
    !s.cl.resume && s.cl.seen != [] && s.cl.seen[0].code == REGISTRATION_SUCCESS
  }

  /** A registering session whose insert was accepted has its row; a client past its registration has been accepted. */
  predicate Rowed(s: Session, sh: Shared) {
    match s.cl.pc
    case Begin => s.cl.seen == []
    case WaitRegistration =>
      && s.cl.seen == []
      && (s.h.pc.Work? && s.h.pc.task.RegSeen? ==> HasRow(sh, s.h.pc.task.id, s.cl.name))
      && (s.h.pc.Work? && s.h.pc.task.RegReply? && s.h.pc.task.given.Some? ==>
            HasRow(sh, s.h.pc.task.given.value, s.cl.name))
      && (s.h.pc == H.AwaitHeader(H.KeyExchange) ==> HasRow(sh, s.h.id, s.cl.name))
    case Done(false) => Registered(s) ==> HasRow(sh, s.cl.id, s.cl.name)
    case _ => !s.cl.resume ==> Registered(s) && HasRow(sh, s.cl.id, s.cl.name)
  }

  lemma RowedMonotone(s: Session, sh: Shared, sh': Shared)
    requires Rowed(s, sh) && SW.Grows(sh, sh')
    ensures Rowed(s, sh')
  {
    forall id, name | HasRow(sh, id, name) ensures HasRow(sh', id, name) {
      var k :| 0 <= k < |sh.clients| && sh.clients[k].id == BytesLe(id) && sh.clients[k].name == name;
      assert sh'.clients[k].id == BytesLe(id) && sh'.clients[k].name == name;
    }
  }

  lemma LaterKeepsRowed(c: Suite, s: Session, sh: Shared, cc: Cl.Choice)
    requires Cl.Usable(c, s.cl) && ClientMoves.Can(s, cc) && Rowed(s, sh)
    requires !s.cl.pc.Begin? && !s.cl.pc.WaitRegistration?
    ensures Rowed(ClientMoves.After(c, s, cc), sh)
  {
    Cl.StepKeeps(c, s.cl, s.s2c, HandlerClosed(s), cc);
  }

  lemma RegisteredKeepsRowed(c: Suite, s: Session, sh: Shared, cc: Cl.Choice)
    requires Inv(c, s) && ClientMoves.Can(s, cc) && Rowed(s, sh) && s.cl.pc.WaitRegistration?
    ensures Rowed(ClientMoves.After(c, s, cc), sh)
  {
    Cl.StepKeeps(c, s.cl, s.s2c, HandlerClosed(s), cc);
    ClientMoves.RegistrationRead(c, s, cc);
    ReadsRow(c, s, ClientMoves.After(c, s, cc), sh);
  }

  lemma ReadsRow(c: Suite, s: Session, s': Session, sh: Shared)
    requires Cl.Usable(c, s.cl) && Phase(c, s) && Packable(s.h.replies) && Rowed(s, sh) && s.cl.pc.WaitRegistration?
    requires Cl.Keeps(s.cl, s'.cl) && |s.h.replies| > 0 && s'.cl.seen == [ParsedOf(s.h.replies[0])]
    requires || (s'.cl.pc == Cl.Done(false) && (s.h.replies[0].code == REGISTRATION_SUCCESS ==> s'.cl.id == s.h.id))
             || (s'.cl.pc == Cl.SendKey && s'.cl.id == s.h.id && s.h.replies[0].code == REGISTRATION_SUCCESS)
    ensures Rowed(s', sh)
  {
  }

  lemma ClientKeepsRowed(c: Suite, s: Session, sh: Shared, cc: Cl.Choice)
    requires Inv(c, s) && ClientMoves.Can(s, cc) && Rowed(s, sh)
    ensures Rowed(ClientMoves.After(c, s, cc), sh)
  {
    if s.cl.pc.WaitRegistration? {
      RegisteredKeepsRowed(c, s, sh, cc);
    } else if !s.cl.pc.Begin? {
      LaterKeepsRowed(c, s, sh, cc);
    }
  }

  lemma HandlerKeepsRowed(c: Suite, n: nat, s: Session, sh: Shared, hc: H.Choice)
    requires Lawful(c) && Inv(c, s) && HandlerMoves.Can(s, hc) && Rowed(s, sh)
    ensures var (s', sh') := Next(c, n, s, sh, HandlerMove(hc)); Rowed(s', sh')
  {
    var (s', sh') := Next(c, n, s, sh, HandlerMove(hc));
    SW.StepGrows(c, n, s.h, s.c2s, ClientClosed(s), sh, hc);
    RowedMonotone(s, sh, sh');
    if s.cl.pc.WaitRegistration? {
      HandlerMoves.HandlerMoveKeeps(c, n, s, sh, hc);
      InsertedRow(c, n, s, sh, hc);
    }
  }

  lemma InsertedRow(c: Suite, n: nat, s: Session, sh: Shared, hc: H.Choice)
    requires Cl.Usable(c, s.cl) && Phase(c, s) && HandlerMoves.Can(s, hc) && s.cl.pc.WaitRegistration?
    requires var (s', sh') := Next(c, n, s, sh, HandlerMove(hc)); Phase(c, s') && Rowed(s, sh')
    ensures var (s', sh') := Next(c, n, s, sh, HandlerMove(hc)); Rowed(s', sh')
  {
    var (s', sh') := Next(c, n, s, sh, HandlerMove(hc));
    if s.h.pc.Work? && s.h.pc.task.RegInsert? && s'.h.pc.task.RegSeen? {
      assert sh'.clients[|sh.clients|].id == BytesLe(hc.uuid) && sh'.clients[|sh.clients|].name == s.cl.name;
    }
  }

  ghost predicate AllRowed(w: World) {
    forall i :: 0 <= i < |w.ss| ==> Rowed(w.ss[i], w.sh)
  }

  lemma WorldNextRowed(c: Suite, w: World, wm: WorldMove)
    requires Lawful(c) && WorldInv(c, w) && AllRowed(w)
    ensures AllRowed(WorldNext(c, w, wm))
  {
    if Enabled(c, w, wm) && wm.Act? {
      var w', s := WorldNext(c, w, wm), w.ss[wm.i];
      match wm.m {
        case ClientMove(cc) => ClientKeepsRowed(c, s, w.sh, cc);
        case HandlerMove(hc) =>
          HandlerKeepsRowed(c, wm.i, s, w.sh, hc);
          SW.StepGrows(c, wm.i, s.h, s.c2s, ClientClosed(s), w.sh, hc);
          forall i | 0 <= i < |w.ss| && i != wm.i ensures Rowed(w'.ss[i], w'.sh) {
            RowedMonotone(w.ss[i], w.sh, w'.sh);
          }
      }
    }
  }

  lemma {:induction false} WorldRunRowed(c: Suite, w: World, ws: seq<WorldMove>)
    requires Lawful(c) && WorldStart(w)
    ensures AllRowed(WorldRun(c, w, ws))
  {
    if ws != [] {
      WorldRunRowed(c, w, ws[..|ws| - 1]);
      WorldRunInv(c, w, ws[..|ws| - 1]);
      WorldNextRowed(c, WorldRun(c, w, ws[..|ws| - 1]), ws[|ws| - 1]);
    }
  }

  /** The key update of a session changes the keys of the rows of its id alone; without one it changes nothing. */
  lemma KeyUpdateTouchesOneRow(c: Suite, n: nat, s: Session, sh: Shared, hc: H.Choice)
    requires Cl.Usable(c, s.cl) && Phase(c, s) && HandlerMoves.Can(s, hc) && s.h.pc == H.Work(H.KeyStore)
    ensures var sh' := Next(c, n, s, sh, HandlerMove(hc)).1;
            && sh'.files == sh.files && sh'.disk == sh.disk && sh'.log == sh.log && |sh'.clients| == |sh.clients|
            && (forall k :: 0 <= k < |sh.clients| ==>
                  sh'.clients[k] == if sh.clients[k].id == BytesLe(s.cl.id)
                                    then sh.clients[k].(publicKey := Some(c.publicOf(s.cl.priv)),
                                                        sharedKey := Some(s.h.key))
                                    else sh.clients[k])
  {
  }

  lemma KeyUpdateAt(c: Suite, n: nat, s: Session, sh: Shared, hc: H.Choice, k: nat)
    requires Cl.Usable(c, s.cl) && Phase(c, s) && HandlerMoves.Can(s, hc) && s.h.pc == H.Work(H.KeyStore)
    requires UniqueClients(sh.clients) && k < |sh.clients| && sh.clients[k].id == BytesLe(s.cl.id)
    ensures Next(c, n, s, sh, HandlerMove(hc)).1.clients ==
            sh.clients[k := sh.clients[k].(publicKey := Some(c.publicOf(s.cl.priv)), sharedKey := Some(s.h.key))]
  {
    KeyUpdateTouchesOneRow(c, n, s, sh, hc);
    var rows := Next(c, n, s, sh, HandlerMove(hc)).1.clients;
    forall l | 0 <= l < |rows| && l != k ensures rows[l] == sh.clients[l] {
      assert sh.clients[l].id != sh.clients[k].id;
    }
  }

  lemma UniqueInRuns(c: Suite, w0: World, ws: seq<WorldMove>)
    requires WorldStart(w0)
    ensures UniqueClients(WorldRun(c, w0, ws).sh.clients)
  {
    var ms := RunSimulates(c, w0, ws);
    assert SW.Fresh(Project(w0));
    ST.ClientsConserved(c, Project(w0), ms);
  }

  lemma RegisteredRow(c: Suite, w0: World, ws: seq<WorldMove>, i: nat) returns (k: nat)
    requires Lawful(c) && WorldStart(w0)
    requires i < |WorldRun(c, w0, ws).ss| && Registered(WorldRun(c, w0, ws).ss[i])
    ensures var w := WorldRun(c, w0, ws);
            && k < |w.sh.clients| && w.sh.clients[k].id == BytesLe(w.ss[i].cl.id)
            && w.sh.clients[k].name == w.ss[i].cl.name
  {
    var w := WorldRun(c, w0, ws);
    WorldRunRowed(c, w0, ws);
    assert Rowed(w.ss[i], w.sh);
    k :| 0 <= k < |w.sh.clients| && w.sh.clients[k].id == BytesLe(w.ss[i].cl.id)
         && w.sh.clients[k].name == w.ss[i].cl.name;
  }

  /** Client `b` starts from what loading the file printed by client `a` gives, with these bytes beyond the buffer. */
  predicate LoadedFrom(a: Cl.State, b: Cl.State, beyond: Bytes) {
    MeInfo.Load(a.name, MeInfo.Print(a.name, a.id, a.priv), beyond) == Some(MeInfo.Identity(b.id, b.priv))
  }

  lemma LoadedSame(a: Cl.State, b: Cl.State, beyond: Bytes)
    requires |a.id| == UUID_LENGTH && LoadedFrom(a, b, beyond)
    ensures b.id == a.id && (MeInfo.Harmless(a.priv, beyond) ==> b.priv == a.priv)
  {
    MeInfo.LoadedId(a.name, a.id, a.priv, beyond);
    if MeInfo.Harmless(a.priv, beyond) {
      MeInfo.LoadedKey(a.name, a.id, a.priv, beyond);
    }
  }

  /**
   * Identity across runs, in any run of the whole system: session `i` registered, however its run went on;
   * session `j` belongs to a later run, started from what loading the printed me.info gives, whatever lies
   * beyond the buffer. When the handler of `j` stores the keys, there is exactly one row of that id, it
   * carries the name session `i` registered, and it alone gets the keys of session `j`.
   */
  lemma IdentityAcrossRuns(c: Suite, w0: World, ws: seq<WorldMove>, i: nat, j: nat, hc: H.Choice, beyond: Bytes)
    returns (k: nat)
    requires Lawful(c) && WorldStart(w0)
    requires var w := WorldRun(c, w0, ws);
             && i < |w.ss| && j < |w.ss| && Registered(w.ss[i]) && LoadedFrom(w.ss[i].cl, w.ss[j].cl, beyond)
             && w.ss[j].h.pc == H.Work(H.KeyStore) && HandlerMoves.Can(w.ss[j], hc)
    ensures var w := WorldRun(c, w0, ws);
            var sh' := WorldNext(c, w, Act(j, HandlerMove(hc))).sh;
            var a, b := w.ss[i].cl, w.ss[j].cl;
            && b.id == a.id && (MeInfo.Harmless(a.priv, beyond) ==> b.priv == a.priv)
            && k < |w.sh.clients| == |sh'.clients|
            && w.sh.clients[k].id == BytesLe(a.id) && w.sh.clients[k].name == a.name
            && sh'.clients == w.sh.clients[k := w.sh.clients[k].(publicKey := Some(c.publicOf(b.priv)),
                                                                 sharedKey := Some(w.ss[j].h.key))]
  {
    var w := WorldRun(c, w0, ws);
    WorldRunInv(c, w0, ws);
    assert Inv(c, w.ss[i]) && Inv(c, w.ss[j]);
    LoadedSame(w.ss[i].cl, w.ss[j].cl, beyond);
    k := RegisteredRow(c, w0, ws, i);
    UniqueInRuns(c, w0, ws);
    KeyUpdateAt(c, j, w.ss[j], w.sh, hc, k);
  }
}
