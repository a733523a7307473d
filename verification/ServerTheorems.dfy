/** What every run of the server world shows of its tables, its disk and its conversations. */
module ServerTheorems {
  import opened ByteStrings
  import opened Cipher
  import opened Wire
  import opened Tables
  import opened Handler
  import opened Conversations
  import opened ServerWorld

  /** One handler sent the checksum of `data`, later received FILE_CRC_SUCCESS, later saved `data`. */
  ghost predicate Chain(log: seq<Event>, h: nat, id: Bytes, name: Bytes, data: Bytes) {
    exists j1, j2, j3 ::
      && 0 <= j1 < j2 < j3 < |log| && log[j1] == CrcSent(h, id, name, data)
      && log[j2] == Confirmed(h, id, name, data) && log[j3] == Saved(h, id, name, data)
  }

  lemma SavesAreChained(log: seq<Event>, h: nat, id: Bytes, name: Bytes, data: Bytes)
    requires Ordered(log) && Saved(h, id, name, data) in log
    ensures Chain(log, h, id, name, data)
  {
    var j3 :| 0 <= j3 < |log| && log[j3] == Saved(h, id, name, data);
    var j2 :| 0 <= j2 < j3 && log[..j3][j2] == Confirmed(h, id, name, data);
    assert log[j2] == Confirmed(h, id, name, data);
    var j1 :| 0 <= j1 < j2 && log[..j2][j1] == CrcSent(h, id, name, data);
    assert log[j1] == CrcSent(h, id, name, data);
  }

  /**
   * The chain in the history, and what went over this handler's connection for it: the response with the
   * checksum of this plaintext was sent, and every confirmation has a FILE_CRC_SUCCESS header of its own.
   */
  ghost predicate Exchange(c: Suite, w: Server, h: nat, id: Bytes, name: Bytes, data: Bytes) {
    && Chain(w.sh.log, h, id, name, data)
    && h < |w.conns| && Told(c, w.conns[h].h, id, name, data)
    && 0 < Confirmations(w.sh.log, h) <= SuccessHeaders(w.conns[h].h.headers)
  }

  lemma ChainIsExchange(c: Suite, w: Server, h: nat, id: Bytes, name: Bytes, data: Bytes)
    requires AllConsistent(c, w) && Chain(w.sh.log, h, id, name, data)
    ensures Exchange(c, w, h, id, name, data)
  {
    assert CrcSent(h, id, name, data) in w.sh.log && Confirmed(h, id, name, data) in w.sh.log;
    assert Consistent(c, w.sh.log, h, w.conns[h].h);
    ConfirmedIsCounted(w.sh.log, h, id, name, data);
  }

  /** The history agrees with what every handler sent and received, and speaks of no other handlers. */
  ghost predicate AllConsistent(c: Suite, w: Server) {
    && (forall e :: e in w.sh.log ==> e.h < |w.conns|)
    && (forall i :: 0 <= i < |w.conns| ==> Consistent(c, w.sh.log, i, w.conns[i].h))
  }

  lemma AdvanceConsistent(c: Suite, w: Server, m: Move)
    requires AllConsistent(c, w) && m.Advance? && Enabled(w, m)
    ensures AllConsistent(c, Next(c, w, m))
  {
    var k, w' := w.conns[m.i], Next(c, w, m);
    StepLogsOwn(c, m.i, k.h, k.inp, k.closed, w.sh, m.ch);
    assert Consistent(c, w.sh.log, m.i, k.h);
    StepConversed(c, m.i, k.h, k.inp, k.closed, w.sh, m.ch);
    StepAnswered(c, m.i, k.h, k.inp, k.closed, w.sh, m.ch);
    forall i | 0 <= i < |w.conns| && i != m.i ensures Consistent(c, w'.sh.log, i, w'.conns[i].h) {
      OthersConsistent(c, w.sh.log, w'.sh.log, m.i, i, w.conns[i].h);
    }
  }

  lemma {:induction false} RunConsistent(c: Suite, w: Server, ms: seq<Move>)
    requires Fresh(w)
    ensures AllConsistent(c, Run(c, w, ms))
  {
    if ms != [] {
      var before, m := Run(c, w, ms[..|ms| - 1]), ms[|ms| - 1];
      RunConsistent(c, w, ms[..|ms| - 1]);
      if Enabled(before, m) {
        match m {
          case Accept(key) => NewConsistent(c, before.sh.log, |before.conns|, key);
          case Deliver(_, _, _) =>
          case Advance(_, _) => AdvanceConsistent(c, before, m);
        }
      }
    }
  }

  /**
   * In every run, a verified row was verified before the run, or one handler with that client's id sent
   * the checksum of a plaintext for that name, later read a FILE_CRC_SUCCESS header, and later still saved
   * that plaintext.
   */
  lemma VerifiedMeansConfirmed(c: Suite, w: Server, ms: seq<Move>, i: nat)
    requires Fresh(w)
    requires var files := Run(c, w, ms).sh.files; i < |files| && files[i].verified
    ensures var w' := Run(c, w, ms);
            var row := w'.sh.files[i];
            || (i < |w.sh.files| && w.sh.files[i].verified)
            || exists h: nat, id, data :: BytesLe(id) == row.client && Exchange(c, w', h, id, row.name, data)
  {
    RunInvariants(c, w, ms);
    RunConsistent(c, w, ms);
    var w' := Run(c, w, ms);
    if !(i < |w.sh.files| && w.sh.files[i].verified) {
      var h: nat, id, data :|
        BytesLe(id) == w'.sh.files[i].client && Saved(h, id, w'.sh.files[i].name, data) in w'.sh.log;
      SavesAreChained(w'.sh.log, h, id, w'.sh.files[i].name, data);
      ChainIsExchange(c, w', h, id, w'.sh.files[i].name, data);
    }
  }

  predicate NeverSaved(log: seq<Event>, path: Bytes) {
    forall k :: 0 <= k < |log| && log[k].Saved? ==> PathOf(log[k].name) != path
  }

  /** The two disks agree at `path`: both have no file there, or the same one. */
  predicate SameAt(a: map<Bytes, Bytes>, b: map<Bytes, Bytes>, path: Bytes) {
    (path in a <==> path in b) && (path in a ==> a[path] == b[path])
  }

  /** The last save to `path` in `log` is number `j`. */
  predicate LastSave(log: seq<Event>, path: Bytes, j: nat) {
    && j < |log| && log[j].Saved? && PathOf(log[j].name) == path
    && forall k :: j < k < |log| && log[k].Saved? ==> PathOf(log[k].name) != path
  }

  /** The disk holds at `path` what the last save there in `log` wrote. */
  ghost predicate HoldsLastSave(disk: map<Bytes, Bytes>, log: seq<Event>, path: Bytes) {
    exists j: nat :: LastSave(log, path, j) && path in disk && disk[path] == log[j].data
  }

  lemma LastSaveSnoc(disk: map<Bytes, Bytes>, front: seq<Event>, last: Event, path: Bytes)
    requires HoldsLastSave(disk, front, path) && (last.Saved? ==> PathOf(last.name) != path)
    ensures HoldsLastSave(disk, front + [last], path)
  {
    var j: nat :| LastSave(front, path, j) && path in disk && disk[path] == front[j].data;
    assert LastSave(front + [last], path, j);
  }

  lemma {:induction false} ReplayIsLastSave(disk: map<Bytes, Bytes>, log: seq<Event>, path: Bytes)
    ensures var d := Replay(disk, log);
            HoldsLastSave(d, log, path) || (NeverSaved(log, path) && SameAt(disk, d, path))
  {
    if log != [] {
      var front, last := log[..|log| - 1], log[|log| - 1];
      ReplayIsLastSave(disk, front, path);
      assert log == front + [last];
      if last.Saved? && PathOf(last.name) == path {
        assert LastSave(log, path, |log| - 1);
      } else if HoldsLastSave(Replay(disk, front), front, path) {
        LastSaveSnoc(Replay(disk, front), front, last, path);
        assert HoldsLastSave(Replay(disk, front), log, path);
      }
    }
  }

  /**
   * In every run, what is at a path is what was there before the run, or the plaintext of the
   * last save to that path by any handler, whose peer had confirmed that plaintext.
   */
  lemma DiskHistory(c: Suite, w: Server, ms: seq<Move>, path: Bytes)
    requires Fresh(w)
    ensures var w' := Run(c, w, ms);
            var sh := w'.sh;
            || (NeverSaved(sh.log, path) && SameAt(w.sh.disk, sh.disk, path))
            || exists j: nat :: LastSave(sh.log, path, j) && path in sh.disk && sh.disk[path] == sh.log[j].data
                 && Exchange(c, w', sh.log[j].h, sh.log[j].id, sh.log[j].name, sh.log[j].data)
  {
    RunInvariants(c, w, ms);
    RunConsistent(c, w, ms);
    var w' := Run(c, w, ms);
    var sh := w'.sh;
    ReplayIsLastSave(w.sh.disk, sh.log, path);
    if j: nat :| LastSave(sh.log, path, j) && path in sh.disk && sh.disk[path] == sh.log[j].data {
      var e := sh.log[j];
      assert e in sh.log;
      SavesAreChained(sh.log, e.h, e.id, e.name, e.data);
      ChainIsExchange(c, w', e.h, e.id, e.name, e.data);
    }
  }

  /** The last save under `name` in `log` is number `j`. */
  predicate LastSaveOf(log: seq<Event>, name: Bytes, j: nat) {
    && j < |log| && log[j].Saved? && log[j].name == name
    && forall k :: j < k < |log| && log[k].Saved? ==> log[k].name != name
  }

  /** A step that does not save under this name leaves what the disk holds for it alone. */
  lemma OtherNamesKept(c: Suite, n: nat, h: Thread, inp: Bytes, closed: bool, sh: Shared, ch: Choice, name: Bytes)
    requires CanStep(h, inp, closed, ch)
    requires h.pc.Work? && h.pc.task.Save? && ch.ok ==> h.pc.task.job.name != name
    ensures SameAt(sh.disk, Step(c, n, h, inp, closed, sh, ch).sh.disk, PathOf(name))
  {
    DiskEffect(c, n, h, inp, closed, sh, ch);
    if h.pc.Work? && h.pc.task.Save? {
      PathInjective(h.pc.task.job.name, name);
    }
  }

  /**
   * Names do not share files: in every run, what the disk holds for a name is what it held before the run,
   * or the plaintext of the last save under that very name, whatever was saved under other names since.
   */
  lemma NameHistory(c: Suite, w: Server, ms: seq<Move>, name: Bytes)
    requires Fresh(w)
    ensures var sh, path := Run(c, w, ms).sh, PathOf(name);
            if forall k :: 0 <= k < |sh.log| && sh.log[k].Saved? ==> sh.log[k].name != name
            then SameAt(w.sh.disk, sh.disk, path)
            else exists j: nat :: LastSaveOf(sh.log, name, j) && path in sh.disk && sh.disk[path] == sh.log[j].data
  {
    DiskHistory(c, w, ms, PathOf(name));
    var log := Run(c, w, ms).sh.log;
    forall k | 0 <= k < |log| && log[k].Saved? ensures PathOf(log[k].name) == PathOf(name) <==> log[k].name == name {
      PathInjective(log[k].name, name);
    }
    forall j: nat | LastSave(log, PathOf(name), j) ensures LastSaveOf(log, name, j) {
    }
  }

  function CountRegistered(log: seq<Event>): nat {
    if log == [] then 0 else CountRegistered(log[..|log| - 1]) + (if log[|log| - 1].Registered? then 1 else 0)
  }

  function CountFileAdded(log: seq<Event>): nat {
    if log == [] then 0 else CountFileAdded(log[..|log| - 1]) + (if log[|log| - 1].FileAdded? then 1 else 0)
  }

  lemma {:induction false} CountsAreLengths(log: seq<Event>)
    ensures |Registrations(log)| == CountRegistered(log) && |FilesAdded(log)| == CountFileAdded(log)
  {
    if log != [] {
      CountsAreLengths(log[..|log| - 1]);
    }
  }

  /** Clients table: rows are the initial ones followed by one per successful insert, ids and names stay unique. */
  lemma ClientsConserved(c: Suite, w: Server, ms: seq<Move>)
    requires Fresh(w)
    ensures var sh := Run(c, w, ms).sh;
            && ClientKeys(sh.clients) == ClientKeys(w.sh.clients) + Registrations(sh.log)
            && |sh.clients| == |w.sh.clients| + CountRegistered(sh.log)
            && UniqueClients(sh.clients)
  {
    RunInvariants(c, w, ms);
    CountsAreLengths(Run(c, w, ms).sh.log);
  }

  // ----- Registrations over runs -----

  lemma {:induction false} InRegistrations(log: seq<Event>, p: nat) returns (a: nat)
    requires p < |log| && log[p].Registered?
    ensures a < |Registrations(log)| && Registrations(log)[a] == (BytesLe(log[p].id), log[p].name)
  {
    if p == |log| - 1 {
      a := |Registrations(log[..|log| - 1])|;
    } else {
      a := InRegistrations(log[..|log| - 1], p);
    }
  }

  predicate AllApart(keys: seq<(Bytes, Bytes)>) {
    forall a, b :: 0 <= a < b < |keys| ==> keys[a].0 != keys[b].0 && keys[a].1 != keys[b].1
  }

  lemma {:induction false} PositionsApart(log: seq<Event>, p: nat, q: nat)
    requires p < q < |log| && log[p].Registered? && log[q].Registered? && AllApart(Registrations(log))
    ensures log[p].id != log[q].id && log[p].name != log[q].name
  {
    var front := log[..|log| - 1];
    if q == |log| - 1 {
      var a := InRegistrations(front, p);
      assert Registrations(log)[a] == Registrations(front)[a];
      assert Registrations(log)[|Registrations(front)|] == (BytesLe(log[q].id), log[q].name);
    } else {
      assert forall a :: 0 <= a < |Registrations(front)| ==> Registrations(log)[a] == Registrations(front)[a];
      PositionsApart(front, p, q);
    }
  }

  lemma SuffixApart(t: seq<ClientRow>, front: seq<(Bytes, Bytes)>, keys: seq<(Bytes, Bytes)>)
    requires UniqueClients(t) && ClientKeys(t) == front + keys
    ensures AllApart(keys)
  {
    forall a, b | 0 <= a < b < |keys| ensures keys[a].0 != keys[b].0 && keys[a].1 != keys[b].1 {
      assert keys[a] == ClientKeys(t)[|front| + a] && keys[b] == ClientKeys(t)[|front| + b];
    }
  }

  lemma RegistrationsApart(c: Suite, w: Server, ms: seq<Move>)
    requires Fresh(w)
    ensures AllApart(Registrations(Run(c, w, ms).sh.log))
  {
    ClientsConserved(c, w, ms);
    var sh := Run(c, w, ms).sh;
    SuffixApart(sh.clients, ClientKeys(w.sh.clients), Registrations(sh.log));
  }

  /** Row `k` is the one this run inserted for this id and name; it was not there before. */
  predicate NewRow(w: Server, w': Server, k: nat, id: Bytes, name: Bytes) {
    |w.sh.clients| <= k < |w'.sh.clients| && w'.sh.clients[k].id == BytesLe(id) && w'.sh.clients[k].name == name
  }

  /** A handler that answered REGISTRATION_SUCCESS answered with its id, for which this run inserted a row. */
  lemma AcceptedHasRow(c: Suite, w: Server, ms: seq<Move>, i: nat) returns (k: nat)
    requires Fresh(w)
    requires var w' := Run(c, w, ms); i < |w'.conns| && Replied(w'.conns[i].h, REGISTRATION_SUCCESS)
    ensures var w' := Run(c, w, ms);
            var h := w'.conns[i].h;
            && NewRow(w, w', k, h.id, h.name)
            && forall r :: r in h.replies && r.code == REGISTRATION_SUCCESS ==> r.payload == h.id
  {
    RunConsistent(c, w, ms);
    ClientsConserved(c, w, ms);
    var w' := Run(c, w, ms);
    var h := w'.conns[i].h;
    assert Consistent(c, w'.sh.log, i, h);
    var p :| 0 <= p < |w'.sh.log| && w'.sh.log[p] == Registered(i, h.id, h.name);
    var a := InRegistrations(w'.sh.log, p);
    k := |w.sh.clients| + a;
    assert ClientKeys(w'.sh.clients)[k] == (BytesLe(h.id), h.name);
  }

  /** No two handlers answer REGISTRATION_SUCCESS with the same id, or for the same name, however they interleave. */
  lemma AcceptedDiffer(c: Suite, w: Server, ms: seq<Move>, i: nat, j: nat)
    requires Fresh(w)
    requires var w' := Run(c, w, ms);
             && i < |w'.conns| && j < |w'.conns| && i != j
             && Replied(w'.conns[i].h, REGISTRATION_SUCCESS) && Replied(w'.conns[j].h, REGISTRATION_SUCCESS)
    ensures var w' := Run(c, w, ms);
            w'.conns[i].h.id != w'.conns[j].h.id && w'.conns[i].h.name != w'.conns[j].h.name
  {
    RunConsistent(c, w, ms);
    RegistrationsApart(c, w, ms);
    var w' := Run(c, w, ms);
    var log, hi, hj := w'.sh.log, w'.conns[i].h, w'.conns[j].h;
    assert Consistent(c, log, i, hi) && Consistent(c, log, j, hj);
    var p :| 0 <= p < |log| && log[p] == Registered(i, hi.id, hi.name);
    var q :| 0 <= q < |log| && log[q] == Registered(j, hj.id, hj.name);
    if p < q {
      PositionsApart(log, p, q);
    } else {
      PositionsApart(log, q, p);
    }
  }

  /** A handler that answered REGISTRATION_FAILED inserted no row in the whole run and has stopped. */
  lemma RejectedAddsNoRow(c: Suite, w: Server, ms: seq<Move>, i: nat)
    requires Fresh(w)
    requires var w' := Run(c, w, ms); i < |w'.conns| && Replied(w'.conns[i].h, REGISTRATION_FAILED)
    ensures var w' := Run(c, w, ms);
            && w'.conns[i].h.pc == Stopped(false) && NoneRegistered(w'.sh.log, i)
            && !Replied(w'.conns[i].h, REGISTRATION_SUCCESS)
            && ClientKeys(w'.sh.clients) == ClientKeys(w.sh.clients) + Registrations(w'.sh.log)
  {
    RunConsistent(c, w, ms);
    ClientsConserved(c, w, ms);
    assert Consistent(c, Run(c, w, ms).sh.log, i, Run(c, w, ms).conns[i].h);
  }

  /** Move `k` of the run is the insert of handler `i`, and it is refused. */
  ghost predicate RefusedAt(c: Suite, w: Server, ms: seq<Move>, i: nat, k: nat) {
    && k < |ms| && ms[k].Advance? && ms[k].i == i
    && var b := Run(c, w, ms[..k]); Enabled(b, ms[k]) && Refuses(b.conns[i].h, b.sh, ms[k].ch)
  }

  ghost predicate Refused(c: Suite, w: Server, ms: seq<Move>, i: nat) {
    exists k: nat :: RefusedAt(c, w, ms, i, k)
  }

  lemma RefusedSnoc(c: Suite, w: Server, ms: seq<Move>, m: Move, i: nat)
    ensures Refused(c, w, ms + [m], i) <==> Refused(c, w, ms, i) || RefusedAt(c, w, ms + [m], i, |ms|)
  {
    assert forall k :: 0 <= k < |ms| ==> (ms + [m])[..k] == ms[..k];
    if k: nat :| RefusedAt(c, w, ms, i, k) {
      assert RefusedAt(c, w, ms + [m], i, k);
    }
    if k: nat :| RefusedAt(c, w, ms + [m], i, k) {
      assert k == |ms| || RefusedAt(c, w, ms, i, k);
    }
  }

  lemma {:induction false} RunAnswerFits(c: Suite, w: Server, ms: seq<Move>, i: nat)
    requires Fresh(w)
    ensures Refused(c, w, ms, i) ==> i < |Run(c, w, ms).conns|
    ensures i < |Run(c, w, ms).conns| ==> AnswerFits(Run(c, w, ms).conns[i].h, Refused(c, w, ms, i))
  {
    if ms != [] {
      var front, m := ms[..|ms| - 1], ms[|ms| - 1];
      var b := Run(c, w, front);
      RunAnswerFits(c, w, front, i);
      RefusedSnoc(c, w, front, m, i);
      assert front + [m] == ms && ms[..|front|] == front;
      if m.Advance? && m.i == i && Enabled(b, m) {
        RunConsistent(c, w, front);
        assert Consistent(c, b.sh.log, i, b.conns[i].h);
        StepAnswerFits(c, i, b.conns[i].h, b.conns[i].inp, b.conns[i].closed, b.sh, m.ch, Refused(c, w, front, i));
      }
    }
  }

  /**
   * A handler that answered at all answered REGISTRATION_FAILED exactly when its insert failed or found id or
   * name taken.
   */
  lemma FailedMeansRefused(c: Suite, w: Server, ms: seq<Move>, i: nat)
    requires Fresh(w)
    requires var w' := Run(c, w, ms); i < |w'.conns| && w'.conns[i].h.replies != []
    ensures Replied(Run(c, w, ms).conns[i].h, REGISTRATION_FAILED) <==> Refused(c, w, ms, i)
  {
    RunAnswerFits(c, w, ms, i);
    RunConsistent(c, w, ms);
    assert Consistent(c, Run(c, w, ms).sh.log, i, Run(c, w, ms).conns[i].h);
  }

  /** Files table: one row per successful insert, none lost or renamed, verified flags only rise. */
  lemma FilesConserved(c: Suite, w: Server, ms: seq<Move>)
    requires Fresh(w)
    ensures var sh := Run(c, w, ms).sh;
            && FileKeys(sh.files) == FileKeys(w.sh.files) + FilesAdded(sh.log)
            && |sh.files| == |w.sh.files| + CountFileAdded(sh.log)
            && (forall i :: 0 <= i < |w.sh.files| && w.sh.files[i].verified ==> sh.files[i].verified)
  {
    RunInvariants(c, w, ms);
    RunGrows(c, w, ms);
    CountsAreLengths(Run(c, w, ms).sh.log);
  }
}
