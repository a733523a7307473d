/**
 * The server under arbitrary peers: any number of handlers, interleaved step by
 * step, fed arbitrary bytes. What is proved here holds against every client.
 */
module ServerWorld {
  import opened ByteStrings
  import opened Cipher
  import opened Wire
  import opened Tables
  import opened Handler

  /** A connection: its handler, the bytes not yet received, whether the peer has closed. */
  datatype Conn = Conn(h: Thread, inp: Bytes, closed: bool)

  datatype Server = Server(sh: Shared, conns: seq<Conn>)

  datatype Move =
    | Accept(key: Block)
    | Deliver(i: nat, bytes: Bytes, close: bool)
    | Advance(i: nat, ch: Choice)

  predicate Enabled(w: Server, m: Move) {
    match m
    case Accept(_) => true
    case Deliver(i, _, _) => i < |w.conns| && !w.conns[i].closed
    case Advance(i, ch) => i < |w.conns| && CanStep(w.conns[i].h, w.conns[i].inp, w.conns[i].closed, ch)
  }

  /** One move; a move that is not enabled changes nothing. */
  function Next(c: Suite, w: Server, m: Move): Server {
    if !Enabled(w, m) then w else
      match m
      case Accept(key) => w.(conns := w.conns + [Conn(NewThread(key), [], false)])
      case Deliver(i, bytes, close) =>
        w.(conns := w.conns[i := Conn(w.conns[i].h, w.conns[i].inp + bytes, close)])
      case Advance(i, ch) =>
        var t := Step(c, i, w.conns[i].h, w.conns[i].inp, w.conns[i].closed, w.sh, ch);
        Server(t.sh, w.conns[i := Conn(t.h, t.inp, w.conns[i].closed)])
  }

  function Run(c: Suite, w: Server, ms: seq<Move>): Server {
    if ms == [] then w else Next(c, Run(c, w, ms[..|ms| - 1]), ms[|ms| - 1])
  }

  /** Before the first connection; the tables and the disk may hold anything from earlier. */
  predicate Fresh(w: Server) {
    w.conns == [] && w.sh.log == [] && UniqueClients(w.sh.clients)
  }

  // ----- Growth: what no step undoes -----

  /** Client rows keep id and name, file rows keep name, path and client, verified rows stay verified. */
  ghost predicate Grows(a: Shared, b: Shared) {
    && |a.clients| <= |b.clients| && |a.files| <= |b.files| && a.log <= b.log
    && (forall i :: 0 <= i < |a.clients| ==>
          b.clients[i].id == a.clients[i].id && b.clients[i].name == a.clients[i].name)
    && (forall i :: 0 <= i < |a.files| ==>
          && b.files[i].name == a.files[i].name && b.files[i].path == a.files[i].path
          && b.files[i].client == a.files[i].client && (a.files[i].verified ==> b.files[i].verified))
  }

  lemma RegistrationGrows(n: nat, h: Thread, inp: Bytes, sh: Shared, ch: Choice, t: Task)
    requires t.RegInsert? || t.RegSeen? || t.RegReply?
    ensures Grows(sh, RegistrationTask(n, h, inp, sh, ch, t).sh)
  {
  }

  lemma KeyGrows(c: Suite, h: Thread, inp: Bytes, sh: Shared, ch: Choice, t: Task)
    requires t.KeyStore? || t.KeySeen? || t.KeyReply?
    ensures Grows(sh, KeyTask(c, h, inp, sh, ch, t).sh)
  {
  }

  lemma FileGrows(c: Suite, n: nat, h: Thread, inp: Bytes, sh: Shared, ch: Choice, t: Task)
    requires t.FileInsert? || t.FileSeen? || t.FileReply?
    ensures Grows(sh, FileTask(c, n, h, inp, sh, ch, t).sh)
  {
  }

  lemma VerdictGrows(n: nat, h: Thread, inp: Bytes, sh: Shared, ch: Choice, t: Task)
    requires t.Acknowledge? || t.Save? || t.MarkVerified? || t.VerifiedSeen? || t.FinalAck?
    ensures Grows(sh, VerdictTask(n, h, inp, sh, ch, t).sh)
  {
  }

  lemma StepGrows(c: Suite, n: nat, h: Thread, inp: Bytes, closed: bool, sh: Shared, ch: Choice)
    requires CanStep(h, inp, closed, ch)
    ensures Grows(sh, Step(c, n, h, inp, closed, sh, ch).sh)
  {
    if h.pc.Work? {
      var t := h.pc.task;
      if t.RegInsert? || t.RegSeen? || t.RegReply? {
        RegistrationGrows(n, h, inp, sh, ch, t);
      } else if t.KeyStore? || t.KeySeen? || t.KeyReply? {
        KeyGrows(c, h, inp, sh, ch, t);
      } else if t.FileInsert? || t.FileSeen? || t.FileReply? {
        FileGrows(c, n, h, inp, sh, ch, t);
      } else {
        VerdictGrows(n, h, inp, sh, ch, t);
      }
    }
  }

  lemma GrowsTransitive(a: Shared, b: Shared, d: Shared)
    requires Grows(a, b) && Grows(b, d)
    ensures Grows(a, d)
  {
  }

  lemma {:induction false} RunGrows(c: Suite, w: Server, ms: seq<Move>)
    ensures Grows(w.sh, Run(c, w, ms).sh)
  {
    if ms != [] {
      var before, m := Run(c, w, ms[..|ms| - 1]), ms[|ms| - 1];
      RunGrows(c, w, ms[..|ms| - 1]);
      if m.Advance? && Enabled(before, m) {
        var k := before.conns[m.i];
        StepGrows(c, m.i, k.h, k.inp, k.closed, before.sh, m.ch);
      }
      GrowsTransitive(w.sh, before.sh, Run(c, w, ms).sh);
    }
  }

  // ----- The tables and the disk as functions of history -----

  function ClientKeys(t: seq<ClientRow>): (k: seq<(Bytes, Bytes)>)
    ensures |k| == |t| && forall i :: 0 <= i < |t| ==> k[i] == (t[i].id, t[i].name)
  {
    seq(|t|, i requires 0 <= i < |t| => (t[i].id, t[i].name))
  }

  function FileKeys(t: seq<FileRow>): (k: seq<(Bytes, Bytes, Bytes)>)
    ensures |k| == |t| && forall i :: 0 <= i < |t| ==> k[i] == (t[i].name, t[i].path, t[i].client)
  {
    seq(|t|, i requires 0 <= i < |t| => (t[i].name, t[i].path, t[i].client))
  }

  function Registrations(log: seq<Event>): seq<(Bytes, Bytes)> {
    if log == [] then [] else
      Registrations(log[..|log| - 1]) +
      match log[|log| - 1]
      case Registered(_, id, name) => [(BytesLe(id), name)]
      case _ => []
  }

  function FilesAdded(log: seq<Event>): seq<(Bytes, Bytes, Bytes)> {
    if log == [] then [] else
      FilesAdded(log[..|log| - 1]) +
      match log[|log| - 1]
      case FileAdded(_, id, name) => [(name, PathOf(name), BytesLe(id))]
      case _ => []
  }

  function Replay(disk: map<Bytes, Bytes>, log: seq<Event>): map<Bytes, Bytes> {
    if log == [] then disk else
      var d := Replay(disk, log[..|log| - 1]);
      match log[|log| - 1]
      case Saved(_, _, name, data) => d[PathOf(name) := data]
      case _ => d
  }

  lemma HistorySnoc(disk: map<Bytes, Bytes>, log: seq<Event>, e: Event)
    ensures Registrations(log + [e]) ==
            Registrations(log) + (if e.Registered? then [(BytesLe(e.id), e.name)] else [])
    ensures FilesAdded(log + [e]) ==
            FilesAdded(log) + (if e.FileAdded? then [(e.name, PathOf(e.name), BytesLe(e.id))] else [])
    ensures Replay(disk, log + [e]) ==
            if e.Saved? then Replay(disk, log)[PathOf(e.name) := e.data] else Replay(disk, log)
  {
    assert (log + [e])[..|log|] == log;
  }

  /** The tables and the disk are what the log says, starting from `s0`; ids and names are unique. */
  ghost predicate Accounted(s0: Shared, sh: Shared) {
    && ClientKeys(sh.clients) == ClientKeys(s0.clients) + Registrations(sh.log)
    && FileKeys(sh.files) == FileKeys(s0.files) + FilesAdded(sh.log)
    && sh.disk == Replay(s0.disk, sh.log)
    && UniqueClients(sh.clients)
  }

  /** The event a step adds to the log, if any. */
  predicate Adds(sh: Shared, sh': Shared, e: Event) {
    sh'.log == sh.log + [e]
  }

  /** A step adds a client row exactly when it logs a registration, and the row's id and name were free. */
  ghost predicate ClientEffect(n: nat, h: Thread, sh: Shared, sh': Shared, ch: Choice) {
    if h.pc.Work? && h.pc.task.RegInsert? && sh'.clients != sh.clients
    then Adds(sh, sh', Registered(n, ch.uuid, h.pc.task.name))
         && !Taken(sh.clients, BytesLe(ch.uuid), h.pc.task.name)
         && ClientKeys(sh'.clients) == ClientKeys(sh.clients) + [(BytesLe(ch.uuid), h.pc.task.name)]
    else ClientKeys(sh'.clients) == ClientKeys(sh.clients)
         && (sh'.log == sh.log || exists e :: Adds(sh, sh', e) && !e.Registered?)
  }

  /** A step adds a files row exactly when it logs it. */
  ghost predicate FileEffect(n: nat, h: Thread, sh: Shared, sh': Shared, ch: Choice) {
    if h.pc.Work? && h.pc.task.FileInsert? && ch.ok
    then Adds(sh, sh', FileAdded(n, h.id, h.pc.task.up.name))
         && FileKeys(sh'.files) == FileKeys(sh.files) + [(h.pc.task.up.name, PathOf(h.pc.task.up.name), BytesLe(h.id))]
    else FileKeys(sh'.files) == FileKeys(sh.files)
         && (sh'.log == sh.log || exists e :: Adds(sh, sh', e) && !e.FileAdded?)
  }

  lemma RegistrationEffect(n: nat, h: Thread, inp: Bytes, sh: Shared, ch: Choice)
    requires h.pc.Work? && (h.pc.task.RegInsert? || h.pc.task.RegSeen? || h.pc.task.RegReply?)
    ensures var sh' := RegistrationTask(n, h, inp, sh, ch, h.pc.task).sh;
            ClientEffect(n, h, sh, sh', ch) && FileEffect(n, h, sh, sh', ch)
  {
    var sh' := RegistrationTask(n, h, inp, sh, ch, h.pc.task).sh;
    if |sh'.log| > |sh.log| {
      assert Adds(sh, sh', sh'.log[|sh.log|]);
    }
  }

  lemma KeyEffect(c: Suite, n: nat, h: Thread, inp: Bytes, sh: Shared, ch: Choice)
    requires h.pc.Work? && (h.pc.task.KeyStore? || h.pc.task.KeySeen? || h.pc.task.KeyReply?)
    ensures var sh' := KeyTask(c, h, inp, sh, ch, h.pc.task).sh;
            ClientEffect(n, h, sh, sh', ch) && FileEffect(n, h, sh, sh', ch)
  {
  }

  lemma UploadEffect(c: Suite, n: nat, h: Thread, inp: Bytes, sh: Shared, ch: Choice)
    requires h.pc.Work? && (h.pc.task.FileInsert? || h.pc.task.FileSeen? || h.pc.task.FileReply?)
    ensures var sh' := FileTask(c, n, h, inp, sh, ch, h.pc.task).sh;
            ClientEffect(n, h, sh, sh', ch) && FileEffect(n, h, sh, sh', ch)
  {
    var sh' := FileTask(c, n, h, inp, sh, ch, h.pc.task).sh;
    if |sh'.log| > |sh.log| {
      assert Adds(sh, sh', sh'.log[|sh.log|]);
    }
  }

  lemma VerdictEffect(n: nat, h: Thread, inp: Bytes, sh: Shared, ch: Choice)
    requires h.pc.Work?
    requires var t := h.pc.task; t.Acknowledge? || t.Save? || t.MarkVerified? || t.VerifiedSeen? || t.FinalAck?
    ensures var sh' := VerdictTask(n, h, inp, sh, ch, h.pc.task).sh;
            ClientEffect(n, h, sh, sh', ch) && FileEffect(n, h, sh, sh', ch)
  {
    var sh' := VerdictTask(n, h, inp, sh, ch, h.pc.task).sh;
    if |sh'.log| > |sh.log| {
      assert Adds(sh, sh', sh'.log[|sh.log|]);
    }
  }

  lemma ReceiveEffect(n: nat, h: Thread, inp: Bytes, closed: bool, sh: Shared, ch: Choice)
    requires !h.pc.Work? && CanStep(h, inp, closed, ch)
    ensures var sh' := ReceiveStep(n, h, inp, sh, ch.k).sh;
            ClientEffect(n, h, sh, sh', ch) && FileEffect(n, h, sh, sh', ch)
  {
    var sh' := ReceiveStep(n, h, inp, sh, ch.k).sh;
    if |sh'.log| > |sh.log| {
      assert Adds(sh, sh', sh'.log[|sh.log|]);
    }
  }

  lemma TablesEffect(c: Suite, n: nat, h: Thread, inp: Bytes, closed: bool, sh: Shared, ch: Choice)
    requires CanStep(h, inp, closed, ch)
    ensures var sh' := Step(c, n, h, inp, closed, sh, ch).sh;
            ClientEffect(n, h, sh, sh', ch) && FileEffect(n, h, sh, sh', ch)
  {
    if !h.pc.Work? {
      ReceiveEffect(n, h, inp, closed, sh, ch);
    } else {
      var t := h.pc.task;
      if t.RegInsert? || t.RegSeen? || t.RegReply? {
        RegistrationEffect(n, h, inp, sh, ch);
      } else if t.KeyStore? || t.KeySeen? || t.KeyReply? {
        KeyEffect(c, n, h, inp, sh, ch);
      } else if t.FileInsert? || t.FileSeen? || t.FileReply? {
        UploadEffect(c, n, h, inp, sh, ch);
      } else {
        VerdictEffect(n, h, inp, sh, ch);
      }
    }
  }

  /** A step changes the disk only when it saves the plaintext of its job, and then logs that save. */
  lemma DiskEffect(c: Suite, n: nat, h: Thread, inp: Bytes, closed: bool, sh: Shared, ch: Choice)
    requires CanStep(h, inp, closed, ch)
    ensures var sh' := Step(c, n, h, inp, closed, sh, ch).sh;
            if h.pc.Work? && h.pc.task.Save? && ch.ok
            then var job := h.pc.task.job;
                 Adds(sh, sh', Saved(n, h.id, job.name, job.data)) && sh'.disk == sh.disk[PathOf(job.name) := job.data]
            else sh'.disk == sh.disk && (sh'.log == sh.log || exists e :: Adds(sh, sh', e) && !e.Saved?)
  {
    var sh' := Step(c, n, h, inp, closed, sh, ch).sh;
    if |sh'.log| > |sh.log| {
      assert Adds(sh, sh', sh'.log[|sh.log|]);
    }
  }

  lemma UniqueByKeys(a: seq<ClientRow>, b: seq<ClientRow>, id: Bytes, name: Bytes)
    requires UniqueClients(a)
    requires ClientKeys(b) == ClientKeys(a) || (ClientKeys(b) == ClientKeys(a) + [(id, name)] && !Taken(a, id, name))
    ensures UniqueClients(b)
  {
    assert |a| == |ClientKeys(a)| && |b| == |ClientKeys(b)|;
    forall i, j | 0 <= i < j < |b| ensures b[i].id != b[j].id && b[i].name != b[j].name {
      assert ClientKeys(b)[i] == (b[i].id, b[i].name) && ClientKeys(b)[j] == (b[j].id, b[j].name);
      assert ClientKeys(a)[i] == (a[i].id, a[i].name);
      if j < |a| {
        assert ClientKeys(a)[j] == (a[j].id, a[j].name);
      } else {
        assert a[i] in a;
      }
    }
  }

  /** What the tables, the disk and the log of two states have to do with each other when nothing is lost. */
  ghost predicate Accounts(sh: Shared, sh': Shared) {
    if sh'.log == sh.log
    then ClientKeys(sh'.clients) == ClientKeys(sh.clients) && FileKeys(sh'.files) == FileKeys(sh.files)
         && sh'.disk == sh.disk
    else
      && |sh'.log| == |sh.log| + 1 && sh'.log == sh.log + [sh'.log[|sh.log|]]
      && var e := sh'.log[|sh.log|];
         && ClientKeys(sh'.clients) ==
            ClientKeys(sh.clients) + (if e.Registered? then [(BytesLe(e.id), e.name)] else [])
         && FileKeys(sh'.files) ==
            FileKeys(sh.files) + (if e.FileAdded? then [(e.name, PathOf(e.name), BytesLe(e.id))] else [])
         && sh'.disk == if e.Saved? then sh.disk[PathOf(e.name) := e.data] else sh.disk
  }

  lemma AccountedKept(s0: Shared, sh: Shared, sh': Shared)
    requires Accounted(s0, sh) && Accounts(sh, sh') && UniqueClients(sh'.clients)
    ensures Accounted(s0, sh')
  {
    if sh'.log != sh.log {
      HistorySnoc(s0.disk, sh.log, sh'.log[|sh.log|]);
    }
  }

  lemma StepAccounts(c: Suite, n: nat, h: Thread, inp: Bytes, closed: bool, sh: Shared, ch: Choice)
    requires CanStep(h, inp, closed, ch)
    ensures Accounts(sh, Step(c, n, h, inp, closed, sh, ch).sh)
  {
    TablesEffect(c, n, h, inp, closed, sh, ch);
    DiskEffect(c, n, h, inp, closed, sh, ch);
  }

  lemma StepUnique(c: Suite, n: nat, h: Thread, inp: Bytes, closed: bool, sh: Shared, ch: Choice)
    requires CanStep(h, inp, closed, ch) && UniqueClients(sh.clients)
    ensures UniqueClients(Step(c, n, h, inp, closed, sh, ch).sh.clients)
  {
    TablesEffect(c, n, h, inp, closed, sh, ch);
    var sh' := Step(c, n, h, inp, closed, sh, ch).sh;
    if h.pc.Work? && h.pc.task.RegInsert? {
      UniqueByKeys(sh.clients, sh'.clients, BytesLe(ch.uuid), h.pc.task.name);
    } else {
      UniqueByKeys(sh.clients, sh'.clients, [], []);
    }
  }

  lemma StepAccounted(c: Suite, n: nat, s0: Shared, h: Thread, inp: Bytes, closed: bool, sh: Shared, ch: Choice)
    requires CanStep(h, inp, closed, ch) && Accounted(s0, sh)
    ensures Accounted(s0, Step(c, n, h, inp, closed, sh, ch).sh)
  {
    StepAccounts(c, n, h, inp, closed, sh, ch);
    StepUnique(c, n, h, inp, closed, sh, ch);
    AccountedKept(s0, sh, Step(c, n, h, inp, closed, sh, ch).sh);
  }

  // ----- Verified means confirmed -----

  /** A confirmation follows the checksum it confirms, a save follows its confirmation, in the same handler. */
  ghost predicate Ordered(log: seq<Event>) {
    forall j :: 0 <= j < |log| ==>
      match log[j]
      case Confirmed(h, id, name, data) => CrcSent(h, id, name, data) in log[..j]
      case Saved(h, id, name, data) => Confirmed(h, id, name, data) in log[..j]
      case _ => true
  }

  /** What the position of handler `n` says about its own past. */
  ghost predicate Justified(log: seq<Event>, n: nat, h: Thread) {
    match h.pc
    case AwaitHeader(Verdict(job)) => CrcSent(n, h.id, job.name, job.data) in log
    case AwaitPayload(Verdict(job), _, _) => CrcSent(n, h.id, job.name, job.data) in log
    case Work(Acknowledge(job, code)) => code == CRC_SUCCESS ==> Confirmed(n, h.id, job.name, job.data) in log
    case Work(Save(job)) => Confirmed(n, h.id, job.name, job.data) in log
    case Work(MarkVerified(job)) => Saved(n, h.id, job.name, job.data) in log
    case _ => true
  }

  /** Some handler saved, after confirmation, a plaintext for this client and name. */
  ghost predicate SavedFor(log: seq<Event>, client: Bytes, name: Bytes) {
    exists h: nat, id, data :: BytesLe(id) == client && Saved(h, id, name, data) in log
  }

  ghost predicate RowsEarned(s0: Shared, sh: Shared) {
    forall i :: 0 <= i < |sh.files| && sh.files[i].verified ==>
      (i < |s0.files| && s0.files[i].verified) || SavedFor(sh.log, sh.files[i].client, sh.files[i].name)
  }

  ghost predicate Earned(s0: Shared, w: Server) {
    && Ordered(w.sh.log)
    && (forall i :: 0 <= i < |w.conns| ==> Justified(w.sh.log, i, w.conns[i].h))
    && RowsEarned(s0, w.sh)
    && Grows(s0, w.sh)
  }

  lemma OrderedSnoc(log: seq<Event>, e: Event)
    requires Ordered(log)
    requires match e
             case Confirmed(h, id, name, data) => CrcSent(h, id, name, data) in log
             case Saved(h, id, name, data) => Confirmed(h, id, name, data) in log
             case _ => true
    ensures Ordered(log + [e])
  {
    var all := log + [e];
    forall j | 0 <= j < |all| ensures
      match all[j]
      case Confirmed(h, id, name, data) => CrcSent(h, id, name, data) in all[..j]
      case Saved(h, id, name, data) => Confirmed(h, id, name, data) in all[..j]
      case _ => true
    {
      assert all[..j] == log[..j];
    }
  }

  lemma JustifiedMonotone(log: seq<Event>, log': seq<Event>, n: nat, h: Thread)
    requires Justified(log, n, h) && log <= log'
    ensures Justified(log', n, h)
  {
    assert forall e :: e in log ==> e in log';
  }

  /** The new position is justified by the old one, and so is the event logged on the way, if any. */
  ghost predicate Follows(log: seq<Event>, log': seq<Event>, n: nat, h': Thread) {
    && log <= log' && |log'| <= |log| + 1
    && (forall e :: e in log' && e !in log ==>
          match e
          case Confirmed(h, id, name, data) => CrcSent(h, id, name, data) in log
          case Saved(h, id, name, data) => Confirmed(h, id, name, data) in log
          case _ => true)
    && Justified(log', n, h')
  }

  lemma ReceiveFollows(n: nat, h: Thread, inp: Bytes, closed: bool, sh: Shared, ch: Choice)
    requires !h.pc.Work? && CanStep(h, inp, closed, ch) && Justified(sh.log, n, h)
    ensures var t := ReceiveStep(n, h, inp, sh, ch.k); Follows(sh.log, t.sh.log, n, t.h)
  {
    var t := ReceiveStep(n, h, inp, sh, ch.k);
    if |t.sh.log| > |sh.log| {
      assert t.sh.log[|sh.log|] in t.sh.log;
    }
    assert forall e :: e in sh.log ==> e in t.sh.log;
  }

  lemma TaskFollows(c: Suite, n: nat, h: Thread, inp: Bytes, sh: Shared, ch: Choice)
    requires h.pc.Work? && Justified(sh.log, n, h)
    ensures var t := TaskStep(c, n, h, inp, sh, ch, h.pc.task); Follows(sh.log, t.sh.log, n, t.h)
  {
    var t := TaskStep(c, n, h, inp, sh, ch, h.pc.task);
    if |t.sh.log| > |sh.log| {
      assert t.sh.log[|sh.log|] in t.sh.log;
    }
  }

  /** The event of a step, if any, and the new position are justified by the old position. */
  lemma StepJustified(c: Suite, n: nat, h: Thread, inp: Bytes, closed: bool, sh: Shared, ch: Choice)
    requires CanStep(h, inp, closed, ch) && Justified(sh.log, n, h) && Ordered(sh.log)
    ensures var t := Step(c, n, h, inp, closed, sh, ch);
            Ordered(t.sh.log) && Justified(t.sh.log, n, t.h)
  {
    var t := Step(c, n, h, inp, closed, sh, ch);
    if h.pc.Work? {
      TaskFollows(c, n, h, inp, sh, ch);
    } else {
      ReceiveFollows(n, h, inp, closed, sh, ch);
    }
    FollowsOrdered(sh.log, t.sh.log, n, t.h);
  }

  lemma FollowsOrdered(log: seq<Event>, log': seq<Event>, n: nat, h': Thread)
    requires Ordered(log) && Follows(log, log', n, h')
    ensures Ordered(log')
  {
    if |log'| > |log| {
      var e := log'[|log|];
      assert log' == log + [e] && e in log';
      if e in log {
        var j :| 0 <= j < |log| && log[j] == e;
        assert forall x :: x in log[..j] ==> x in log;
      }
      OrderedSnoc(log, e);
    } else {
      assert log' == log;
    }
  }

  lemma StepRowsEarned(c: Suite, n: nat, s0: Shared, h: Thread, inp: Bytes, closed: bool, sh: Shared, ch: Choice)
    requires CanStep(h, inp, closed, ch) && Justified(sh.log, n, h)
    requires RowsEarned(s0, sh) && |s0.files| <= |sh.files|
    ensures RowsEarned(s0, Step(c, n, h, inp, closed, sh, ch).sh)
  {
    var sh' := Step(c, n, h, inp, closed, sh, ch).sh;
    StepGrows(c, n, h, inp, closed, sh, ch);
    assert forall e :: e in sh.log ==> e in sh'.log;
    forall i | 0 <= i < |sh'.files| && sh'.files[i].verified
      ensures (i < |s0.files| && s0.files[i].verified) || SavedFor(sh'.log, sh'.files[i].client, sh'.files[i].name)
    {
      assert i < |sh.files|;
      if sh.files[i].verified {
        if !(i < |s0.files| && s0.files[i].verified) {
          var g, id, data :| BytesLe(id) == sh.files[i].client && Saved(g, id, sh.files[i].name, data) in sh.log;
          assert Saved(g, id, sh'.files[i].name, data) in sh'.log;
        }
      } else {
        assert h.pc.Work? && h.pc.task.MarkVerified?;
        var job := h.pc.task.job;
        assert Saved(n, h.id, job.name, job.data) in sh'.log;
      }
    }
  }

  lemma NextEarned(c: Suite, s0: Shared, w: Server, m: Move)
    requires Earned(s0, w)
    ensures Earned(s0, Next(c, w, m))
  {
    var w' := Next(c, w, m);
    if Enabled(w, m) && m.Advance? {
      var k := w.conns[m.i];
      StepGrows(c, m.i, k.h, k.inp, k.closed, w.sh, m.ch);
      GrowsTransitive(s0, w.sh, w'.sh);
      StepJustified(c, m.i, k.h, k.inp, k.closed, w.sh, m.ch);
      StepRowsEarned(c, m.i, s0, k.h, k.inp, k.closed, w.sh, m.ch);
      forall i | 0 <= i < |w'.conns| && i != m.i ensures Justified(w'.sh.log, i, w'.conns[i].h) {
        JustifiedMonotone(w.sh.log, w'.sh.log, i, w.conns[i].h);
      }
    }
  }

  lemma {:induction false} RunInvariants(c: Suite, w: Server, ms: seq<Move>)
    requires Fresh(w)
    ensures Accounted(w.sh, Run(c, w, ms).sh)
    ensures Earned(w.sh, Run(c, w, ms))
  {
    if ms == [] {
      assert ClientKeys(w.sh.clients) + [] == ClientKeys(w.sh.clients);
      assert FileKeys(w.sh.files) + [] == FileKeys(w.sh.files);
    } else {
      var before, m := Run(c, w, ms[..|ms| - 1]), ms[|ms| - 1];
      RunInvariants(c, w, ms[..|ms| - 1]);
      NextEarned(c, w.sh, before, m);
      if m.Advance? && Enabled(before, m) {
        var k := before.conns[m.i];
        StepAccounted(c, m.i, w.sh, k.h, k.inp, k.closed, before.sh, m.ch);
      }
    }
  }
}
