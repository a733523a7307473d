/** The server's objects as they run: the socket, the request reader, the database, the disk and the handler thread. */
module ServerCode {
  import opened ByteStrings
  import opened Cipher
  import opened Wire
  import opened Tables
  import opened Handler
  import opened ServerWorld
  import opened ServerTheorems

  /** A socket: everything the peer will still send before it closes, and everything sent to it. */
  class Socket {
    var incoming: Bytes
    var outgoing: Bytes

    /** Up to `n` bytes; none only at the end of the stream. */
    method Recv(n: nat) returns (packet: Bytes)
      modifies this`incoming
      ensures packet + incoming == old(incoming) && |packet| <= n
      ensures packet == [] ==> n == 0 || old(incoming) == []
    {
      if n == 0 || incoming == [] {
        return [];
      }
      var k :| 1 <= k <= n && k <= |incoming|;
      packet := incoming[..k];
      incoming := incoming[k..];
    }

    /** A header read: complete unless the stream ends inside it. */
    method RecvHeader() returns (data: Bytes)
      modifies this`incoming
      ensures data + incoming == old(incoming)
      ensures |data| == if |old(incoming)| < REQUEST_HEADER then |old(incoming)| else REQUEST_HEADER
    {
      var k := if |incoming| < REQUEST_HEADER then |incoming| else REQUEST_HEADER;
      data := incoming[..k];
      incoming := incoming[k..];
    }

    /** Sends the bytes, or fails without sending any. */
    method Send(data: Bytes) returns (ok: bool)
      modifies this`outgoing
      ensures outgoing == if ok then old(outgoing) + data else old(outgoing)
    {
      ok := *;
      if ok {
        outgoing := outgoing + data;
      }
    }
  }

  class IncomingRequest {
    var header: Header
    var payload: Bytes

    constructor (data: Bytes)
      ensures header == ParseHeader(data) && payload == []
    {
      header, payload := ParseHeader(data), [];
    }

    /**
     * Reads the declared number of bytes, however the socket splits them. If the stream ends
     * first the payload stays empty: there is never a partial payload.
     */
    method ReceivePayload(sock: Socket)
      requires payload == []
      modifies this`payload, sock`incoming
      ensures if header.size <= |old(sock.incoming)|
              then payload == old(sock.incoming)[..header.size] && sock.incoming == old(sock.incoming)[header.size..]
              else payload == [] && sock.incoming == []
    {
      ghost var all := sock.incoming;
      var data: Bytes := [];
      while |data| < header.size
        invariant data + sock.incoming == all && |data| <= header.size && payload == []
        decreases header.size - |data|
      {
        var packet := sock.Recv(header.size - |data|);
        if packet == [] {
          assert data + [] == data;
          return;
        }
        assert (data + packet) + sock.incoming == data + (packet + sock.incoming);
        data := data + packet;
      }
      payload := data;
      assert all[..header.size] == data && all[header.size..] == sock.incoming;
    }
  }

  /** `got` has been read of `all`, and `rest` has not. */
  ghost predicate ReadSoFar(all: Bytes, got: seq<Request>, rest: Bytes) {
    AllSendable(got) && Stream(got) + rest == all
  }

  lemma ReadsOn(all: Bytes, got: seq<Request>, rest: Bytes, q: Request)
    requires ReadSoFar(all, got, rest) && |rest| >= REQUEST_HEADER
    requires var h, body := ParseHeader(rest[..REQUEST_HEADER]), rest[REQUEST_HEADER..];
             h.size <= |body| && q == Request(h.id, h.version, h.code, body[..h.size])
    ensures ReadSoFar(all, got + [q], rest[REQUEST_HEADER..][|q.payload|..])
  {
    var later := rest[REQUEST_HEADER..][|q.payload|..];
    HeaderFrames(rest);
    StreamSnoc(got, q);
    assert rest == Frame(q) + later;
    assert (Stream(got) + Frame(q)) + later == Stream(got) + (Frame(q) + later);
  }

  /**
   * Header and payload, over and over, until a header or a payload ends early. However the socket splits the
   * payloads: a stream of whole frames gives exactly its requests, and no other stream gives a partial one.
   */
  method ReceiveRequests(sock: Socket) returns (got: seq<Request>, whole: bool)
    modifies sock`incoming
    ensures whole <==> ReadRequests(old(sock.incoming)).Some?
    ensures whole ==> got == ReadRequests(old(sock.incoming)).value && sock.incoming == []
    ensures AllSendable(got) && Stream(got) <= old(sock.incoming)
  {
    ghost var all := sock.incoming;
    got := [];
    assert [] + all == all;
    while true
      invariant ReadSoFar(all, got, sock.incoming)
      decreases |sock.incoming|
    {
      ghost var rest := sock.incoming;
      var data := sock.RecvHeader();
      if |data| < REQUEST_HEADER {
        assert data == rest;
        ReadRequestsBehind(got, rest);
        return got, data == [];
      }
      assert data == rest[..REQUEST_HEADER] && sock.incoming == rest[REQUEST_HEADER..];
      var r := new IncomingRequest(data);
      r.ReceivePayload(sock);
      if |r.payload| != r.header.size {
        ReadRequestsBehind(got, rest);
        return got, false;
      }
      var q := Request(r.header.id, r.header.version, r.header.code, r.payload);
      ReadsOn(all, got, rest, q);
      got := got + [q];
    }
  }

  /** So the requests of a client's stream all arrive, as they were sent. */
  method ReceiveStream(sock: Socket, ghost sent: seq<Request>) returns (got: seq<Request>)
    requires AllSendable(sent) && sock.incoming == Stream(sent)
    modifies sock`incoming
    ensures got == sent && sock.incoming == []
  {
    ReadRequestsOfStream(sent);
    var whole;
    got, whole := ReceiveRequests(sock);
  }

  /** Rows differ in their last-seen field at most. */
  predicate OnlySeen(t: seq<ClientRow>, t': seq<ClientRow>) {
    |t'| == |t| && forall k :: 0 <= k < |t| ==> t'[k] == t[k].(lastSeen := t'[k].lastSeen)
  }

  /** Each method runs its statement and then, under the lock once more, the last-seen update. */
  class ServerDatabase {
    var clients: seq<ClientRow>
    var files: seq<FileRow>

    /** Sets last-seen on the rows of the id, and nothing else. */
    method UpdateLastSeen(id: Bytes, now: nat)
      modifies this`clients
      ensures clients == Touch(old(clients), BytesLe(id), now)
      ensures |clients| == |old(clients)| && forall k :: 0 <= k < |clients| ==>
                clients[k] == if old(clients)[k].id == BytesLe(id)
                              then old(clients)[k].(lastSeen := Some(now)) else old(clients)[k]
    {
      clients := Touch(clients, BytesLe(id), now);
    }

    /** Inserts a row under the drawn UUID and returns it; fails, without change, as `InsertClient` does. */
    method RegisterNewClient(name: Bytes, uuid: Block, now: nat) returns (id: Option<Block>, ghost works: bool)
      modifies this`clients
      ensures var rows := InsertClient(old(clients), BytesLe(uuid), name, works);
              if rows.None? then id == None && clients == old(clients)
              else id == Some(uuid) && clients == Touch(rows.value, BytesLe(uuid), now)
      ensures id.Some? ==>
                clients == old(clients) + [ClientRow(BytesLe(uuid), name, None, None, Some(now))]
    {
      var ok := *;
      works := ok;
      if !ok || Taken(clients, BytesLe(uuid), name) {
        return None, works;
      }
      clients := clients + [ClientRow(BytesLe(uuid), name, None, None, None)];
      UpdateLastSeen(uuid, now);
      id := Some(uuid);
    }

    method AddClientKey(id: Bytes, publicKey: Bytes, sharedKey: Bytes, now: nat)
      modifies this`clients
      ensures clients == Touch(UpdateKeys(old(clients), BytesLe(id), publicKey, sharedKey), BytesLe(id), now)
      ensures |clients| == |old(clients)| && forall k :: 0 <= k < |clients| ==>
                var row := old(clients)[k];
                clients[k] == if row.id != BytesLe(id) then row
                              else ClientRow(row.id, row.name, Some(publicKey), Some(sharedKey), Some(now))
    {
      clients := UpdateKeys(clients, BytesLe(id), publicKey, sharedKey);
      UpdateLastSeen(id, now);
    }

    method RegisterNewFile(name: Bytes, path: Bytes, id: Bytes, now: nat) returns (ok: bool)
      modifies this
      ensures files == if ok then old(files) + [FileRow(name, path, BytesLe(id), false)] else old(files)
      ensures clients == if ok then Touch(old(clients), BytesLe(id), now) else old(clients)
      ensures OnlySeen(old(clients), clients)
    {
      ok := *;
      if ok {
        files := files + [FileRow(name, path, BytesLe(id), false)];
        UpdateLastSeen(id, now);
      }
    }

    method SetFileVerified(name: Bytes, id: Bytes, now: nat)
      modifies this
      ensures files == SetVerified(old(files), name, BytesLe(id))
      ensures |files| == |old(files)| && forall k :: 0 <= k < |files| ==>
                var row := old(files)[k];
                files[k] == if row.client == BytesLe(id) && row.name == name then row.(verified := true) else row
      ensures clients == Touch(old(clients), BytesLe(id), now) && OnlySeen(old(clients), clients)
    {
      files := SetVerified(files, name, BytesLe(id));
      UpdateLastSeen(id, now);
    }
  }

  class FileStore {
    var contents: map<Bytes, Bytes>

    method SaveFile(data: Bytes, path: Bytes) returns (ok: bool)
      modifies this`contents
      ensures contents == if ok then old(contents)[path := data] else old(contents)
    {
      ok := *;
      if ok {
        contents := contents[path := data];
      }
    }
  }

  // ----- Runs of one handler over a stream that will end -----

  datatype Config = Config(h: Thread, inp: Bytes, out: Bytes, sh: Shared)

  predicate Ready(a: Config, ch: Choice) {
    CanStep(a.h, a.inp, true, ch)
  }

  function Take(c: Suite, n: nat, a: Config, ch: Choice): Config
    requires Ready(a, ch)
  {
    var t := Step(c, n, a.h, a.inp, true, a.sh, ch);
    Config(t.h, t.inp, a.out + t.out, t.sh)
  }

  /** The configuration after a list of steps; `None` when one of them is not possible. */
  ghost function Path(c: Suite, n: nat, a: Config, chs: seq<Choice>): Option<Config> {
    if chs == [] then Some(a) else
      match Path(c, n, a, chs[..|chs| - 1])
      case None => None
      case Some(b) => if Ready(b, chs[|chs| - 1]) then Some(Take(c, n, b, chs[|chs| - 1])) else None
  }

  /** `b` is where some run of the handler's steps leads from `a`. */
  ghost predicate Reaches(c: Suite, n: nat, a: Config, b: Config) {
    exists chs :: Path(c, n, a, chs) == Some(b)
  }

  lemma ReachesSelf(c: Suite, n: nat, a: Config)
    ensures Reaches(c, n, a, a)
  {
    assert Path(c, n, a, []) == Some(a);
  }

  lemma ReachesStep(c: Suite, n: nat, a: Config, b: Config, ch: Choice)
    requires Reaches(c, n, a, b) && Ready(b, ch)
    ensures Reaches(c, n, a, Take(c, n, b, ch))
  {
    var chs :| Path(c, n, a, chs) == Some(b);
    PathSnoc(c, n, a, chs, b, ch);
  }

  /** The configuration when the payload loop has ended, in one reading or at the end of the stream. */
  ghost function AfterPayload(n: nat, b: Config): Config
    requires b.h.pc.AwaitPayload?
  {
    var stage, hd := b.h.pc.stage, b.h.pc.header;
    var whole := hd.size <= |b.inp|;
    var p := if whole then b.inp[..hd.size] else [];
    var h1 := if hd.whole && whole then b.h.(got := b.h.got + [Request(hd.id, hd.version, hd.code, p)]) else b.h;
    var sh1 := if stage.Verdict? && hd.code == CRC_SUCCESS
               then Logged(b.sh, Confirmed(n, b.h.id, stage.job.name, stage.job.data)) else b.sh;
    Config(OnPayload(h1, stage, hd, p), if whole then b.inp[hd.size..] else [], b.out, sh1)
  }

  /** Reading a payload changes no table and no disk, and sends nothing. */
  lemma AfterPayloadKeeps(n: nat, b: Config)
    requires b.h.pc.AwaitPayload?
    ensures var d, size := AfterPayload(n, b), b.h.pc.header.size;
            && d.inp == (if size <= |b.inp| then b.inp[size..] else [])
            && d.out == b.out && d.sh.(log := b.sh.log) == b.sh && d.h.key == b.h.key
  {
  }

  function Receiving(k: nat): Choice {
    Choice(k, true, true, Zeros(16), 0, [])
  }

  lemma ChunkTaken(c: Suite, n: nat, b: Config, k: nat)
    requires b.h.pc.AwaitPayload? && b.h.pc.acc == [] && 0 < k <= b.h.pc.header.size && k <= |b.inp|
    ensures Ready(b, Receiving(k))
    ensures Take(c, n, b, Receiving(k)) ==
            b.(h := b.h.(pc := b.h.pc.(acc := b.inp[..k])), inp := b.inp[k..])
  {
    assert [] + b.inp[..k] == b.inp[..k] && b.out + [] == b.out;
  }

  lemma LoopEnds(c: Suite, n: nat, b: Config, b1: Config)
    requires b.h.pc.AwaitPayload? && b.h.pc.acc == []
    requires var k := if b.h.pc.header.size <= |b.inp| then b.h.pc.header.size else |b.inp|;
             b1 == b.(h := b.h.(pc := b.h.pc.(acc := b.inp[..k])), inp := b.inp[k..])
    ensures Ready(b1, Receiving(0)) && Take(c, n, b1, Receiving(0)) == AfterPayload(n, b)
  {
    assert b1.out + [] == b1.out;
  }

  lemma PayloadPath(c: Suite, n: nat, a: Config, b: Config)
    requires Reaches(c, n, a, b) && b.h.pc.AwaitPayload? && b.h.pc.acc == []
    ensures Reaches(c, n, a, AfterPayload(n, b))
  {
    var k := if b.h.pc.header.size <= |b.inp| then b.h.pc.header.size else |b.inp|;
    var b1 := b.(h := b.h.(pc := b.h.pc.(acc := b.inp[..k])), inp := b.inp[k..]);
    if k == 0 {
      assert b1 == b;
    } else {
      ChunkTaken(c, n, b, k);
      ReachesStep(c, n, a, b, Receiving(k));
    }
    LoopEnds(c, n, b, b1);
    ReachesStep(c, n, a, b1, Receiving(0));
  }

  /** The receives that return parts of these sizes. */
  function Cut(parts: seq<nat>): seq<Choice> {
    seq(|parts|, i requires 0 <= i < |parts| => Receiving(parts[i]))
  }

  predicate AllPositive(parts: seq<nat>) {
    forall i :: 0 <= i < |parts| ==> parts[i] > 0
  }

  function Total(parts: seq<nat>): nat {
    if parts == [] then 0 else Total(parts[..|parts| - 1]) + parts[|parts| - 1]
  }

  /** The configuration when `k` bytes of the payload have been received. */
  function Behind(b: Config, k: nat): Config
    requires b.h.pc.AwaitPayload? && k <= |b.inp|
  {
    b.(h := b.h.(pc := b.h.pc.(acc := b.inp[..k])), inp := b.inp[k..])
  }

  lemma CutSnoc(parts: seq<nat>)
    requires parts != []
    ensures var front, k := parts[..|parts| - 1], parts[|parts| - 1];
            Cut(parts) == Cut(front) + [Receiving(k)] && Total(parts) == Total(front) + k
  {
  }

  lemma PartAdded(c: Suite, n: nat, b: Config, chs: seq<Choice>, taken: nat, k: nat)
    requires b.h.pc.AwaitPayload? && k > 0 && taken + k <= b.h.pc.header.size && taken + k <= |b.inp|
    requires Takes(c, n, b, chs, taken)
    ensures Takes(c, n, b, chs + [Receiving(k)], taken + k)
  {
    PartTaken(c, n, b, taken, k);
    PathSnoc(c, n, b, chs, Behind(b, taken), Receiving(k));
  }

  lemma NothingTaken(c: Suite, n: nat, b: Config)
    requires b.h.pc.AwaitPayload? && b.h.pc.acc == []
    ensures Path(c, n, b, []) == Some(Behind(b, 0))
  {
    assert Behind(b, 0) == b;
  }

  /** These receives are possible, one after the other, and take `k` bytes in all. */
  ghost predicate Takes(c: Suite, n: nat, b: Config, chs: seq<Choice>, k: nat)
    requires b.h.pc.AwaitPayload? && k <= |b.inp|
  {
    Path(c, n, b, chs) == Some(Behind(b, k))
  }

  lemma {:induction false} PartsTaken(c: Suite, n: nat, b: Config, parts: seq<nat>, chs: seq<Choice>, k: nat)
    requires b.h.pc.AwaitPayload? && b.h.pc.acc == [] && AllPositive(parts) && chs == Cut(parts)
    requires k == Total(parts) <= b.h.pc.header.size && k <= |b.inp|
    ensures Takes(c, n, b, chs, k)
  {
    if parts == [] {
      NothingTaken(c, n, b);
    } else {
      var front := parts[..|parts| - 1];
      CutSnoc(parts);
      PartsTaken(c, n, b, front, Cut(front), Total(front));
      PartAdded(c, n, b, Cut(front), Total(front), parts[|parts| - 1]);
    }
  }

  lemma PathSnoc(c: Suite, n: nat, a: Config, chs: seq<Choice>, b: Config, ch: Choice)
    requires Path(c, n, a, chs) == Some(b) && Ready(b, ch)
    ensures Path(c, n, a, chs + [ch]) == Some(Take(c, n, b, ch))
  {
    assert (chs + [ch])[..|chs|] == chs;
  }

  lemma PartTaken(c: Suite, n: nat, b: Config, taken: nat, k: nat)
    requires b.h.pc.AwaitPayload? && k > 0 && taken + k <= b.h.pc.header.size && taken + k <= |b.inp|
    ensures Ready(Behind(b, taken), Receiving(k))
    ensures Take(c, n, Behind(b, taken), Receiving(k)) == Behind(b, taken + k)
  {
    assert b.inp[..taken] + b.inp[taken..][..k] == b.inp[..taken + k];
    assert b.inp[taken..][k..] == b.inp[taken + k..] && b.out + [] == b.out;
  }

  /** However a payload is split into receives, the split is possible, and it leads to the same end. */
  lemma EverySplit(c: Suite, n: nat, b: Config, parts: seq<nat>)
    requires b.h.pc.AwaitPayload? && b.h.pc.acc == [] && AllPositive(parts)
    requires Total(parts) == b.h.pc.header.size <= |b.inp|
    ensures Path(c, n, b, Cut(parts) + [Receiving(0)]) == Some(AfterPayload(n, b))
  {
    PartsTaken(c, n, b, parts, Cut(parts), Total(parts));
    LoopEnds(c, n, b, Behind(b, Total(parts)));
    PathSnoc(c, n, b, Cut(parts), Behind(b, Total(parts)), Receiving(0));
  }

  /** A run of one handler is a run of the server world, in which the peer sends everything at once. */
  lemma {:induction false} PathIsRun(c: Suite, a: Config, b: Config, chs: seq<Choice>, key: Block)
    returns (ms: seq<Move>)
    requires a.h == NewThread(key) && Path(c, 0, a, chs) == Some(b)
    ensures Run(c, Server(a.sh, []), ms) == Server(b.sh, [Conn(b.h, b.inp, true)])
    decreases |chs|
  {
    if chs == [] {
      ms := [Accept(key), Deliver(0, a.inp, true)];
      assert ms[..1] == [Accept(key)] && [Accept(key)][..0] == [];
      assert [] + a.inp == a.inp;
      assert Run(c, Server(a.sh, []), ms[..1]) == Server(a.sh, [Conn(NewThread(key), [], false)]);
    } else {
      var d := Path(c, 0, a, chs[..|chs| - 1]).value;
      var front := PathIsRun(c, a, d, chs[..|chs| - 1], key);
      ms := front + [Advance(0, chs[|chs| - 1])];
      assert ms[..|ms| - 1] == front;
    }
  }

  /** So whatever `ClientHandler` does, tables, disk and history end as the theorems about the server world say. */
  lemma HandlerObeysWorld(c: Suite, a: Config, b: Config, key: Block)
    requires a.h == NewThread(key) && a.sh.log == [] && UniqueClients(a.sh.clients) && Reaches(c, 0, a, b)
    ensures Accounted(a.sh, b.sh) && UniqueClients(b.sh.clients)
    ensures var w' := Server(b.sh, [Conn(b.h, b.inp, true)]);
            forall i: nat :: i < |b.sh.files| && b.sh.files[i].verified ==>
              var row := b.sh.files[i];
              || (i < |a.sh.files| && a.sh.files[i].verified)
              || exists h: nat, id, data :: BytesLe(id) == row.client && Exchange(c, w', h, id, row.name, data)
  {
    var chs :| Path(c, 0, a, chs) == Some(b);
    var ms := PathIsRun(c, a, b, chs, key);
    RunInvariants(c, Server(a.sh, []), ms);
    ClientsConserved(c, Server(a.sh, []), ms);
    forall i: nat | i < |b.sh.files| && b.sh.files[i].verified && !(i < |a.sh.files| && a.sh.files[i].verified)
      ensures var row := b.sh.files[i];
              exists h: nat, id, data ::
                BytesLe(id) == row.client && Exchange(c, Server(b.sh, [Conn(b.h, b.inp, true)]), h, id, row.name, data)
    {
      VerifiedMeansConfirmed(c, Server(a.sh, []), ms, i);
    }
  }

  /** A step that does not receive. */
  lemma TaskTaken(c: Suite, n: nat, a: Config, ch: Choice)
    requires a.h.pc.Work?
    ensures Ready(a, ch)
    ensures var t := TaskStep(c, n, a.h, a.inp, a.sh, ch, a.h.pc.task);
            Take(c, n, a, ch) == Config(t.h, t.inp, if t.out == [] then a.out else a.out + t.out, t.sh)
  {
    assert a.out + [] == a.out;
  }

  /** The two locked sections that make an upload verified. */
  lemma MarkedAndSeen(c: Suite, n: nat, a: Config, ch: Choice)
    requires a.h.pc.Work? && a.h.pc.task.MarkVerified?
    ensures Ready(a, ch) && Ready(Take(c, n, a, ch), ch)
    ensures var job := a.h.pc.task.job;
            var files := SetVerified(a.sh.files, job.name, BytesLe(a.h.id));
            Take(c, n, Take(c, n, a, ch), ch) ==
            a.(h := FileOutcome(a.h, CRC_SUCCESS),
               sh := a.sh.(files := files, clients := Touch(a.sh.clients, BytesLe(a.h.id), ch.now)))
  {
    TaskTaken(c, n, a, ch);
    TaskTaken(c, n, Take(c, n, a, ch), ch);
  }

  /** The handler thread of one connection. */
  class ClientHandler {
    const c: Suite
    const n: nat
    const sock: Socket
    const database: ServerDatabase
    const store: FileStore
    const sharedKey: Block
    var clientId: Bytes
    var clientName: Bytes
    var publicKey: Bytes
    ghost var at: Thread
    ghost var log: seq<Event>
    ghost const start: Config

    ghost function Here(): Config
      reads this, sock, database, store
    {
      Config(at, sock.incoming, sock.outgoing, Shared(database.clients, database.files, store.contents, log))
    }

    /** The objects are where some run of the handler's steps leads from where they started. */
    ghost predicate Valid()
      reads this, sock, database, store
    {
      Reaches(c, n, start, Here()) && at.key == sharedKey
    }

    ghost predicate Synced()
      reads this
    {
      at.id == clientId && at.name == clientName && at.publicKey == publicKey
    }

    constructor (c: Suite, n: nat, sock: Socket, database: ServerDatabase, store: FileStore, key: Block,
                 ghost log: seq<Event>)
      ensures Valid() && Synced() && at == NewThread(key) && start == Here()
      ensures this.c == c && this.n == n && this.sock == sock && this.database == database && this.store == store
    {
      this.c, this.n, this.sock, this.database, this.store, this.sharedKey := c, n, sock, database, store, key;
      clientId, clientName, publicKey := [], [], [];
      at, this.log := NewThread(key), log;
      start := Config(NewThread(key), sock.incoming, sock.outgoing,
                      Shared(database.clients, database.files, store.contents, log));
      new;
      ReachesSelf(c, n, start);
    }

    /** The objects have arrived at `b`; position and log follow. */
    ghost method Arrive(b: Config)
      requires Reaches(c, n, start, b) && Here() == b.(h := at, sh := b.sh.(log := log)) && b.h.key == sharedKey
      modifies this`at, this`log
      ensures Valid() && Here() == b && at == b.h
    {
      at, log := b.h, b.sh.log;
    }

    /** The objects have made one step of the handler. */
    ghost method Stepped(a: Config, ch: Choice)
      requires Reaches(c, n, start, a) && Ready(a, ch) && a.h.key == sharedKey
      requires var b := Take(c, n, a, ch); Here() == b.(h := at, sh := b.sh.(log := log)) && b.h.key == sharedKey
      modifies this`at, this`log
      ensures Valid() && Here() == Take(c, n, a, ch) && at == Take(c, n, a, ch).h
    {
      ReachesStep(c, n, start, a, ch);
      Arrive(Take(c, n, a, ch));
    }

    method ReadHeader(ghost stage: Stage) returns (r: IncomingRequest)
      requires Valid() && at.pc == AwaitHeader(stage)
      modifies sock`incoming, this`at, this`log
      ensures fresh(r) && r.payload == []
      ensures Valid() && at == OnHeader(old(at), stage, r.header) && log == old(log)
      ensures |sock.incoming| <= |old(sock.incoming)|
      ensures r.header.code != NO_REQUEST ==> |sock.incoming| < |old(sock.incoming)|
    {
      ghost var a := Here();
      var data := sock.RecvHeader();
      r := new IncomingRequest(data);
      assert a.inp[..|data|] == data && a.inp[|data|..] == sock.incoming;
      assert a.out + [] == a.out;
      Stepped(a, Receiving(|data|));
    }

    method ReadPayload(r: IncomingRequest)
      requires Valid() && at.pc.AwaitPayload? && at.pc.header == r.header && at.pc.acc == [] && r.payload == []
      modifies r, sock`incoming, this`at, this`log
      ensures Valid() && Here() == AfterPayload(n, old(Here())) && r.header == old(r.header)
      ensures r.payload == if r.header.size <= |old(sock.incoming)| then old(sock.incoming)[..r.header.size] else []
      ensures |sock.incoming| <= |old(sock.incoming)|
    {
      ghost var a := Here();
      r.ReceivePayload(sock);
      PayloadPath(c, n, start, a);
      AfterPayloadKeeps(n, a);
      Arrive(AfterPayload(n, a));
    }

    /** The registration statement and, when it worked, the last-seen update. */
    method InsertName() returns (id: Option<Block>)
      requires Valid() && Synced() && at.pc == Work(RegInsert(clientName))
      modifies this`at, this`log, database
      ensures Valid() && Synced() && at == old(at).(pc := Work(RegReply(id)))
    {
      ghost var a := Here();
      var uuid: Block := *;
      var now: nat := *;
      ghost var works;
      id, works := database.RegisterNewClient(clientName, uuid, now);
      ghost var ch := Receiving(0).(ok := works, uuid := uuid, now := now);
      ghost var b := Take(c, n, a, ch);
      TaskTaken(c, n, a, ch);
      ReachesStep(c, n, start, a, ch);
      if id.None? {
        Arrive(b);
      } else {
        TaskTaken(c, n, b, ch);
        Stepped(b, ch);
      }
    }

    method AnswerRegistration(id: Option<Block>) returns (ok: bool)
      requires Valid() && Synced() && at.pc == Work(RegReply(id))
      modifies this`at, this`log, this`clientId, sock`outgoing
      ensures at.times == old(at.times)
      ensures Valid() && Synced()
      ensures at.pc == (if ok then AwaitHeader(KeyExchange) else Stopped(false)) && (ok ==> id.Some?)
    {
      ghost var d := Here();
      if id.None? {
        var sent := sock.Send(Pack(Response(REGISTRATION_FAILED, Zeros(16))));
        TaskTaken(c, n, d, Receiving(0).(sent := sent));
        Stepped(d, Receiving(0).(sent := sent));
        return false;
      }
      clientId := id.value;
      ok := sock.Send(Pack(Response(REGISTRATION_SUCCESS, clientId)));
      TaskTaken(c, n, d, Receiving(0).(sent := ok));
      Stepped(d, Receiving(0).(sent := ok));
    }

    method RegisterClient(r: IncomingRequest) returns (ok: bool)
      requires Valid() && Synced() && at.pc == AwaitPayload(Register, r.header, []) && r.payload == []
      modifies this, r, sock, database
      ensures at.times == old(at.times)
      ensures Valid() && Synced()
      ensures at.pc == if ok then AwaitHeader(KeyExchange) else Stopped(false)
    {
      ReadPayload(r);
      clientName := Slice(r.payload, 0, NAME_FIELD);
      var id := InsertName();
      ok := AnswerRegistration(id);
    }

    method StoreKeys()
      requires Valid() && Synced() && at.pc == Work(KeyStore)
      modifies this`at, this`log, database
      ensures Valid() && Synced() && at == old(at).(pc := Work(KeyReply))
    {
      ghost var a := Here();
      var now: nat := *;
      ghost var ch := Receiving(0).(now := now);
      ghost var b := Take(c, n, a, ch);
      TaskTaken(c, n, a, ch);
      ReachesStep(c, n, start, a, ch);
      database.AddClientKey(clientId, publicKey, sharedKey, now);
      TaskTaken(c, n, b, ch);
      Stepped(b, ch);
    }

    method AnswerKey() returns (ok: bool)
      requires Valid() && Synced() && at.pc == Work(KeyReply)
      modifies this`at, this`log, sock`outgoing
      ensures at.times == old(at.times)
      ensures Valid() && Synced() && at.pc == if ok then AwaitHeader(File) else Stopped(false)
    {
      ghost var a := Here();
      var seed: Bytes := *;
      var w := c.wrap(publicKey, sharedKey, seed);
      ghost var ch := Receiving(0).(seed := seed);
      if w.None? || UUID_LENGTH + |w.value| >= UINT32_LIMIT {
        TaskTaken(c, n, a, ch);
        Stepped(a, ch);
        return false;
      }
      ok := sock.Send(Pack(Response(AES_KEY, PadTo(clientId, UUID_LENGTH)[..UUID_LENGTH] + w.value)));
      TaskTaken(c, n, a, ch.(sent := ok));
      Stepped(a, ch.(sent := ok));
    }

    method SendAesKeyToClient(r: IncomingRequest) returns (ok: bool)
      requires Valid() && Synced() && at.pc == AwaitPayload(KeyExchange, r.header, []) && r.payload == []
      modifies this, r, sock, database
      ensures at.times == old(at.times)
      ensures Valid() && Synced() && at.pc == if ok then AwaitHeader(File) else Stopped(false)
    {
      ReadPayload(r);
      if r.header.code != PUBLIC_KEY {
        return false;
      }
      publicKey := Slice(r.payload, NAME_FIELD, NAME_FIELD + PUBLIC_KEY_SIZE);
      StoreKeys();
      ok := AnswerKey();
    }

    method HandleFirstMessage() returns (ok: bool)
      requires Valid() && Synced() && at.pc == AwaitHeader(First)
      modifies this, sock, database
      ensures at.times == old(at.times)
      ensures Valid() && Synced() && at.pc == if ok then AwaitHeader(File) else Stopped(false)
    {
      var first := ReadHeader(First);
      if first.header.code == REGISTRATION {
        ok := RegisterClient(first);
        if ok {
          var second := ReadHeader(KeyExchange);
          ok := SendAesKeyToClient(second);
        }
      } else if first.header.code == PUBLIC_KEY {
        clientId := first.header.id;
        ok := SendAesKeyToClient(first);
      } else {
        ok := false;
      }
    }

    /** The new files row and, when it was inserted, the last-seen update. */
    method InsertFile(up: Upload) returns (ok: bool)
      requires Valid() && Synced() && at.pc == Work(FileInsert(up))
      modifies this`at, this`log, database
      ensures Valid() && Synced()
      ensures at == if ok then old(at).(pc := Work(FileReply(up))) else FileOutcome(old(at), NO_REQUEST)
    {
      ghost var a := Here();
      var now: nat := *;
      ok := database.RegisterNewFile(up.name, PathOf(up.name), clientId, now);
      ghost var ch := Receiving(0).(ok := ok, now := now);
      ghost var b := Take(c, n, a, ch);
      TaskTaken(c, n, a, ch);
      ReachesStep(c, n, start, a, ch);
      if ok {
        TaskTaken(c, n, b, ch);
        Stepped(b, ch);
      } else {
        Arrive(b);
      }
    }

    /** Decrypts the upload and sends the CRC; `None` is an exception, caught by the handler's loop. */
    method SendCrc(up: Upload) returns (job: Option<Job>)
      requires Valid() && Synced() && at.pc == Work(FileReply(up))
      modifies this`at, this`log, sock`outgoing
      ensures Valid() && Synced() && at.times == old(at.times)
      ensures at.pc == if job.None? then Work(FinalAck) else AwaitHeader(Verdict(job.value))
      ensures job.Some? ==> DecryptData(c, sharedKey, up.cipher) == Some(job.value.data) && job.value.name == up.name
    {
      ghost var a := Here();
      var data := DecryptData(c, sharedKey, up.cipher);
      if data.None? {
        TaskTaken(c, n, a, Receiving(0));
        Stepped(a, Receiving(0));
        return None;
      }
      var j := Job(up.name, up.size, data.value);
      var ok := sock.Send(Pack(CrcReply(PadTo(clientId, UUID_LENGTH)[..UUID_LENGTH], j, c.crc(data.value))));
      TaskTaken(c, n, a, Receiving(0).(sent := ok));
      Stepped(a, Receiving(0).(sent := ok));
      job := if ok then Some(j) else None;
    }

    /** The acknowledgement inside the loop; sent before anything is saved. */
    method SendAcknowledgement(job: Job, code: u16) returns (ok: bool)
      requires Valid() && Synced() && at.pc == Work(Acknowledge(job, code))
      modifies this`at, this`log, sock`outgoing
      ensures Valid() && Synced()
      ensures at.times == old(at.times) + if ok && code != CRC_SUCCESS then 1 else 0
      ensures at.pc == if !ok then Work(FinalAck) else if code == CRC_SUCCESS then Work(Save(job))
                       else FileOutcome(old(at), code).pc
    {
      ghost var a := Here();
      ok := sock.Send(Pack(ACK));
      TaskTaken(c, n, a, Receiving(0).(sent := ok));
      Stepped(a, Receiving(0).(sent := ok));
    }

    /** The save and, when it worked, the verified flag and the last-seen update. */
    method SaveVerified(job: Job) returns (ok: bool)
      requires Valid() && Synced() && at.pc == Work(Save(job))
      modifies this`at, this`log, store, database
      ensures Valid() && Synced()
      ensures at == FileOutcome(old(at), if ok then CRC_SUCCESS else NO_REQUEST)
      ensures ok ==> PathOf(job.name) in store.contents && store.contents[PathOf(job.name)] == job.data
    {
      ghost var a := Here();
      var now: nat := *;
      ok := store.SaveFile(job.data, PathOf(job.name));
      ghost var ch := Receiving(0).(ok := ok, now := now);
      TaskTaken(c, n, a, ch);
      Stepped(a, ch);
      if ok {
        SetVerifiedFlag(job, now);
      }
    }

    method SetVerifiedFlag(job: Job, now: nat)
      requires Valid() && Synced() && at.pc == Work(MarkVerified(job))
      modifies this`at, this`log, database
      ensures Valid() && Synced() && at == FileOutcome(old(at), CRC_SUCCESS)
    {
      ghost var a := Here();
      ghost var ch := Receiving(0).(now := now);
      MarkedAndSeen(c, n, a, ch);
      ReachesStep(c, n, start, a, ch);
      database.SetFileVerified(job.name, clientId, now);
      Stepped(Take(c, n, a, ch), ch);
    }

    /** Waits for the verdict on `job`, acknowledges it, and saves the plaintext when it is good. */
    method HandleFileFromClient(job: Job) returns (code: Option<u16>)
      requires Valid() && Synced() && at.pc == AwaitHeader(Verdict(job))
      modifies this, sock, database, store
      ensures Valid() && Synced() && Returned(code, old(at.times))
      ensures |sock.incoming| <= |old(sock.incoming)|
    {
      var r := ReadHeader(Verdict(job));
      ReadPayload(r);
      var ok := SendAcknowledgement(job, r.header.code);
      if !ok {
        return None;
      }
      if r.header.code == CRC_SUCCESS {
        var saved := SaveVerified(job);
        if !saved {
          return Some(NO_REQUEST);
        }
      }
      code := Some(r.header.code);
    }

    /** One upload has been handled, with this code or, for `None`, with an exception. */
    ghost predicate Returned(code: Option<u16>, times: nat)
      reads this
    {
      if code.None? then at.times == times && at.pc == Work(FinalAck)
      else at.times == times + 1 && at.pc == FileOutcome(at, code.value).pc
    }

    method ReceiveEncryptedFile() returns (code: Option<u16>)
      requires Valid() && Synced() && at.pc == AwaitHeader(File)
      modifies this, sock, database, store
      ensures Valid() && Synced() && Returned(code, old(at.times))
      ensures code.Some? && code.value != NO_REQUEST ==> |sock.incoming| < |old(sock.incoming)|
    {
      var r := ReadHeader(File);
      ReadPayload(r);
      if r.header.code != ENCRYPTED_FILE {
        return Some(r.header.code);
      }
      var size := FileSize(r.payload);
      if size.None? {
        return None;
      }
      code := HandleUpload(Upload(FileName(r.payload), size.value, FileData(r.payload, size.value)));
    }

    method HandleUpload(up: Upload) returns (code: Option<u16>)
      requires Valid() && Synced() && at.pc == Work(FileInsert(up))
      modifies this, sock, database, store
      ensures Valid() && Synced() && Returned(code, old(at.times))
      ensures |sock.incoming| <= |old(sock.incoming)|
    {
      var inserted := InsertFile(up);
      if !inserted {
        return Some(NO_REQUEST);
      }
      var job := SendCrc(up);
      if job.None? {
        return None;
      }
      code := HandleFileFromClient(job.value);
    }

    method SendFinalAcknowledgement()
      requires Valid() && Synced() && at.pc == Work(FinalAck)
      modifies this`at, this`log, sock`outgoing
      ensures Valid() && Synced() && at.pc == Stopped(false)
    {
      ghost var a := Here();
      var ok := sock.Send(Pack(ACK));
      TaskTaken(c, n, a, Receiving(0).(sent := ok));
      Stepped(a, Receiving(0).(sent := ok));
    }

    /** The whole life of the thread; the loop ends because every further round has consumed a header. */
    method HandleClient() returns (ok: bool)
      requires Valid() && Synced() && at == NewThread(sharedKey)
      modifies this, sock, database, store
      ensures Valid() && at.pc == Stopped(ok) && (ok ==> at.times > 0)
    {
      ok := HandleFirstMessage();
      if !ok {
        return;
      }
      var requestType: u16 := NO_REQUEST;
      var timesReceived := 0;
      while requestType != CRC_FINISHED
        invariant Valid() && Synced() && timesReceived == at.times
        invariant at.pc == if requestType == CRC_FINISHED then Work(FinalAck) else AwaitHeader(File)
        decreases |sock.incoming|
      {
        var code := ReceiveEncryptedFile();
        if code.None? {
          break;
        }
        requestType := code.value;
        timesReceived := timesReceived + 1;
        if requestType == CRC_SUCCESS {
          return true;
        }
        if requestType != CRC_RESENDING {
          break;
        }
      }
      SendFinalAcknowledgement();
      ok := false;
    }
  }
}
