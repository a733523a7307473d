/** The two tables, the disk, and what one locked statement does to them. */
module Tables {
  import opened ByteStrings
  import opened Wire

  datatype ClientRow = ClientRow(id: Bytes, name: Bytes, publicKey: Option<Bytes>, sharedKey: Option<Bytes>,
                                 lastSeen: Option<nat>)

  datatype FileRow = FileRow(name: Bytes, path: Bytes, client: Bytes, verified: bool)

  /** The registered adapter stores a UUID with its first three fields in little-endian order. */
  function BytesLe(id: Bytes): (le: Bytes)
    ensures |le| == |id|
  {
    if |id| == UUID_LENGTH
    then [id[3], id[2], id[1], id[0], id[5], id[4], id[7], id[6]] + id[8..]
    else id
  }

  /** Distinct ids are stored as distinct keys. */
  lemma BytesLeInjective(a: Bytes, b: Bytes)
    ensures BytesLe(a) == BytesLe(b) <==> a == b
  {
    if |a| == |b| == UUID_LENGTH && BytesLe(a) == BytesLe(b) {
      var x, y := BytesLe(a), BytesLe(b);
      assert a[..8] == [x[3], x[2], x[1], x[0], x[5], x[4], x[7], x[6]];
      assert b[..8] == [y[3], y[2], y[1], y[0], y[5], y[4], y[7], y[6]];
      assert a[8..] == x[8..] && b[8..] == y[8..];
      assert a == a[..8] + a[8..] && b == b[..8] + b[8..];
    }
  }

  /** The first three fields of an id are stored backwards, of four, two and two bytes; the rest as it is. */
  lemma BytesLeFields(id: Bytes)
    requires |id| == UUID_LENGTH
    ensures var le := BytesLe(id);
            && |le| == UUID_LENGTH && le[8..] == id[8..]
            && (forall i :: 0 <= i < 4 ==> le[i] == id[3 - i])
            && (forall i :: 4 <= i < 6 ==> le[i] == id[9 - i])
            && (forall i :: 6 <= i < 8 ==> le[i] == id[13 - i])
  {
  }

  const ROOT: Bytes := ['s' as byte, 'e' as byte, 'r' as byte, 'v' as byte, 'e' as byte, 'r' as byte, '_' as byte,
                        'f' as byte, 'i' as byte, 'l' as byte, 'e' as byte, 's' as byte]
  const SLASH: byte := '/' as byte

  function PathOf(name: Bytes): Bytes {
    if name != [] && name[0] == SLASH then name else ROOT + [SLASH] + name
  }

  predicate Absolute(name: Bytes) {
    name != [] && name[0] == SLASH
  }

  /** A relative name's path is its own below the root directory; an absolute name is its own path. */
  lemma PathShape(name: Bytes)
    ensures Absolute(name) ==> PathOf(name) == name
    ensures !Absolute(name) ==>
              var root := ROOT + [SLASH];
              && |PathOf(name)| == |root| + |name|
              && PathOf(name)[..|root|] == root && PathOf(name)[|root|..] == name
  {
  }

  /** Two names share a path only when they are the same name. */
  lemma PathInjective(n: Bytes, m: Bytes)
    ensures PathOf(n) == PathOf(m) <==> n == m
  {
    PathShape(n);
    PathShape(m);
    assert !Absolute(n) ==> PathOf(n)[0] == ROOT[0] != SLASH;
    assert !Absolute(m) ==> PathOf(m)[0] == ROOT[0] != SLASH;
  }

  predicate Taken(t: seq<ClientRow>, id: Bytes, name: Bytes) {
    exists r :: r in t && (r.id == id || r.name == name)
  }

  /** The insert of a registration; the unique columns or a database fault make it fail. */
  function InsertClient(t: seq<ClientRow>, id: Bytes, name: Bytes, ok: bool): (rows: Option<seq<ClientRow>>)
    ensures rows.Some? <==> ok && forall r :: r in t ==> r.id != id && r.name != name
    ensures rows.Some? ==> rows.value == t + [ClientRow(id, name, None, None, None)]
  {
    if !ok || Taken(t, id, name) then None else Some(t + [ClientRow(id, name, None, None, None)])
  }

  function WithKeys(r: ClientRow, id: Bytes, publicKey: Bytes, sharedKey: Bytes): ClientRow {
    if r.id == id then r.(publicKey := Some(publicKey), sharedKey := Some(sharedKey)) else r
  }

  function UpdateKeys(t: seq<ClientRow>, id: Bytes, publicKey: Bytes, sharedKey: Bytes): (u: seq<ClientRow>)
    ensures |u| == |t| && forall i :: 0 <= i < |t| ==>
              u[i] == if t[i].id != id then t[i]
                      else ClientRow(id, t[i].name, Some(publicKey), Some(sharedKey), t[i].lastSeen)
  {
    seq(|t|, i requires 0 <= i < |t| => WithKeys(t[i], id, publicKey, sharedKey))
  }

  function Seen(r: ClientRow, id: Bytes, now: nat): ClientRow {
    if r.id == id then r.(lastSeen := Some(now)) else r
  }

  function Touch(t: seq<ClientRow>, id: Bytes, now: nat): (u: seq<ClientRow>)
    ensures |u| == |t| && forall i :: 0 <= i < |t| ==>
              u[i] == if t[i].id != id then t[i]
                      else ClientRow(id, t[i].name, t[i].publicKey, t[i].sharedKey, Some(now))
  {
    seq(|t|, i requires 0 <= i < |t| => Seen(t[i], id, now))
  }

  function Verified(r: FileRow, name: Bytes, id: Bytes): FileRow {
    if r.client == id && r.name == name then r.(verified := true) else r
  }

  function SetVerified(t: seq<FileRow>, name: Bytes, id: Bytes): (u: seq<FileRow>)
    ensures |u| == |t| && forall i :: 0 <= i < |t| ==>
              u[i] == if t[i].client != id || t[i].name != name then t[i]
                      else FileRow(name, t[i].path, id, true)
  {
    seq(|t|, i requires 0 <= i < |t| => Verified(t[i], name, id))
  }

  /** What the handlers did, in the order in which it took effect. `h` numbers the handler. */
  datatype Event =
    | Registered(h: nat, id: Bytes, name: Bytes)
    | FileAdded(h: nat, id: Bytes, name: Bytes)
    | CrcSent(h: nat, id: Bytes, name: Bytes, data: Bytes)
    | Confirmed(h: nat, id: Bytes, name: Bytes, data: Bytes)
    | Saved(h: nat, id: Bytes, name: Bytes, data: Bytes)

  /** Everything the handler threads share; `log` is history. */
  datatype Shared = Shared(clients: seq<ClientRow>, files: seq<FileRow>, disk: map<Bytes, Bytes>, log: seq<Event>)

  predicate UniqueClients(t: seq<ClientRow>) {
    forall i, j :: 0 <= i < j < |t| ==> t[i].id != t[j].id && t[i].name != t[j].name
  }

  function Logged(sh: Shared, e: Event): Shared {
    sh.(log := sh.log + [e])
  }
}
