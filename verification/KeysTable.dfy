/** What the handlers' steps do to single rows of the clients table, and whose keys a row holds. */
module KeysTable {
  import opened ByteStrings
  import opened Cipher
  import opened Wire
  import opened Tables
  import opened Handler
  import opened Conversations
  import opened ServerWorld
  import opened PhaseOrder

  /** The id whose last-seen field a task updates. */
  function SeenId(h: Thread): Option<Bytes> {
    if !h.pc.Work? then None
    else match h.pc.task
      case RegSeen(id) => Some(id)
      case KeySeen => Some(h.id)
      case FileSeen(_) => Some(h.id)
      case VerifiedSeen(_) => Some(h.id)
      case _ => None
  }

  predicate StoresKeys(h: Thread) {
    h.pc.Work? && h.pc.task.KeyStore?
  }

  /** What a step does to one row: keys only in a key update of its id, last-seen only in such an update of its id. */
  predicate RowStep(h: Thread, ch: Choice, r: ClientRow, r': ClientRow) {
    && r'.id == r.id && r'.name == r.name
    && (if StoresKeys(h) && r.id == BytesLe(h.id)
        then r'.publicKey == Some(h.publicKey) && r'.sharedKey == Some(h.key)
        else r'.publicKey == r.publicKey && r'.sharedKey == r.sharedKey)
    && r'.lastSeen == if SeenId(h).Some? && r.id == BytesLe(SeenId(h).value) then Some(ch.now) else r.lastSeen
  }

  /** Every old row makes that step; a new row has neither keys nor last-seen. */
  predicate RowsStep(h: Thread, ch: Choice, t: seq<ClientRow>, t': seq<ClientRow>) {
    && |t| <= |t'|
    && (forall k :: 0 <= k < |t| ==> RowStep(h, ch, t[k], t'[k]))
    && (forall k :: |t| <= k < |t'| ==> t'[k].publicKey == None && t'[k].sharedKey == None && t'[k].lastSeen == None)
  }

  lemma RegistrationRows(n: nat, h: Thread, inp: Bytes, sh: Shared, ch: Choice)
    requires h.pc.Work? && (h.pc.task.RegInsert? || h.pc.task.RegSeen? || h.pc.task.RegReply?)
    ensures RowsStep(h, ch, sh.clients, RegistrationTask(n, h, inp, sh, ch, h.pc.task).sh.clients)
  {
  }

  lemma KeyRows(c: Suite, h: Thread, inp: Bytes, sh: Shared, ch: Choice)
    requires h.pc.Work? && (h.pc.task.KeyStore? || h.pc.task.KeySeen? || h.pc.task.KeyReply?)
    ensures RowsStep(h, ch, sh.clients, KeyTask(c, h, inp, sh, ch, h.pc.task).sh.clients)
  {
  }

  lemma FileRows(c: Suite, n: nat, h: Thread, inp: Bytes, sh: Shared, ch: Choice)
    requires h.pc.Work? && (h.pc.task.FileInsert? || h.pc.task.FileSeen? || h.pc.task.FileReply?)
    ensures RowsStep(h, ch, sh.clients, FileTask(c, n, h, inp, sh, ch, h.pc.task).sh.clients)
  {
  }

  lemma VerdictRows(n: nat, h: Thread, inp: Bytes, sh: Shared, ch: Choice)
    requires h.pc.Work?
    requires var t := h.pc.task; t.Acknowledge? || t.Save? || t.MarkVerified? || t.VerifiedSeen? || t.FinalAck?
    ensures RowsStep(h, ch, sh.clients, VerdictTask(n, h, inp, sh, ch, h.pc.task).sh.clients)
  {
  }

  /** A last-seen update leaves the keys alone, a key update leaves last-seen alone, and nothing else touches a row. */
  lemma StepRows(c: Suite, n: nat, h: Thread, inp: Bytes, closed: bool, sh: Shared, ch: Choice)
    requires CanStep(h, inp, closed, ch)
    ensures RowsStep(h, ch, sh.clients, Step(c, n, h, inp, closed, sh, ch).sh.clients)
  {
    if h.pc.Work? {
      var t := h.pc.task;
      if t.RegInsert? || t.RegSeen? || t.RegReply? {
        RegistrationRows(n, h, inp, sh, ch);
      } else if t.KeyStore? || t.KeySeen? || t.KeyReply? {
        KeyRows(c, h, inp, sh, ch);
      } else if t.FileInsert? || t.FileSeen? || t.FileReply? {
        FileRows(c, n, h, inp, sh, ch);
      } else {
        VerdictRows(n, h, inp, sh, ch);
      }
    }
  }

  // ----- Whose keys a row holds -----

  /** Move `q` of the run is a key update of handler `i`. */
  predicate StoreAt(c: Suite, w: Server, ms: seq<Move>, i: nat, q: nat) {
    && q < |ms| && ms[q].Advance? && ms[q].i == i
    && var b := Run(c, w, ms[..q]); Enabled(b, ms[q]) && StoresKeys(b.conns[i].h)
  }

  /** From move `q` on, no handler makes a key update for the id stored as `le`. */
  predicate NoStoreFrom(c: Suite, w: Server, ms: seq<Move>, le: Bytes, q: nat) {
    forall p :: q <= p < |ms| && ms[p].Advance? && StoreAt(c, w, ms, ms[p].i, p) ==>
      BytesLe(Run(c, w, ms[..p]).conns[ms[p].i].h.id) != le
  }

  lemma NoStoreFront(c: Suite, w: Server, ms: seq<Move>, le: Bytes, q: nat)
    requires ms != [] && NoStoreFrom(c, w, ms, le, q)
    ensures NoStoreFrom(c, w, ms[..|ms| - 1], le, q)
  {
    var front := ms[..|ms| - 1];
    forall p | q <= p < |front| && front[p].Advance? && StoreAt(c, w, front, front[p].i, p)
      ensures BytesLe(Run(c, w, front[..p]).conns[front[p].i].h.id) != le
    {
      assert front[..p] == ms[..p];
      assert StoreAt(c, w, ms, ms[p].i, p);
    }
  }

  /** A row that is there at move `q` keeps its keys as long as nobody updates them. */
  lemma {:induction false} KeysStay(c: Suite, w: Server, ms: seq<Move>, q: nat, k: nat)
    requires q <= |ms| && k < |Run(c, w, ms[..q]).sh.clients|
    requires NoStoreFrom(c, w, ms, Run(c, w, ms[..q]).sh.clients[k].id, q)
    ensures var r, t := Run(c, w, ms[..q]).sh.clients[k], Run(c, w, ms).sh.clients;
            k < |t| && t[k].id == r.id && t[k].publicKey == r.publicKey && t[k].sharedKey == r.sharedKey
  {
    if q == |ms| {
      assert ms[..q] == ms;
    } else {
      var front, m := ms[..|ms| - 1], ms[|ms| - 1];
      var b := Run(c, w, front);
      assert front[..q] == ms[..q];
      NoStoreFront(c, w, ms, Run(c, w, ms[..q]).sh.clients[k].id, q);
      KeysStay(c, w, front, q, k);
      if m.Advance? && Enabled(b, m) {
        var h := b.conns[m.i];
        StepRows(c, m.i, h.h, h.inp, h.closed, b.sh, m.ch);
        if StoresKeys(h.h) {
          assert StoreAt(c, w, ms, m.i, |ms| - 1);
        }
      }
    }
  }

  /** Right after its key update, the rows of a handler's id hold its keys. */
  lemma StoredKeys(c: Suite, w: Server, ms: seq<Move>, i: nat, q: nat, k: nat)
    requires StoreAt(c, w, ms, i, q) && k < |Run(c, w, ms[..q]).sh.clients|
    requires Run(c, w, ms[..q]).sh.clients[k].id == BytesLe(Run(c, w, ms[..q]).conns[i].h.id)
    ensures var b, t := Run(c, w, ms[..q]), Run(c, w, ms[..q + 1]).sh.clients;
            var h := b.conns[i].h;
            k < |t| && t[k].id == BytesLe(h.id) && t[k].publicKey == Some(h.publicKey) && t[k].sharedKey == Some(h.key)
  {
    var b, m := Run(c, w, ms[..q]), ms[q];
    assert ms[..q + 1][..q] == ms[..q];
    StepRows(c, i, b.conns[i].h, b.conns[i].inp, b.conns[i].closed, b.sh, m.ch);
  }

  // ----- A handler that has answered its key -----

  /** From its key update on, a handler's id and public key are settled. */
  predicate Settled(h: Thread) {
    || (h.pc.Work? && (h.pc.task.KeySeen? || h.pc.task.KeyReply?))
    || InFileLoop(h.pc)
    || (h.pc.Stopped? && Replied(h, AES_KEY))
  }

  predicate SameKeys(h: Thread, h': Thread) {
    h'.id == h.id && h'.publicKey == h.publicKey && h'.key == h.key
  }

  lemma KeyTaskSettles(c: Suite, h: Thread, inp: Bytes, sh: Shared, ch: Choice)
    requires h.pc.Work? && (h.pc.task.KeyStore? || h.pc.task.KeySeen? || h.pc.task.KeyReply?)
    requires !Replied(h, AES_KEY)
    ensures var h' := KeyTask(c, h, inp, sh, ch, h.pc.task).h; SameKeys(h, h') && (Replied(h', AES_KEY) ==> Settled(h'))
  {
  }

  lemma LoopStaysSettled(c: Suite, n: nat, h: Thread, inp: Bytes, closed: bool, sh: Shared, ch: Choice)
    requires CanStep(h, inp, closed, ch) && InFileLoop(h.pc)
    ensures var pc := Step(c, n, h, inp, closed, sh, ch).h.pc; InFileLoop(pc) || pc.Stopped?
  {
    if h.pc.Work? {
      match h.pc.task {
        case FileReply(_) =>
        case Acknowledge(_, _) =>
        case _ =>
      }
    }
  }

  lemma EarlierStays(c: Suite, n: nat, h: Thread, inp: Bytes, closed: bool, sh: Shared, ch: Choice)
    requires CanStep(h, inp, closed, ch) && !Settled(h) && !StoresKeys(h) && !Replied(h, AES_KEY)
    ensures var h' := Step(c, n, h, inp, closed, sh, ch).h; !Settled(h') && !Replied(h', AES_KEY)
  {
    if h.pc.Work? {
      RegistrationStaysEarly(n, h, inp, sh, ch);
    }
  }

  lemma RegistrationStaysEarly(n: nat, h: Thread, inp: Bytes, sh: Shared, ch: Choice)
    requires h.pc.Work? && (h.pc.task.RegInsert? || h.pc.task.RegSeen? || h.pc.task.RegReply?) && !Replied(h, AES_KEY)
    ensures var h' := RegistrationTask(n, h, inp, sh, ch, h.pc.task).h; !Settled(h') && !Replied(h', AES_KEY)
  {
  }

  /** A settled handler keeps its keys, and one becomes settled only by its key update. */
  lemma StepSettles(c: Suite, n: nat, h: Thread, inp: Bytes, closed: bool, sh: Shared, ch: Choice)
    requires CanStep(h, inp, closed, ch) && (Replied(h, AES_KEY) ==> Settled(h))
    ensures var h' := Step(c, n, h, inp, closed, sh, ch).h;
            && (Replied(h', AES_KEY) ==> Settled(h'))
            && (Settled(h') ==> SameKeys(h, h') && (Settled(h) || StoresKeys(h)))
  {
    if InFileLoop(h.pc) {
      LoopStepKeepsIdentity(c, n, h, inp, closed, sh, ch);
      LoopStaysSettled(c, n, h, inp, closed, sh, ch);
    } else if h.pc.Work? && (h.pc.task.KeyStore? || h.pc.task.KeySeen? || h.pc.task.KeyReply?) {
      if !Replied(h, AES_KEY) {
        KeyTaskSettles(c, h, inp, sh, ch);
      }
    } else {
      EarlierStays(c, n, h, inp, closed, sh, ch);
    }
  }

  /** Move `q` is the key update of handler `i`, made with the keys that `h` holds. */
  ghost predicate StoredAt(c: Suite, w: Server, ms: seq<Move>, i: nat, h: Thread, q: nat) {
    StoreAt(c, w, ms, i, q) && SameKeys(Run(c, w, ms[..q]).conns[i].h, h)
  }

  ghost predicate StoredBy(c: Suite, w: Server, ms: seq<Move>, i: nat, h: Thread) {
    exists q: nat :: StoredAt(c, w, ms, i, h, q)
  }

  lemma StoredSnoc(c: Suite, w: Server, ms: seq<Move>, i: nat, h: Thread, h': Thread)
    requires ms != [] && StoredBy(c, w, ms[..|ms| - 1], i, h) && SameKeys(h, h')
    ensures StoredBy(c, w, ms, i, h')
  {
    var front := ms[..|ms| - 1];
    var q: nat :| StoredAt(c, w, front, i, h, q);
    assert front[..q] == ms[..q];
    assert StoredAt(c, w, ms, i, h', q);
  }

  ghost predicate SettledBy(c: Suite, w: Server, ms: seq<Move>, i: nat, h: Thread) {
    (Replied(h, AES_KEY) ==> Settled(h)) && (Settled(h) ==> StoredBy(c, w, ms, i, h))
  }

  lemma AdvanceSettled(c: Suite, w: Server, ms: seq<Move>)
    requires ms != [] && ms[|ms| - 1].Advance?
    requires var b, m := Run(c, w, ms[..|ms| - 1]), ms[|ms| - 1];
             Enabled(b, m) && SettledBy(c, w, ms[..|ms| - 1], m.i, b.conns[m.i].h)
    ensures var i := ms[|ms| - 1].i; SettledBy(c, w, ms, i, Run(c, w, ms).conns[i].h)
  {
    var front, m := ms[..|ms| - 1], ms[|ms| - 1];
    var b := Run(c, w, front);
    var k, h' := b.conns[m.i], Run(c, w, ms).conns[m.i].h;
    StepSettles(c, m.i, k.h, k.inp, k.closed, b.sh, m.ch);
    if Settled(h') {
      if Settled(k.h) {
        StoredSnoc(c, w, ms, m.i, k.h, h');
      } else {
        assert StoredAt(c, w, ms, m.i, h', |ms| - 1);
      }
    }
  }

  lemma {:induction false} RunSettled(c: Suite, w: Server, ms: seq<Move>, i: nat)
    requires w.conns == [] && i < |Run(c, w, ms).conns|
    ensures SettledBy(c, w, ms, i, Run(c, w, ms).conns[i].h)
  {
    if ms != [] {
      var front, m := ms[..|ms| - 1], ms[|ms| - 1];
      var b := Run(c, w, front);
      if i < |b.conns| {
        RunSettled(c, w, front, i);
        if m.Advance? && m.i == i && Enabled(b, m) {
          AdvanceSettled(c, w, ms);
        } else if Settled(b.conns[i].h) {
          StoredSnoc(c, w, ms, i, b.conns[i].h, Run(c, w, ms).conns[i].h);
        }
      }
    }
  }

  /**
   * A handler that has answered AES_KEY made its key update, with the keys it still holds. Every row of its id
   * that was there then holds these keys until the next key update for that id, whatever else happens.
   */
  lemma KeysHeld(c: Suite, w: Server, ms: seq<Move>, i: nat) returns (q: nat)
    requires Fresh(w) && i < |Run(c, w, ms).conns| && Replied(Run(c, w, ms).conns[i].h, AES_KEY)
    ensures StoredAt(c, w, ms, i, Run(c, w, ms).conns[i].h, q)
    ensures var h := Run(c, w, ms).conns[i].h;
            NoStoreFrom(c, w, ms, BytesLe(h.id), q + 1) ==>
              forall k: nat :: RowOf(Run(c, w, ms[..q]).sh.clients, k, h.id) ==>
                HoldsKeys(Run(c, w, ms).sh.clients, k, h)
  {
    var h := Run(c, w, ms).conns[i].h;
    RunSettled(c, w, ms, i);
    q :| StoredAt(c, w, ms, i, h, q);
    if NoStoreFrom(c, w, ms, BytesLe(h.id), q + 1) {
      forall k: nat | RowOf(Run(c, w, ms[..q]).sh.clients, k, h.id)
        ensures HoldsKeys(Run(c, w, ms).sh.clients, k, h)
      {
        StoredKeys(c, w, ms, i, q, k);
        KeysStay(c, w, ms, q + 1, k);
      }
    }
  }

  predicate RowOf(t: seq<ClientRow>, k: nat, id: Bytes) {
    k < |t| && t[k].id == BytesLe(id)
  }

  /** Row `k` is of the handler's id and holds its public key and its shared key. */
  predicate HoldsKeys(t: seq<ClientRow>, k: nat, h: Thread) {
    && k < |t| && t[k].id == BytesLe(h.id)
    && t[k].publicKey == Some(h.publicKey) && t[k].sharedKey == Some(h.key)
  }
}
