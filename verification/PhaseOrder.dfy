/** What must have happened on a connection before its handler reads a file, whoever the peer is. */
module PhaseOrder {
  import opened ByteStrings
  import opened Cipher
  import opened Wire
  import opened Tables
  import opened Handler
  import opened Conversations
  import opened ServerWorld

  /** In the loop of `__handle_client`, or on the way out of it. */
  predicate InFileLoop(pc: Pc) {
    match pc
    case AwaitHeader(stage) => stage.File? || stage.Verdict?
    case AwaitPayload(stage, _, _) => stage.File? || stage.Verdict?
    case Work(t) => !t.RegInsert? && !t.RegSeen? && !t.RegReply? && !t.KeyStore? && !t.KeySeen? && !t.KeyReply?
    case Stopped(ok) => ok
  }

  /** The handler has sent its own AES key, wrapped for the public key it holds. */
  ghost predicate Exchanged(c: Suite, h: Thread) {
    exists j: nat, seed :: j < |h.replies| && KeySent(c, h, h.replies[j], seed)
  }

  ghost predicate KeySent(c: Suite, h: Thread, r: Response, seed: Bytes) {
    && r.code == AES_KEY && c.wrap(h.publicKey, h.key, seed).Some?
    && r.payload == IdOf(h) + c.wrap(h.publicKey, h.key, seed).value
  }

  ghost predicate InOrder(c: Suite, h: Thread) {
    Asked(h) && (InFileLoop(h.pc) ==> Exchanged(c, h))
  }

  ghost predicate AllInOrder(c: Suite, w: Server) {
    forall i :: 0 <= i < |w.conns| ==> InOrder(c, w.conns[i].h)
  }

  lemma ExchangedKept(c: Suite, h: Thread, h': Thread)
    requires Exchanged(c, h) && h.replies <= h'.replies
    requires h'.id == h.id && h'.publicKey == h.publicKey && h'.key == h.key
    ensures Exchanged(c, h')
  {
    var j: nat, seed :| j < |h.replies| && KeySent(c, h, h.replies[j], seed);
    assert KeySent(c, h', h'.replies[j], seed);
  }

  lemma LoopStepKeepsIdentity(c: Suite, n: nat, h: Thread, inp: Bytes, closed: bool, sh: Shared, ch: Choice)
    requires CanStep(h, inp, closed, ch) && InFileLoop(h.pc)
    ensures var h' := Step(c, n, h, inp, closed, sh, ch).h;
            h'.id == h.id && h'.publicKey == h.publicKey && h'.key == h.key && h.replies <= h'.replies
  {
    if h.pc.Work? {
      match h.pc.task {
        case FileReply(_) =>
        case Acknowledge(_, _) =>
        case _ =>
      }
    }
  }

  lemma EntryExchanges(c: Suite, n: nat, h: Thread, inp: Bytes, closed: bool, sh: Shared, ch: Choice)
    requires CanStep(h, inp, closed, ch) && !InFileLoop(h.pc)
    ensures var h' := Step(c, n, h, inp, closed, sh, ch).h;
            InFileLoop(h'.pc) ==> h.pc == Work(KeyReply) && Exchanged(c, h')
  {
    var h' := Step(c, n, h, inp, closed, sh, ch).h;
    if InFileLoop(h'.pc) {
      assert h.pc == Work(KeyReply) by {
        if h.pc.Work? { match h.pc.task { case RegReply(_) => case _ => } }
      }
      assert KeySent(c, h', h'.replies[|h.replies|], ch.seed);
    }
  }

  // ----- What was asked for -----

  /** Inside the handling of an upload. */
  predicate Uploading(pc: Pc) {
    match pc
    case AwaitHeader(stage) => stage.Verdict?
    case AwaitPayload(stage, _, _) => stage.Verdict?
    case Work(t) =>
      || t.FileInsert? || t.FileSeen? || t.FileReply?
      || t.Acknowledge? || t.Save? || t.MarkVerified? || t.VerifiedSeen?
    case Stopped(_) => false
  }

  predicate InRegistration(pc: Pc) {
    pc.Work? && (pc.task.RegInsert? || pc.task.RegSeen? || pc.task.RegReply?)
  }

  predicate InKeyExchange(pc: Pc) {
    pc.Work? && (pc.task.KeyStore? || pc.task.KeySeen? || pc.task.KeyReply?)
  }

  predicate HeaderSeen(h: Thread, code: u16) {
    exists hd :: hd in h.headers && hd.code == code
  }

  /** Each kind of work has been asked for by a request of its code on this connection. */
  predicate Asked(h: Thread) {
    && (h.pc.AwaitPayload? ==> h.pc.header in h.headers)
    && (h.pc.AwaitPayload? && h.pc.stage.Register? ==> h.pc.header.code == REGISTRATION)
    && !(h.pc.AwaitHeader? && h.pc.stage.Register?)
    && (InRegistration(h.pc) ==> HeaderSeen(h, REGISTRATION))
    && (InKeyExchange(h.pc) || InFileLoop(h.pc) ==> HeaderSeen(h, PUBLIC_KEY))
    && (Uploading(h.pc) ==> HeaderSeen(h, ENCRYPTED_FILE))
  }

  lemma HeaderAsked(n: nat, h: Thread, inp: Bytes, sh: Shared, k: nat)
    requires h.pc.AwaitHeader? && k <= |inp| && Asked(h)
    ensures Asked(ReceiveStep(n, h, inp, sh, k).h)
  {
    var hd := ParseHeader(inp[..k]);
    var h' := ReceiveStep(n, h, inp, sh, k).h;
    assert hd in h'.headers && forall x :: x in h.headers ==> x in h'.headers;
  }

  lemma PayloadAsked(n: nat, h: Thread, inp: Bytes, sh: Shared, k: nat)
    requires h.pc.AwaitPayload? && (|h.pc.acc| < h.pc.header.size ==> k <= |inp|) && Asked(h)
    ensures Asked(ReceiveStep(n, h, inp, sh, k).h)
  {
  }

  /** A task leads only to work that was asked for by the same request, or back to reading. */
  predicate Onward(pc: Pc, pc': Pc) {
    && !pc'.AwaitPayload? && !(pc'.AwaitHeader? && pc'.stage.Register?)
    && (InRegistration(pc') ==> InRegistration(pc))
    && (InKeyExchange(pc') || InFileLoop(pc') ==> InKeyExchange(pc) || InFileLoop(pc))
    && (Uploading(pc') ==> Uploading(pc))
  }

  lemma EarlyOnward(c: Suite, n: nat, h: Thread, inp: Bytes, sh: Shared, ch: Choice)
    requires h.pc.Work? && (InRegistration(h.pc) || InKeyExchange(h.pc))
    ensures Onward(h.pc, TaskStep(c, n, h, inp, sh, ch, h.pc.task).h.pc)
  {
  }

  lemma LoopOnward(c: Suite, n: nat, h: Thread, inp: Bytes, sh: Shared, ch: Choice)
    requires h.pc.Work? && !InRegistration(h.pc) && !InKeyExchange(h.pc)
    ensures Onward(h.pc, TaskStep(c, n, h, inp, sh, ch, h.pc.task).h.pc)
  {
  }

  lemma TaskOnward(c: Suite, n: nat, h: Thread, inp: Bytes, sh: Shared, ch: Choice)
    requires h.pc.Work?
    ensures Onward(h.pc, TaskStep(c, n, h, inp, sh, ch, h.pc.task).h.pc)
  {
    if InRegistration(h.pc) || InKeyExchange(h.pc) {
      EarlyOnward(c, n, h, inp, sh, ch);
    } else {
      LoopOnward(c, n, h, inp, sh, ch);
    }
  }

  lemma StepAsked(c: Suite, n: nat, h: Thread, inp: Bytes, closed: bool, sh: Shared, ch: Choice)
    requires CanStep(h, inp, closed, ch) && Asked(h)
    ensures Asked(Step(c, n, h, inp, closed, sh, ch).h)
  {
    match h.pc {
      case AwaitHeader(_) => HeaderAsked(n, h, inp, sh, ch.k);
      case AwaitPayload(_, _, _) => PayloadAsked(n, h, inp, sh, ch.k);
      case Work(_) =>
        TaskOnward(c, n, h, inp, sh, ch);
        TaskLeaves(c, n, h, inp, sh, ch);
    }
  }

  lemma NextInOrder(c: Suite, w: Server, m: Move)
    requires AllInOrder(c, w)
    ensures AllInOrder(c, Next(c, w, m))
  {
    if m.Advance? && Enabled(w, m) {
      var k := w.conns[m.i];
      var h' := Next(c, w, m).conns[m.i].h;
      StepAsked(c, m.i, k.h, k.inp, k.closed, w.sh, m.ch);
      if InFileLoop(k.h.pc) {
        LoopStepKeepsIdentity(c, m.i, k.h, k.inp, k.closed, w.sh, m.ch);
        ExchangedKept(c, k.h, h');
      } else {
        EntryExchanges(c, m.i, k.h, k.inp, k.closed, w.sh, m.ch);
      }
    }
  }

  /**
   * Over every interleaving, no handler touches a file before it has sent its key on its own connection, and none
   * registers, stores keys or handles an upload that was not asked for there.
   */
  lemma {:induction false} KeyBeforeFile(c: Suite, w: Server, ms: seq<Move>)
    requires Fresh(w)
    ensures AllInOrder(c, Run(c, w, ms))
  {
    if ms != [] {
      KeyBeforeFile(c, w, ms[..|ms| - 1]);
      NextInOrder(c, Run(c, w, ms[..|ms| - 1]), ms[|ms| - 1]);
    }
  }
}
