/** What holds over whole runs of a session, under every interleaving, chunking and endpoint fault. */
module Protocol {
  import opened ByteStrings
  import opened Cipher
  import opened Wire
  import opened Tables
  import opened Session
  import Cl = Client
  import H = Handler
  import ClientMoves
  import HandlerMoves
  import PhaseOrder

  /** A move and the shared state it finds; other sessions may have changed that state arbitrarily. */
  datatype Tick = Tick(m: Move, sh: Shared)

  lemma NextUsable(c: Suite, n: nat, s: Session, sh: Shared, m: Move)
    requires Cl.Usable(c, s.cl) && Allowed(s, m)
    ensures Cl.Usable(c, Next(c, n, s, sh, m).0.cl)
  {
    if m.ClientMove? {
      Cl.StepKeeps(c, s.cl, s.s2c, HandlerClosed(s), m.cc);
    }
  }

  /** The session after the ticks; a move that is not allowed changes nothing. */
  function Exec(c: Suite, n: nat, s: Session, ticks: seq<Tick>): (s': Session)
    requires Cl.Usable(c, s.cl)
    ensures Cl.Usable(c, s'.cl)
  {
    if ticks == [] then s else
      var b := Exec(c, n, s, ticks[..|ticks| - 1]);
      var t := ticks[|ticks| - 1];
      if !Allowed(b, t.m) then b else
        NextUsable(c, n, b, t.sh, t.m);
        Next(c, n, b, t.sh, t.m).0
  }

  lemma NextInv(c: Suite, n: nat, s: Session, sh: Shared, m: Move)
    requires Lawful(c) && Inv(c, s) && Allowed(s, m)
    ensures Inv(c, Next(c, n, s, sh, m).0)
  {
    if m.ClientMove? {
      ClientMoves.ClientMoveKeeps(c, s, m.cc);
    } else {
      HandlerMoves.HandlerMoveKeeps(c, n, s, sh, m.hc);
    }
  }

  lemma {:induction false} ExecInv(c: Suite, n: nat, s: Session, ticks: seq<Tick>)
    requires Lawful(c) && Start(c, s)
    ensures Inv(c, Exec(c, n, s, ticks))
  {
    if ticks == [] {
      StartInv(c, s);
    } else {
      var b, t := Exec(c, n, s, ticks[..|ticks| - 1]), ticks[|ticks| - 1];
      ExecInv(c, n, s, ticks[..|ticks| - 1]);
      if Allowed(b, t.m) {
        NextInv(c, n, b, t.sh, t.m);
      }
    }
  }

  /** The responses as the client reads them. */
  function ParsedAll(rs: seq<Response>): seq<Parsed>
    requires Packable(rs)
  {
    seq(|rs|, i requires 0 <= i < |rs| => ParsedOf(rs[i]))
  }

  predicate Finished(s: Session) {
    s.cl.pc.Done? && s.h.pc.Stopped?
  }

  lemma OneOutstanding(c: Suite, s: Session)
    requires Cl.Usable(c, s.cl) && Phase(c, s) && s.h.pc.AwaitHeader?
    ensures |s.cl.sent| <= |s.h.got| + 1
  {
  }

  lemma SeenAreParsed(s: Session)
    requires RepliesAligned(s)
    ensures s.cl.seen <= ParsedAll(s.h.replies)
  {
  }

  /**
   * In every reachable state the handler has received exactly the first requests the client sent,
   * and the client exactly the first responses the handler sent. Whenever the handler is about to
   * read a header, its stream consists of the whole frames of at most one outstanding request;
   * whenever the client is about to read, its stream consists of whole responses.
   */
  lemma FrameAlignment(c: Suite, n: nat, s0: Session, ticks: seq<Tick>)
    requires Lawful(c) && Start(c, s0)
    ensures var s := Exec(c, n, s0, ticks);
            && AllSendable(s.cl.sent) && Packable(s.h.replies)
            && s.h.got <= s.cl.sent && s.cl.seen <= ParsedAll(s.h.replies)
            && (s.h.pc.AwaitHeader? ==> s.c2s == Stream(s.cl.sent[|s.h.got|..]) && |s.cl.sent| <= |s.h.got| + 1)
            && (!s.cl.pc.Done? ==> s.s2c == Replies(s.h.replies[|s.cl.seen|..]))
  {
    ExecInv(c, n, s0, ticks);
    var s := Exec(c, n, s0, ticks);
    if s.h.pc.AwaitHeader? {
      OneOutstanding(c, s);
    }
    SeenAreParsed(s);
  }

  /**
   * A run that ends with success on both sides delivered every message; the only unread bytes are
   * the four size bytes of the acknowledgement.
   */
  lemma SuccessLeavesFourBytes(c: Suite, n: nat, s0: Session, ticks: seq<Tick>)
    requires Lawful(c) && Start(c, s0)
    requires Exec(c, n, s0, ticks).cl.pc == Cl.Done(true) && Exec(c, n, s0, ticks).h.pc == H.Stopped(true)
    ensures var s := Exec(c, n, s0, ticks);
            && s.h.got == s.cl.sent && Packable(s.h.replies) && s.cl.seen == ParsedAll(s.h.replies)
            && s.s2c == Zeros(4)
  {
    ExecInv(c, n, s0, ticks);
    NothingLeft(c, Exec(c, n, s0, ticks));
  }

  lemma SuccessIsQuiet(c: Suite, s: Session)
    requires Phase(c, s) && s.cl.pc == Cl.Done(true) && s.h.pc == H.Stopped(true)
    ensures Quiet(s)
  {
  }

  lemma UnreadTail()
    ensures Pack(H.ACK)[3..] == Zeros(4)
  {
    assert Le32(0) == [0, 0, 0, 0];
    assert Pack(H.ACK)[3..] == Le32(0) + [];
  }

  lemma NothingLeft(c: Suite, s: Session)
    requires Inv(c, s) && s.cl.pc == Cl.Done(true) && s.h.pc == H.Stopped(true)
    ensures s.h.got == s.cl.sent && Packable(s.h.replies) && s.cl.seen == ParsedAll(s.h.replies) && s.s2c == Zeros(4)
  {
    SuccessIsQuiet(c, s);
    UnreadTail();
    assert s.h.replies[|s.cl.seen|..] == [];
  }

  /** The choice that lets an endpoint proceed if anything does. */
  function Patient(s: Session): H.Choice {
    var k := match s.h.pc
             case AwaitPayload(_, hd, acc) =>
               (if hd.size <= |acc| || s.c2s == [] then 0 else 1)
             case _ => if |s.c2s| < REQUEST_HEADER then |s.c2s| else REQUEST_HEADER;
    H.Choice(k, true, true, Zeros(16), 0, [])
  }

  /** No reachable state has both endpoints waiting: unless both have ended, one of them can move. */
  lemma NoDeadlock(c: Suite, n: nat, s0: Session, ticks: seq<Tick>)
    requires Lawful(c) && Start(c, s0)
    ensures var s := Exec(c, n, s0, ticks); Finished(s) <==> !CanMove(s)
  {
    ExecInv(c, n, s0, ticks);
    var s := Exec(c, n, s0, ticks);
    if !Finished(s) {
      SomeMove(c, s);
    }
  }

  lemma SomeMove(c: Suite, s: Session)
    requires Inv(c, s) && !Finished(s)
    ensures Allowed(s, ClientMove(Cl.Choice(None, true))) || Allowed(s, HandlerMove(Patient(s)))
  {
    if s.h.pc.Work? {
    } else if s.h.pc.AwaitPayload? {
      if |s.h.pc.acc| < s.h.pc.header.size {
        PayloadNotAtEnd(s);
      }
    } else if s.h.pc.AwaitHeader? && s.c2s != [] {
      HeaderWhole(s);
    } else if !s.cl.pc.Done? && |s.s2c| < Cl.Wanted(s.cl.pc) {
      if s.h.pc.AwaitHeader? {
        HandlerMoves.NothingPending(s);
      }
      if |s.h.replies| > |s.cl.seen| {
        assert s.h.replies[|s.cl.seen|..] != [];
        assert s.s2c == Replies(s.h.replies[|s.cl.seen|..]);
        assert |s.s2c| >= |Pack(s.h.replies[|s.cl.seen|])|;
      }
    }
  }

  lemma HeaderWhole(s: Session)
    requires RequestsAligned(s) && s.h.pc.AwaitHeader? && s.c2s != []
    ensures |s.c2s| >= REQUEST_HEADER
  {
    assert s.cl.sent[|s.h.got|..] != [];
  }

  /** Client position, bytes the handler has not received, handler position. */
  function Height(s: Session): (nat, nat, nat) {
    (Cl.Rank(s.cl.pc), |s.c2s|, H.Rank(s.h.pc))
  }

  predicate Descends(s: Session, s': Session) {
    var (a, b, d), (a', b', d') := Height(s), Height(s');
    a' < a || (a' == a && b' < b) || (a' == a && b' == b && d' < d)
  }

  /** Every move descends lexicographically. */
  lemma MoveDescends(c: Suite, n: nat, s: Session, sh: Shared, m: Move)
    requires Cl.Usable(c, s.cl) && Allowed(s, m)
    ensures Descends(s, Next(c, n, s, sh, m).0)
  {
    if m.ClientMove? {
      Cl.StepDescends(c, s.cl, s.s2c, HandlerClosed(s), m.cc);
    } else {
      H.StepDescends(c, n, s.h, s.c2s, ClientClosed(s), sh, m.hc);
    }
  }

  /** A scheduler: at time `i` and in session state `s`, what happens next and in which shared state. */
  type Scheduler = (nat, Session) -> Tick

  /** Letting the scheduler run until it picks a move that is not allowed; this always ends. */
  function Drive(c: Suite, n: nat, s: Session, f: Scheduler, i: nat): (s': Session)
    requires Cl.Usable(c, s.cl)
    decreases Cl.Rank(s.cl.pc), |s.c2s|, H.Rank(s.h.pc)
  {
    var t := f(i, s);
    if !Allowed(s, t.m) then s else
      NextUsable(c, n, s, t.sh, t.m);
      MoveDescends(c, n, s, t.sh, t.m);
      Drive(c, n, Next(c, n, s, t.sh, t.m).0, f, i + 1)
  }

  /** It never idles: it picks an allowed move whenever there is one. */
  ghost predicate Busy(f: Scheduler) {
    forall i: nat, s: Session :: CanMove(s) ==> Allowed(s, f(i, s).m)
  }

  ghost predicate CanMove(s: Session) {
    exists m :: Allowed(s, m)
  }

  /**
   * Under every scheduler that does not idle, every run ends, with the client returned and the
   * handler out of its loop; the ticks are the run.
   */
  lemma {:induction false} EveryRunEnds(c: Suite, n: nat, s: Session, f: Scheduler, i: nat) returns (ticks: seq<Tick>)
    requires Lawful(c) && Inv(c, s) && Busy(f)
    ensures Exec(c, n, s, ticks) == Drive(c, n, s, f, i)
    ensures Finished(Drive(c, n, s, f, i))
    decreases Cl.Rank(s.cl.pc), |s.c2s|, H.Rank(s.h.pc)
  {
    var t := f(i, s);
    if !Allowed(s, t.m) {
      if !Finished(s) {
        SomeMove(c, s);
      }
      ticks := [];
    } else {
      NextUsable(c, n, s, t.sh, t.m);
      MoveDescends(c, n, s, t.sh, t.m);
      NextInv(c, n, s, t.sh, t.m);
      var rest := EveryRunEnds(c, n, Next(c, n, s, t.sh, t.m).0, f, i + 1);
      ticks := [t] + rest;
      ExecCons(c, n, s, t, rest);
    }
  }

  function Tock(c: Suite, n: nat, b: Session, t: Tick): Session
    requires Cl.Usable(c, b.cl)
  {
    if !Allowed(b, t.m) then b else Next(c, n, b, t.sh, t.m).0
  }

  lemma ExecSnoc(c: Suite, n: nat, s: Session, ticks: seq<Tick>, t: Tick)
    requires Cl.Usable(c, s.cl)
    ensures Exec(c, n, s, ticks + [t]) == Tock(c, n, Exec(c, n, s, ticks), t)
  {
    assert (ticks + [t])[..|ticks|] == ticks;
  }

  lemma {:induction false} ExecCons(c: Suite, n: nat, s: Session, t: Tick, rest: seq<Tick>)
    requires Cl.Usable(c, s.cl) && Allowed(s, t.m) && Cl.Usable(c, Next(c, n, s, t.sh, t.m).0.cl)
    ensures Exec(c, n, s, [t] + rest) == Exec(c, n, Next(c, n, s, t.sh, t.m).0, rest)
  {
    if rest == [] {
      assert [t] + rest == [] + [t];
      ExecSnoc(c, n, s, [], t);
    } else {
      var front, last := rest[..|rest| - 1], rest[|rest| - 1];
      ExecCons(c, n, s, t, front);
      ExecSnoc(c, n, s, [t] + front, last);
      ExecSnoc(c, n, Next(c, n, s, t.sh, t.m).0, front, last);
      assert [t] + rest == ([t] + front) + [last] && rest == front + [last];
    }
  }

  /**
   * The client returns true only if the handler received its FILE_CRC_SUCCESS, and then only if the
   * checksum the client computed from its file is that of the plaintext the handler holds for it.
   */
  lemma SuccessIsConfirmed(c: Suite, n: nat, s0: Session, ticks: seq<Tick>)
    requires Lawful(c) && Start(c, s0) && Exec(c, n, s0, ticks).cl.pc == Cl.Done(true)
    ensures var s := Exec(c, n, s0, ticks);
            && s.h.got != [] && s.h.got[|s.h.got| - 1] == Cl.VerdictRequest(s.cl, CRC_SUCCESS)
            && s.cl.crc == c.crc(s.cl.data)
            && (s.h.pc.Work? && s.h.pc.task.Save? ==> s.h.pc.task.job.data == s.cl.data
                                                      && s.h.pc.task.job.name == NameOfField(s.cl.file))
  {
    ExecInv(c, n, s0, ticks);
    var s := Exec(c, n, s0, ticks);
    assert s.h.got == s.cl.sent;
  }

  lemma FileLoopNeedsKey(c: Suite, s: Session)
    requires Cl.Usable(c, s.cl) && Phase(c, s) && PhaseOrder.InFileLoop(s.h.pc) && s.cl.aes.None?
    ensures s.cl.pc == Cl.WaitKey && s.h.pc == H.AwaitHeader(H.File)
  {
  }

  /**
   * Both ways into the file loop, fresh and resumed, lead through the key exchange: in the loop the
   * client either holds this handler's own key, or is about to read the response that carries it.
   */
  lemma KeyAgreement(c: Suite, n: nat, s0: Session, ticks: seq<Tick>)
    requires Lawful(c) && Start(c, s0)
    ensures var s := Exec(c, n, s0, ticks);
            && (s.cl.aes.Some? ==> s.cl.aes == Some(s.h.key) && s.h.id == s.cl.id)
            && (PhaseOrder.InFileLoop(s.h.pc) && s.cl.aes.None? ==>
                  && s.cl.pc == Cl.WaitKey && |s.h.replies| == |s.cl.seen| + 1
                  && var w := s.h.replies[|s.cl.seen|];
                     |w.payload| >= UUID_LENGTH && c.unwrap(s.cl.priv, w.payload[UUID_LENGTH..]) == Some(s.h.key))
  {
    ExecInv(c, n, s0, ticks);
    var s := Exec(c, n, s0, ticks);
    if PhaseOrder.InFileLoop(s.h.pc) && s.cl.aes.None? {
      FileLoopNeedsKey(c, s);
    }
  }
}
