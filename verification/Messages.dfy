/**
 * A session without bytes: the two ends exchange whole messages through two queues. The byte-level
 * session refines it, so no run can be told apart by how the streams were cut.
 */
module Messages {
  import opened ByteStrings
  import opened Cipher
  import opened Wire
  import opened Tables
  import opened Session
  import opened Protocol
  import Cl = Client
  import H = Handler
  import ClientMoves
  import HandlerMoves

  /** The requests and responses sent and not yet taken out. */
  datatype Mail = Mail(cl: Cl.State, h: H.Thread, requests: seq<Request>, replies: seq<Response>)

  /** What the client can read: the first response alone. */
  function Head(m: Mail): Bytes {
    if m.replies == [] || |m.replies[0].payload| >= UINT32_LIMIT then [] else Pack(m.replies[0])
  }

  predicate MailAllowed(c: Suite, m: Mail, mv: Move) {
    match mv
    case ClientMove(cc) => Cl.Usable(c, m.cl) && Cl.CanStep(m.cl, Head(m), m.h.pc == H.Stopped(false), cc)
    case HandlerMove(hc) =>
      && !m.h.pc.Stopped?
      && (m.h.pc.AwaitHeader? ==> m.requests != [] || m.cl.pc.Done?)
      && (forall r :: r in m.requests ==> Sendable(r))
      && (m.h.pc.AwaitPayload? ==> |m.h.pc.acc| >= m.h.pc.header.size)
      && (!m.cl.pc.Done? ==> hc.sent)
  }

  /** The client acts, or takes out one response and may answer it with one request. */
  function MailClient(c: Suite, m: Mail, cc: Cl.Choice): Mail
    requires MailAllowed(c, m, ClientMove(cc))
  {
    var cl := Cl.Step(c, m.cl, Head(m), m.h.pc == H.Stopped(false), cc).cl;
    var replies := if Cl.Wanted(m.cl.pc) == 0 || m.replies == [] then m.replies else m.replies[1..];
    Mail(cl, m.h, m.requests + if |cl.sent| > |m.cl.sent| then [cl.sent[|m.cl.sent|]] else [], replies)
  }

  /** The handler holding a request it has taken out. */
  function Holding(h: H.Thread, payload: Bytes): H.Thread {
    if h.pc.AwaitPayload? then h.(pc := H.AwaitPayload(h.pc.stage, h.pc.header, payload)) else h
  }

  /** The handler takes out one whole request, works on the one it holds, or does one task. */
  function MailHandler(c: Suite, n: nat, m: Mail, sh: Shared, hc: H.Choice): (Mail, Shared)
    requires MailAllowed(c, m, HandlerMove(hc))
  {
    match m.h.pc
    case AwaitHeader(stage) =>
      if m.requests == [] then (m.(h := H.OnHeader(m.h, stage, NO_HEADER)), sh)
      else
        var r := m.requests[0];
        (m.(h := Holding(H.OnHeader(m.h, stage, HeaderOf(r)), r.payload), requests := m.requests[1..]), sh)
    case AwaitPayload(_, _, _) =>
      var t := H.ReceiveStep(n, m.h, [], sh, 0);
      (m.(h := t.h), t.sh)
    case Work(task) =>
      var t := H.TaskStep(c, n, m.h, [], sh, hc, task);
      (m.(h := t.h, replies := m.replies + if |t.h.replies| > |m.h.replies| then [t.h.replies[|m.h.replies|]] else []),
       t.sh)
  }

  function MailNext(c: Suite, n: nat, m: Mail, sh: Shared, mv: Move): (Mail, Shared)
    requires MailAllowed(c, m, mv)
  {
    match mv
    case ClientMove(cc) => (MailClient(c, m, cc), sh)
    case HandlerMove(hc) => MailHandler(c, n, m, sh, hc)
  }

  // ----- The mail of a byte-level session -----

  /** The handler has read a whole header and is at its payload. */
  predicate InPayload(s: Session) {
    s.h.pc.AwaitPayload? && s.h.pc.header.whole
  }

  /** A request counts as taken out once its header is read, and the payload as read with it. */
  function MailOf(s: Session): Mail
    requires RequestsAligned(s) && RepliesAligned(s)
  {
    var k, replies := |s.h.got|, s.h.replies[|s.cl.seen|..];
    if InPayload(s) then Mail(s.cl, Holding(s.h, s.cl.sent[k].payload), s.cl.sent[k + 1..], replies)
    else Mail(s.cl, s.h, s.cl.sent[k..], replies)
  }

  // ----- The client's moves -----

  lemma ActBlind(c: Suite, cl: Cl.State, inp: Bytes, inp': Bytes, cc: Cl.Choice)
    requires Cl.Usable(c, cl) && Cl.CanStep(cl, inp, true, cc) && Cl.Wanted(cl.pc) == 0
    ensures var cl' := Cl.Act(c, cl, inp, cc).cl; cl' == Cl.Act(c, cl, inp', cc).cl && cl'.seen == cl.seen
  {
  }

  /** A receive depends on the buffer, on whether the bytes were all there, and on whether there were any. */
  predicate SameRead(inp: Bytes, inp': Bytes, n: nat) {
    Cl.Buffer(inp, n) == Cl.Buffer(inp', n) && (|inp| >= n <==> |inp'| >= n) && (inp == [] <==> inp' == [])
  }

  lemma ReceiveSame(c: Suite, cl: Cl.State, inp: Bytes, inp': Bytes, cc: Cl.Choice)
    requires |cl.id| == UUID_LENGTH && Cl.Wanted(cl.pc) > 0 && SameRead(inp, inp', Cl.Wanted(cl.pc))
    ensures Cl.Receive(c, cl, inp, cc).cl == Cl.Receive(c, cl, inp', cc).cl
  {
  }

  lemma ReceiveSees(c: Suite, cl: Cl.State, inp: Bytes, cc: Cl.Choice)
    requires |cl.id| == UUID_LENGTH && Cl.Wanted(cl.pc) > 0
    ensures |Cl.Receive(c, cl, inp, cc).cl.seen| == |cl.seen| + if inp == [] then 0 else 1
  {
  }

  /** Only a client that awaits its last acknowledgement can have two responses before it. */
  lemma OneReply(c: Suite, s: Session)
    requires Cl.Usable(c, s.cl) && Phase(c, s) && Cl.Wanted(s.cl.pc) > 0
    ensures |s.h.replies| <= |s.cl.seen| + 1 || s.cl.pc.WaitSuccess?
  {
  }

  lemma PrefixSuffices(p: Bytes, rest: Bytes, n: nat)
    requires 0 < n <= |p|
    ensures SameRead(p + rest, p, n)
  {
    assert (p + rest)[..n] == p[..n];
  }

  lemma HeadOf(s: Session)
    requires RequestsAligned(s) && RepliesAligned(s) && Tail(s.cl) == []
    ensures var q := s.h.replies[|s.cl.seen|..];
            s.s2c == (if q == [] then [] else Head(MailOf(s)) + Replies(q[1..])) && (q == [] ==> Head(MailOf(s)) == [])
  {
  }

  lemma HeadSuffices(c: Suite, s: Session)
    requires Inv(c, s) && Cl.Wanted(s.cl.pc) > 0
    ensures SameRead(s.s2c, Head(MailOf(s)), Cl.Wanted(s.cl.pc))
  {
    var q := s.h.replies[|s.cl.seen|..];
    HeadOf(s);
    OneReply(c, s);
    if |q| == 1 {
      assert q[1..] == [] && Head(MailOf(s)) + [] == Head(MailOf(s));
    } else if |q| > 1 {
      PrefixSuffices(Head(MailOf(s)), Replies(q[1..]), Cl.Wanted(s.cl.pc));
    }
  }

  lemma StepSame(c: Suite, s: Session, cc: Cl.Choice)
    requires Inv(c, s) && ClientMoves.Can(s, cc)
    ensures MailAllowed(c, MailOf(s), ClientMove(cc))
    ensures var cl' := ClientMoves.After(c, s, cc).cl;
            && cl' == Cl.Step(c, s.cl, Head(MailOf(s)), HandlerClosed(s), cc).cl
            && |cl'.seen| == |s.cl.seen| + if Cl.Wanted(s.cl.pc) == 0 || s.s2c == [] then 0 else 1
  {
    if Cl.Wanted(s.cl.pc) == 0 {
      ActBlind(c, s.cl, s.s2c, Head(MailOf(s)), cc);
    } else {
      HeadSuffices(c, s);
      ReceiveSame(c, s.cl, s.s2c, Head(MailOf(s)), cc);
      ReceiveSees(c, s.cl, s.s2c, cc);
    }
  }

  lemma StepSends(c: Suite, s: Session, cc: Cl.Choice)
    requires Cl.Usable(c, s.cl) && ClientMoves.Can(s, cc)
    ensures var cl' := ClientMoves.After(c, s, cc).cl;
            cl'.sent == s.cl.sent + if |cl'.sent| > |s.cl.sent| then [cl'.sent[|s.cl.sent|]] else []
  {
    Cl.StepMoves(c, s.cl, s.s2c, HandlerClosed(s), cc);
  }

  /** Sending more and reading one more response, in terms of the queues. */
  lemma QueuesFollow(s: Session, s': Session, more: seq<Request>, read: nat)
    requires RequestsAligned(s) && RepliesAligned(s) && RequestsAligned(s') && RepliesAligned(s')
    requires s'.h == s.h && s'.cl.sent == s.cl.sent + more
    requires |s'.cl.seen| == |s.cl.seen| + read && |s'.cl.seen| <= |s.h.replies|
    ensures MailOf(s') == MailOf(s).(cl := s'.cl, requests := MailOf(s).requests + more,
                                     replies := MailOf(s).replies[read..])
  {
    var k := |s.h.got|;
    if InPayload(s) {
      assert s'.cl.sent[k + 1..] == s.cl.sent[k + 1..] + more;
    } else {
      assert s'.cl.sent[k..] == s.cl.sent[k..] + more;
    }
    assert s.h.replies[|s.cl.seen|..][read..] == s.h.replies[|s'.cl.seen|..];
  }

  lemma ClientMoveIsMail(c: Suite, s: Session, cc: Cl.Choice)
    requires Inv(c, s) && ClientMoves.Can(s, cc)
    ensures MailAllowed(c, MailOf(s), ClientMove(cc)) && Inv(c, ClientMoves.After(c, s, cc))
    ensures MailOf(ClientMoves.After(c, s, cc)) == MailClient(c, MailOf(s), cc)
  {
    var s', m := ClientMoves.After(c, s, cc), MailOf(s);
    ClientMoves.ClientMoveKeeps(c, s, cc);
    StepSame(c, s, cc);
    StepSends(c, s, cc);
    var more := if |s'.cl.sent| > |s.cl.sent| then [s'.cl.sent[|s.cl.sent|]] else [];
    var read := if Cl.Wanted(s.cl.pc) == 0 || s.s2c == [] then 0 else 1;
    QueuesFollow(s, s', more, read);
    if Cl.Wanted(s.cl.pc) > 0 {
      assert s.s2c == [] <==> m.replies == [];
    }
    assert m.replies[0..] == m.replies;
  }

  // ----- The handler's moves -----

  lemma FirstIsKnown(c: Suite, s: Session)
    requires Cl.Usable(c, s.cl) && Phase(c, s) && s.h.pc == H.AwaitHeader(H.First) && |s.h.got| < |s.cl.sent|
    ensures s.cl.sent[|s.h.got|].code == REGISTRATION || s.cl.sent[|s.h.got|].code == PUBLIC_KEY
  {
  }

  lemma HeaderIsMail(c: Suite, n: nat, s: Session, sh: Shared, hc: H.Choice)
    requires Inv(c, s) && HandlerMoves.Can(s, hc) && s.h.pc.AwaitHeader?
    requires var s' := HandlerMoves.After(c, n, s, sh, hc); RequestsAligned(s') && RepliesAligned(s')
    ensures MailAllowed(c, MailOf(s), HandlerMove(hc))
    ensures var (s', sh') := Next(c, n, s, sh, HandlerMove(hc));
            (MailOf(s'), sh') == MailHandler(c, n, MailOf(s), sh, hc)
  {
    var t := H.ReceiveStep(n, s.h, s.c2s, sh, hc.k);
    if s.c2s != [] {
      HeaderRead(s, hc);
      if s.h.pc.stage.First? {
        FirstIsKnown(c, s);
      }
      RequestTaken(s, AfterHandler(s, t));
    } else {
      HandlerMoves.NothingPending(s);
      assert s.c2s[..0] == [] && ParseHeader([]) == NO_HEADER;
      NothingTaken(s, AfterHandler(s, t));
    }
  }

  lemma RequestTaken(s: Session, s': Session)
    requires RequestsAligned(s) && RepliesAligned(s) && RequestsAligned(s') && RepliesAligned(s')
    requires s.h.pc.AwaitHeader? && |s.h.got| < |s.cl.sent| && s'.cl == s.cl
    requires var r := s.cl.sent[|s.h.got|];
             s'.h == H.OnHeader(s.h, s.h.pc.stage, HeaderOf(r)) && s'.h.pc.AwaitPayload?
    ensures var m, r := MailOf(s), s.cl.sent[|s.h.got|];
            && m.requests != [] && m.requests[0] == r
            && MailOf(s') == m.(h := Holding(H.OnHeader(s.h, s.h.pc.stage, HeaderOf(r)), r.payload),
                                requests := m.requests[1..])
  {
    var k := |s.h.got|;
    assert s.cl.sent[k..][0] == s.cl.sent[k] && s.cl.sent[k..][1..] == s.cl.sent[k + 1..];
  }

  lemma NothingTaken(s: Session, s': Session)
    requires RequestsAligned(s) && RepliesAligned(s) && RequestsAligned(s') && RepliesAligned(s')
    requires s.h.pc.AwaitHeader? && |s.h.got| == |s.cl.sent| && s'.cl == s.cl
    requires s'.h == H.OnHeader(s.h, s.h.pc.stage, NO_HEADER)
    ensures MailOf(s).requests == [] && MailOf(s') == MailOf(s).(h := s'.h)
  {
  }

  lemma CompleteBlind(n: nat, h: H.Thread, inp: Bytes, sh: Shared, k: nat)
    requires h.pc.AwaitPayload? && |h.pc.acc| >= h.pc.header.size
    ensures var t, t' := H.ReceiveStep(n, h, inp, sh, k), H.ReceiveStep(n, h, [], sh, 0);
            && t.h == t'.h && t.sh == t'.sh && t.h.replies == h.replies && !t.h.pc.AwaitPayload?
            && |t.h.got| == |h.got| + if h.pc.header.whole then 1 else 0
  {
  }

  lemma PayloadIsMail(c: Suite, n: nat, s: Session, sh: Shared, hc: H.Choice)
    requires Inv(c, s) && HandlerMoves.Can(s, hc) && s.h.pc.AwaitPayload? && |s.h.pc.acc| >= s.h.pc.header.size
    requires var s' := HandlerMoves.After(c, n, s, sh, hc); RequestsAligned(s') && RepliesAligned(s')
    ensures MailAllowed(c, MailOf(s), HandlerMove(hc))
    ensures var (s', sh') := Next(c, n, s, sh, HandlerMove(hc));
            (MailOf(s'), sh') == MailHandler(c, n, MailOf(s), sh, hc)
  {
    CompleteBlind(n, s.h, s.c2s, sh, hc.k);
    CompleteHeld(s);
    PayloadGone(s, HandlerMoves.After(c, n, s, sh, hc));
  }

  /** At its end the payload is the one the handler was already taken to hold. */
  lemma CompleteHeld(s: Session)
    requires RequestsAligned(s) && RepliesAligned(s)
    requires s.h.pc.AwaitPayload? && |s.h.pc.acc| >= s.h.pc.header.size
    ensures MailOf(s).h == s.h
  {
    if s.h.pc.header.whole {
      PayloadComplete(s);
    }
  }

  lemma PayloadGone(s: Session, s': Session)
    requires RequestsAligned(s) && RepliesAligned(s) && RequestsAligned(s') && RepliesAligned(s')
    requires s.h.pc.AwaitPayload? && !s'.h.pc.AwaitPayload? && s'.cl == s.cl && s'.h.replies == s.h.replies
    requires |s'.h.got| == |s.h.got| + if s.h.pc.header.whole then 1 else 0
    ensures MailOf(s') == MailOf(s).(h := s'.h)
  {
  }

  /** A part of a payload arrives: no message moves. */
  lemma ChunkIsSilent(c: Suite, n: nat, s: Session, sh: Shared, hc: H.Choice)
    requires Inv(c, s) && HandlerMoves.Can(s, hc) && s.h.pc.AwaitPayload? && |s.h.pc.acc| < s.h.pc.header.size
    requires var s' := HandlerMoves.After(c, n, s, sh, hc); RequestsAligned(s') && RepliesAligned(s')
    ensures var (s', sh') := Next(c, n, s, sh, HandlerMove(hc)); (MailOf(s'), sh') == (MailOf(s), sh)
  {
    PayloadNotAtEnd(s);
    ChunkKeepsMail(s, HandlerMoves.After(c, n, s, sh, hc));
  }

  lemma ChunkKeepsMail(s: Session, s': Session)
    requires RequestsAligned(s) && RepliesAligned(s) && RequestsAligned(s') && RepliesAligned(s')
    requires s.h.pc.AwaitPayload? && s'.h.pc.AwaitPayload? && s.h.pc.header.size > 0 && s'.cl == s.cl
    requires s'.h == s.h.(pc := s.h.pc.(acc := s'.h.pc.acc))
    ensures MailOf(s') == MailOf(s)
  {
  }

  lemma TaskBlind(c: Suite, n: nat, h: H.Thread, inp: Bytes, sh: Shared, hc: H.Choice)
    requires h.pc.Work?
    ensures var t, t' := H.TaskStep(c, n, h, inp, sh, hc, h.pc.task), H.TaskStep(c, n, h, [], sh, hc, h.pc.task);
            t.h == t'.h && t.sh == t'.sh
  {
  }

  lemma TaskIsMail(c: Suite, n: nat, s: Session, sh: Shared, hc: H.Choice)
    requires Inv(c, s) && HandlerMoves.Can(s, hc) && s.h.pc.Work?
    requires var s' := HandlerMoves.After(c, n, s, sh, hc);
             RequestsAligned(s') && RepliesAligned(s') && HandlerMoves.SendsOne(s, s')
    ensures MailAllowed(c, MailOf(s), HandlerMove(hc))
    ensures var (s', sh') := Next(c, n, s, sh, HandlerMove(hc));
            (MailOf(s'), sh') == MailHandler(c, n, MailOf(s), sh, hc)
  {
    var s', k := HandlerMoves.After(c, n, s, sh, hc), |s.cl.seen|;
    TaskBlind(c, n, s.h, s.c2s, sh, hc);
    TaskKeepsGot(c, n, s.h, s.c2s, sh, hc);
    var more := if |s'.h.replies| > |s.h.replies| then [s'.h.replies[|s.h.replies|]] else [];
    assert s'.h.replies == s.h.replies + more;
    assert s'.h.replies[k..] == s.h.replies[k..] + more;
  }

  // ----- The refinement -----

  /** A handler in the middle of a payload: its step takes one more part of it off the stream. */
  predicate MidPayload(s: Session, m: Move) {
    m.HandlerMove? && s.h.pc.AwaitPayload? && |s.h.pc.acc| < s.h.pc.header.size
  }

  lemma HandlerMoveIsMail(c: Suite, n: nat, s: Session, sh: Shared, hc: H.Choice)
    requires Lawful(c) && Inv(c, s) && HandlerMoves.Can(s, hc)
    ensures var (s', sh') := Next(c, n, s, sh, HandlerMove(hc));
            && Inv(c, s')
            && if MidPayload(s, HandlerMove(hc)) then (MailOf(s'), sh') == (MailOf(s), sh)
               else MailAllowed(c, MailOf(s), HandlerMove(hc))
                    && (MailOf(s'), sh') == MailHandler(c, n, MailOf(s), sh, hc)
  {
    HandlerMoves.HandlerMoveKeeps(c, n, s, sh, hc);
    if MidPayload(s, HandlerMove(hc)) {
      ChunkIsSilent(c, n, s, sh, hc);
    } else {
      match s.h.pc {
        case AwaitHeader(_) => HeaderIsMail(c, n, s, sh, hc);
        case AwaitPayload(_, _, _) => PayloadIsMail(c, n, s, sh, hc);
        case Work(_) =>
          HandlerMoves.TaskPhase(c, n, s, sh, hc);
          TaskIsMail(c, n, s, sh, hc);
      }
    }
  }

  /**
   * Every move of the byte-level session is the same move on whole messages, except that a step inside a
   * payload moves nothing: both leave the same queues, the same endpoints and the same shared state.
   */
  lemma MoveIsMail(c: Suite, n: nat, s: Session, sh: Shared, m: Move)
    requires Lawful(c) && Inv(c, s) && Allowed(s, m)
    ensures var (s', sh') := Next(c, n, s, sh, m);
            && Inv(c, s')
            && if MidPayload(s, m) then (MailOf(s'), sh') == (MailOf(s), sh)
               else MailAllowed(c, MailOf(s), m) && (MailOf(s'), sh') == MailNext(c, n, MailOf(s), sh, m)
  {
    match m {
      case ClientMove(cc) => ClientMoveIsMail(c, s, cc);
      case HandlerMove(hc) => HandlerMoveIsMail(c, n, s, sh, hc);
    }
  }

  /** A run on whole messages; a move that is not allowed changes nothing. */
  function MailExec(c: Suite, n: nat, m: Mail, ticks: seq<Tick>): Mail {
    if ticks == [] then m else
      var b, t := MailExec(c, n, m, ticks[..|ticks| - 1]), ticks[|ticks| - 1];
      if MailAllowed(c, b, t.m) then MailNext(c, n, b, t.sh, t.m).0 else b
  }

  lemma MailExecSnoc(c: Suite, n: nat, m: Mail, ticks: seq<Tick>, t: Tick)
    requires MailAllowed(c, MailExec(c, n, m, ticks), t.m)
    ensures MailExec(c, n, m, ticks + [t]) == MailNext(c, n, MailExec(c, n, m, ticks), t.sh, t.m).0
  {
    assert (ticks + [t])[..|ticks|] == ticks;
  }

  /** Every byte-level run is a run on whole messages, with no more moves, in the same shared states. */
  lemma {:induction false} RunIsMail(c: Suite, n: nat, s0: Session, ticks: seq<Tick>) returns (mail: seq<Tick>)
    requires Lawful(c) && Start(c, s0)
    ensures Inv(c, s0) && Inv(c, Exec(c, n, s0, ticks)) && |mail| <= |ticks|
    ensures MailExec(c, n, MailOf(s0), mail) == MailOf(Exec(c, n, s0, ticks))
  {
    StartInv(c, s0);
    mail := [];
    if ticks != [] {
      var front, t := ticks[..|ticks| - 1], ticks[|ticks| - 1];
      mail := RunIsMail(c, n, s0, front);
      var b := Exec(c, n, s0, front);
      ExecSnoc(c, n, s0, front, t);
      assert front + [t] == ticks;
      if Allowed(b, t.m) {
        MoveIsMail(c, n, b, t.sh, t.m);
        if !MidPayload(b, t.m) {
          MailExecSnoc(c, n, MailOf(s0), mail, t);
          mail := mail + [t];
        }
      }
    }
  }
}
