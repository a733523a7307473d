/** Every move of the client keeps the session invariant. */
module ClientMoves {
  import opened ByteStrings
  import opened Cipher
  import opened Wire
  import opened Session
  import Cl = Client
  import H = Handler

  /** Reading as many bytes as the next response has gives that response and leaves the rest. */
  lemma ReceiveWhole(s: Session, n: nat)
    requires Packable(s.h.replies) && |s.cl.seen| < |s.h.replies|
    requires s.s2c == Replies(s.h.replies[|s.cl.seen|..]) && n == |Pack(s.h.replies[|s.cl.seen|])|
    ensures |s.s2c| >= n > 0
    ensures Parse(Cl.Buffer(s.s2c, n), n) == ParsedOf(s.h.replies[|s.cl.seen|])
    ensures Cl.Rest(s.s2c, n) == Replies(s.h.replies[|s.cl.seen| + 1..])
  {
    var k := |s.cl.seen|;
    var r := s.h.replies[k];
    assert s.h.replies[k..][1..] == s.h.replies[k + 1..];
    assert s.s2c == Pack(r) + Replies(s.h.replies[k + 1..]);
    ParsePacked(r, [], n);
    assert Pack(r) + [] == Pack(r);
  }

  /** A read from a handler that has given up, when everything was read before, gives code 0. */
  lemma ReceiveNothing(s: Session, n: nat)
    requires Packable(s.h.replies) && |s.cl.seen| == |s.h.replies| && s.s2c == Replies(s.h.replies[|s.cl.seen|..])
    requires ReadableSize(n)
    ensures s.s2c == [] && Cl.Rest(s.s2c, n) == []
    ensures Parse(Cl.Buffer(s.s2c, n), n).code == 0
  {
    var z := Cl.Buffer(s.s2c, n);
    assert z == Zeros(n);
    assert z[1..3] == [0, 0];
  }

  /** A longer read that finds only an acknowledgement before the end still shows its code. */
  lemma ReceiveShort(s: Session, n: nat)
    requires Packable(s.h.replies) && |s.cl.seen| + 1 == |s.h.replies| && s.h.replies[|s.cl.seen|] == H.ACK
    requires s.s2c == Replies(s.h.replies[|s.cl.seen|..]) && n > RESPONSE_HEADER
    ensures s.s2c != [] && |s.s2c| < n && Cl.Rest(s.s2c, n) == []
    ensures Parse(Cl.Buffer(s.s2c, n), n) == ParsedOf(H.ACK)
  {
    var k := |s.cl.seen|;
    assert s.h.replies[k..] == [H.ACK];
    assert [H.ACK][1..] == [];
    assert s.s2c == Pack(H.ACK);
    ParsePacked(H.ACK, Zeros(n - RESPONSE_HEADER), n);
  }

  function After(c: Suite, s: Session, ch: Cl.Choice): Session
    requires Cl.Usable(c, s.cl) && Cl.CanStep(s.cl, s.s2c, HandlerClosed(s), ch)
  {
    AfterClient(s, Cl.Step(c, s.cl, s.s2c, HandlerClosed(s), ch))
  }

  predicate Can(s: Session, ch: Cl.Choice) {
    Cl.CanStep(s.cl, s.s2c, HandlerClosed(s), ch)
  }

  lemma RequestsKept(c: Suite, s: Session, ch: Cl.Choice)
    requires Cl.Usable(c, s.cl) && RequestsAligned(s) && Can(s, ch)
    ensures RequestsAligned(After(c, s, ch)) && Cl.Usable(c, After(c, s, ch).cl)
  {
    Cl.StepKeeps(c, s.cl, s.s2c, HandlerClosed(s), ch);
    if Cl.Wanted(s.cl.pc) == 0 {
      Cl.ActSendsOne(c, s.cl, s.s2c, ch);
    } else {
      Cl.ReceiveSendsOne(c, s.cl, s.s2c, ch);
    }
    ClientKeepsRequests(c, s, Cl.Step(c, s.cl, s.s2c, HandlerClosed(s), ch));
  }

  lemma BeginKeeps(c: Suite, s: Session, ch: Cl.Choice)
    requires Inv(c, s) && Can(s, ch) && s.cl.pc == Cl.Begin
    ensures Inv(c, After(c, s, ch))
  {
    RequestsKept(c, s, ch);
  }

  lemma SendKeyKeeps(c: Suite, s: Session, ch: Cl.Choice)
    requires Inv(c, s) && Can(s, ch) && s.cl.pc == Cl.SendKey
    ensures Inv(c, After(c, s, ch))
  {
    RequestsKept(c, s, ch);
  }

  lemma AttemptPhase(c: Suite, s: Session, ch: Cl.Choice)
    requires Cl.Usable(c, s.cl) && Phase(c, s) && Can(s, ch) && s.cl.pc.Attempt?
    ensures Phase(c, After(c, s, ch)) && Keyed(After(c, s, ch))
  {
    var t := Cl.Act(c, s.cl, s.s2c, ch);
    if t.cl.pc.WaitCrc? {
      Cl.EncryptedFits(c, s.h.key, t.cl.data);
      assert t.cl.sent == s.cl.sent + [Cl.FileRequest(c, s.cl, s.h.key, t.cl.data)];
    }
  }

  lemma AttemptReplies(c: Suite, s: Session, ch: Cl.Choice)
    requires Cl.Usable(c, s.cl) && RepliesAligned(s) && Can(s, ch) && s.cl.pc.Attempt?
    ensures RepliesAligned(After(c, s, ch)) && !BeforeKey(After(c, s, ch).cl.pc)
  {
  }

  lemma AttemptKeeps(c: Suite, s: Session, ch: Cl.Choice)
    requires Inv(c, s) && Can(s, ch) && s.cl.pc.Attempt?
    ensures Inv(c, After(c, s, ch))
  {
    AttemptPhase(c, s, ch);
    AttemptReplies(c, s, ch);
    RequestsKept(c, s, ch);
  }

  /** Reading one more response keeps the replies aligned. */
  lemma SeenKeepsReplies(s: Session, s': Session)
    requires RepliesAligned(s) && s'.h == s.h && Tail(s'.cl) == [] && |s.cl.seen| < |s.h.replies|
    requires s'.cl.seen == s.cl.seen + [ParsedOf(s.h.replies[|s.cl.seen|])]
    requires s'.s2c == Replies(s.h.replies[|s.cl.seen| + 1..])
    ensures RepliesAligned(s')
  {
  }

  lemma RegistrationHeard(c: Suite, s: Session)
    requires Inv(c, s) && s.cl.pc.WaitRegistration? && (|s.s2c| < Cl.Wanted(s.cl.pc) ==> HandlerClosed(s))
    ensures |s.cl.seen| + 1 == |s.h.replies| && |s.cl.sent| == |s.h.got|
    ensures var r := s.h.replies[|s.cl.seen|];
            && |Pack(r)| == Cl.Wanted(s.cl.pc) && |s.s2c| >= Cl.Wanted(s.cl.pc)
            && (|| (r == Response(REGISTRATION_SUCCESS, s.h.id) && |s.h.id| == UUID_LENGTH
                    && s.h.pc == H.AwaitHeader(H.KeyExchange))
                || (r.code == REGISTRATION_FAILED && HandlerClosed(s)))
  {
    if |s.h.replies| == |s.cl.seen| {
      ReceiveNothing(s, Cl.Wanted(s.cl.pc));
    } else {
      ReceiveWhole(s, Cl.Wanted(s.cl.pc));
    }
  }

  /** What the client makes of a whole registration response. */
  lemma RegistrationTurn(c: Suite, cl: Cl.State, inp: Bytes, ch: Cl.Choice, p: Parsed)
    requires |cl.id| == UUID_LENGTH && cl.pc.WaitRegistration? && |inp| >= Cl.Wanted(cl.pc)
    requires p == Parse(Cl.Buffer(inp, Cl.Wanted(cl.pc)), Cl.Wanted(cl.pc))
    ensures var cl' := Cl.Receive(c, cl, inp, ch).cl;
            if p.code == REGISTRATION_SUCCESS
            then cl' == cl.(seen := cl.seen + [p], id := PadTo(p.payload, UUID_LENGTH)[..UUID_LENGTH],
                            pc := if ch.infoWritten then Cl.SendKey else Cl.Done(false))
            else cl' == cl.(seen := cl.seen + [p], pc := Cl.Done(false))
  {
  }

  /** What reading the registration response tells about session and client. */
  predicate RegistrationTold(s: Session, s': Session) {
    && |s.cl.seen| < |s.h.replies| && Quiet(s')
    && var r := s.h.replies[|s.cl.seen|];
       && |r.payload| < UINT32_LIMIT && s'.cl.seen == s.cl.seen + [ParsedOf(r)]
       && (r.code == REGISTRATION_SUCCESS ==> s'.cl.id == s.h.id)
       && (|| (s'.cl.pc == Cl.Done(false) && (HandlerClosed(s) || s.h.pc == H.AwaitHeader(H.KeyExchange)))
           || (s'.cl.pc == Cl.SendKey && s'.cl.id == s.h.id && s.h.pc == H.AwaitHeader(H.KeyExchange)
               && r.code == REGISTRATION_SUCCESS))
  }

  lemma RegistrationTells(s: Session, s': Session, next: Cl.Pc)
    requires |s.cl.sent| == |s.h.got| && |s.cl.seen| + 1 == |s.h.replies| && s'.h == s.h
    requires next == Cl.SendKey || next == Cl.Done(false)
    requires var r := s.h.replies[|s.cl.seen|];
             || (r == Response(REGISTRATION_SUCCESS, s.h.id) && |s.h.id| == UUID_LENGTH
                 && s.h.pc == H.AwaitHeader(H.KeyExchange)
                 && s'.cl == s.cl.(seen := s.cl.seen + [ParsedOf(r)], id := s.h.id, pc := next))
             || (r.code == REGISTRATION_FAILED && |r.payload| < UINT32_LIMIT && HandlerClosed(s)
                 && s'.cl == s.cl.(seen := s.cl.seen + [ParsedOf(r)], pc := Cl.Done(false)))
    ensures RegistrationTold(s, s')
  {
  }

  lemma RegistrationAccepted(c: Suite, s: Session, ch: Cl.Choice)
    requires Cl.Usable(c, s.cl) && Can(s, ch) && s.cl.pc.WaitRegistration? && |s.s2c| >= Cl.Wanted(s.cl.pc)
    requires |s.h.id| == UUID_LENGTH
    requires Parse(Cl.Buffer(s.s2c, Cl.Wanted(s.cl.pc)), Cl.Wanted(s.cl.pc))
             == ParsedOf(Response(REGISTRATION_SUCCESS, s.h.id))
    ensures After(c, s, ch).cl == s.cl.(seen := s.cl.seen + [ParsedOf(Response(REGISTRATION_SUCCESS, s.h.id))],
                                        id := s.h.id, pc := if ch.infoWritten then Cl.SendKey else Cl.Done(false))
  {
    RegistrationTurn(c, s.cl, s.s2c, ch, ParsedOf(Response(REGISTRATION_SUCCESS, s.h.id)));
    assert s.h.id[..UUID_LENGTH] == s.h.id;
  }

  lemma RegistrationDenied(c: Suite, s: Session, ch: Cl.Choice, p: Parsed)
    requires Cl.Usable(c, s.cl) && Can(s, ch) && s.cl.pc.WaitRegistration? && |s.s2c| >= Cl.Wanted(s.cl.pc)
    requires p == Parse(Cl.Buffer(s.s2c, Cl.Wanted(s.cl.pc)), Cl.Wanted(s.cl.pc)) && p.code != REGISTRATION_SUCCESS
    ensures After(c, s, ch).cl == s.cl.(seen := s.cl.seen + [p], pc := Cl.Done(false))
  {
    RegistrationTurn(c, s.cl, s.s2c, ch, p);
  }

  lemma RegistrationRests(c: Suite, s: Session, ch: Cl.Choice)
    requires Cl.Usable(c, s.cl) && Can(s, ch) && s.cl.pc.WaitRegistration?
    ensures After(c, s, ch).h == s.h && After(c, s, ch).s2c == Cl.Rest(s.s2c, Cl.Wanted(s.cl.pc))
  {
  }

  /** The client takes over the id that its handler registered, or stops. */
  lemma RegistrationRead(c: Suite, s: Session, ch: Cl.Choice)
    requires Inv(c, s) && Can(s, ch) && s.cl.pc.WaitRegistration?
    ensures RegistrationTold(s, After(c, s, ch)) && RepliesAligned(After(c, s, ch))
  {
    RegistrationHeard(c, s);
    ReceiveWhole(s, Cl.Wanted(s.cl.pc));
    RegistrationConcludes(c, s, ch);
  }

  lemma RegistrationConcludes(c: Suite, s: Session, ch: Cl.Choice)
    requires Cl.Usable(c, s.cl) && RepliesAligned(s) && Can(s, ch) && s.cl.pc.WaitRegistration?
    requires |s.cl.sent| == |s.h.got| && |s.cl.seen| + 1 == |s.h.replies| && |s.s2c| >= Cl.Wanted(s.cl.pc)
    requires var r := s.h.replies[|s.cl.seen|];
             && |Pack(r)| == Cl.Wanted(s.cl.pc)
             && Parse(Cl.Buffer(s.s2c, Cl.Wanted(s.cl.pc)), Cl.Wanted(s.cl.pc)) == ParsedOf(r)
             && (|| (r == Response(REGISTRATION_SUCCESS, s.h.id) && |s.h.id| == UUID_LENGTH
                     && s.h.pc == H.AwaitHeader(H.KeyExchange))
                 || (r.code == REGISTRATION_FAILED && HandlerClosed(s)))
    ensures RegistrationTold(s, After(c, s, ch)) && RepliesAligned(After(c, s, ch))
  {
    var r, s' := s.h.replies[|s.cl.seen|], After(c, s, ch);
    RegistrationRests(c, s, ch);
    if r.code == REGISTRATION_SUCCESS {
      RegistrationAccepted(c, s, ch);
    } else {
      RegistrationDenied(c, s, ch, ParsedOf(r));
    }
    WholeKeepsReplies(s, s', Cl.Wanted(s.cl.pc));
    RegistrationTells(s, s', if ch.infoWritten then Cl.SendKey else Cl.Done(false));
  }

  lemma RegistrationKeeps(c: Suite, s: Session, ch: Cl.Choice)
    requires Inv(c, s) && Can(s, ch) && s.cl.pc == Cl.WaitRegistration
    ensures Inv(c, After(c, s, ch))
  {
    RequestsKept(c, s, ch);
    RegistrationRead(c, s, ch);
  }

  lemma KeyHeard(c: Suite, s: Session)
    requires Inv(c, s) && s.cl.pc.WaitKey? && (|s.s2c| < Cl.Wanted(s.cl.pc) ==> HandlerClosed(s))
    ensures |s.cl.seen| + 1 == |s.h.replies| && s.h.pc == H.AwaitHeader(H.File)
    ensures var r := s.h.replies[|s.cl.seen|];
            && |Pack(r)| == Cl.Wanted(s.cl.pc) && |s.s2c| >= Cl.Wanted(s.cl.pc)
            && r.code == AES_KEY && |r.payload| == UUID_LENGTH + WRAPPED_KEY_SIZE
            && c.unwrap(s.cl.priv, r.payload[UUID_LENGTH..]) == Some(s.h.key)
  {
    if |s.h.replies| == |s.cl.seen| {
      ReceiveNothing(s, Cl.Wanted(s.cl.pc));
    } else {
      ReceiveWhole(s, Cl.Wanted(s.cl.pc));
    }
  }

  /** What the client makes of a whole response that carries its key. */
  lemma KeyTurn(c: Suite, cl: Cl.State, inp: Bytes, ch: Cl.Choice, p: Parsed, key: Block)
    requires |cl.id| == UUID_LENGTH && cl.pc.WaitKey? && |inp| >= Cl.Wanted(cl.pc)
    requires p == Parse(Cl.Buffer(inp, Cl.Wanted(cl.pc)), Cl.Wanted(cl.pc)) && p.code == AES_KEY
    requires |p.payload| == UUID_LENGTH + WRAPPED_KEY_SIZE && c.unwrap(cl.priv, p.payload[UUID_LENGTH..]) == Some(key)
    ensures Cl.Receive(c, cl, inp, ch).cl == cl.(seen := cl.seen + [p], aes := Some(key), pc := Cl.Attempt(0))
  {
    assert p.payload[UUID_LENGTH..UUID_LENGTH + WRAPPED_KEY_SIZE] == p.payload[UUID_LENGTH..];
  }

  lemma KeyAccepted(c: Suite, s: Session, ch: Cl.Choice, r: Response)
    requires Cl.Usable(c, s.cl) && Can(s, ch) && s.cl.pc.WaitKey? && |s.s2c| >= Cl.Wanted(s.cl.pc)
    requires r.code == AES_KEY && |r.payload| == UUID_LENGTH + WRAPPED_KEY_SIZE
    requires c.unwrap(s.cl.priv, r.payload[UUID_LENGTH..]) == Some(s.h.key)
    requires Parse(Cl.Buffer(s.s2c, Cl.Wanted(s.cl.pc)), Cl.Wanted(s.cl.pc)) == ParsedOf(r)
    ensures After(c, s, ch).cl == s.cl.(seen := s.cl.seen + [ParsedOf(r)], aes := Some(s.h.key), pc := Cl.Attempt(0))
    ensures After(c, s, ch).h == s.h && After(c, s, ch).s2c == Cl.Rest(s.s2c, Cl.Wanted(s.cl.pc))
  {
    assert ParsedOf(r).payload == r.payload;
    KeyTurn(c, s.cl, s.s2c, ch, ParsedOf(r), s.h.key);
  }

  lemma KeyReplies(c: Suite, s: Session, ch: Cl.Choice, r: Response)
    requires Cl.Usable(c, s.cl) && RepliesAligned(s) && Can(s, ch) && s.cl.pc.WaitKey?
    requires |s.cl.seen| < |s.h.replies| && r == s.h.replies[|s.cl.seen|]
    requires r.code == AES_KEY && |r.payload| == UUID_LENGTH + WRAPPED_KEY_SIZE
    requires |s.s2c| >= Cl.Wanted(s.cl.pc) == |Pack(r)|
    requires c.unwrap(s.cl.priv, r.payload[UUID_LENGTH..]) == Some(s.h.key)
    requires Parse(Cl.Buffer(s.s2c, Cl.Wanted(s.cl.pc)), Cl.Wanted(s.cl.pc)) == ParsedOf(r)
    ensures RepliesAligned(After(c, s, ch)) && After(c, s, ch).h == s.h
    ensures After(c, s, ch).cl == s.cl.(seen := s.cl.seen + [ParsedOf(r)], aes := Some(s.h.key), pc := Cl.Attempt(0))
  {
    KeyAccepted(c, s, ch, r);
    WholeKeepsReplies(s, After(c, s, ch), Cl.Wanted(s.cl.pc));
  }

  lemma KeyRead(c: Suite, s: Session, ch: Cl.Choice)
    requires Inv(c, s) && Can(s, ch) && s.cl.pc == Cl.WaitKey
    ensures RepliesAligned(After(c, s, ch)) && Phase(c, After(c, s, ch)) && Keyed(After(c, s, ch))
    ensures !BeforeKey(After(c, s, ch).cl.pc)
  {
    KeyHeard(c, s);
    ReceiveWhole(s, Cl.Wanted(s.cl.pc));
    KeyReplies(c, s, ch, s.h.replies[|s.cl.seen|]);
    KeyPhase(c, s, After(c, s, ch));
  }

  lemma KeyKeeps(c: Suite, s: Session, ch: Cl.Choice)
    requires Inv(c, s) && Can(s, ch) && s.cl.pc == Cl.WaitKey
    ensures Inv(c, After(c, s, ch))
  {
    KeyRead(c, s, ch);
    RequestsKept(c, s, ch);
  }

  lemma KeyPhase(c: Suite, s: Session, s': Session)
    requires Cl.Usable(c, s.cl) && Phase(c, s) && s.cl.pc.WaitKey? && s'.h == s.h
    requires |s.cl.seen| + 1 == |s.h.replies| && s.h.pc == H.AwaitHeader(H.File)
    requires s'.cl == s.cl.(seen := s'.cl.seen, aes := Some(s.h.key), pc := Cl.Attempt(0))
    requires |s'.cl.seen| == |s.cl.seen| + 1
    ensures Phase(c, s') && Keyed(s')
  {
  }

  lemma CrcSends(c: Suite, s: Session, ch: Cl.Choice)
    requires Inv(c, s) && Can(s, ch) && s.cl.pc.WaitCrc?
    ensures RequestsAligned(After(c, s, ch)) && Cl.Usable(c, After(c, s, ch).cl)
    ensures Keyed(After(c, s, ch)) && After(c, s, ch).h == s.h
    ensures After(c, s, ch).cl.pc.WaitSuccess? || After(c, s, ch).cl.pc.WaitResending?
  {
    RequestsKept(c, s, ch);
  }

  lemma CrcSilence(c: Suite, s: Session, ch: Cl.Choice)
    requires Cl.Usable(c, s.cl) && RepliesAligned(s) && Can(s, ch) && s.cl.pc.WaitCrc?
    requires |s.h.replies| == |s.cl.seen|
    ensures RepliesAligned(After(c, s, ch)) && After(c, s, ch).cl.seen == s.cl.seen
  {
    ReceiveNothing(s, Cl.Wanted(s.cl.pc));
    assert After(c, s, ch).s2c == [];
  }

  /** An acknowledgement where a longer response was awaited is all that is left to read. */
  lemma ShortKeepsReplies(s: Session, s': Session, n: nat)
    requires RepliesAligned(s) && Tail(s.cl) == [] && Answered(s, H.ACK) && n > RESPONSE_HEADER
    requires s'.h == s.h && Tail(s'.cl) == [] && s'.s2c == Cl.Rest(s.s2c, n)
    requires s'.cl.seen == if s.s2c == [] then s.cl.seen else s.cl.seen + [Parse(Cl.Buffer(s.s2c, n), n)]
    ensures RepliesAligned(s') && |s'.cl.seen| == |s.h.replies|
  {
    ReceiveShort(s, n);
    assert s.h.replies[|s.cl.seen| + 1..] == [];
    SeenKeepsReplies(s, s');
  }

  lemma CrcRefused(c: Suite, s: Session, ch: Cl.Choice)
    requires Cl.Usable(c, s.cl) && RepliesAligned(s) && Can(s, ch) && s.cl.pc.WaitCrc? && Answered(s, H.ACK)
    ensures RepliesAligned(After(c, s, ch)) && |After(c, s, ch).cl.seen| == |s.h.replies|
  {
    ShortKeepsReplies(s, After(c, s, ch), Cl.Wanted(s.cl.pc));
  }

  lemma CrcAbandoned(c: Suite, s: Session, ch: Cl.Choice)
    requires Inv(c, s) && Can(s, ch) && s.cl.pc.WaitCrc? && HandlerClosed(s)
    ensures RepliesAligned(After(c, s, ch)) && Abandoned(After(c, s, ch))
  {
    if |s.h.replies| == |s.cl.seen| {
      CrcSilence(c, s, ch);
    } else {
      assert Answered(s, H.ACK);
      CrcRefused(c, s, ch);
    }
  }

  lemma CrcHeard(c: Suite, s: Session, ch: Cl.Choice)
    requires Inv(c, s) && Can(s, ch) && s.cl.pc.WaitCrc? && !HandlerClosed(s)
    ensures RepliesAligned(After(c, s, ch)) && Phase(c, After(c, s, ch))
    ensures After(c, s, ch).cl.pc.WaitSuccess? <==> Cl.FileCrc(c, ch.content) == c.crc(s.cl.data)
  {
    var n := Cl.Wanted(s.cl.pc);
    assert |s.cl.seen| < |s.h.replies| by {
      if |s.h.replies| == |s.cl.seen| { ReceiveNothing(s, n); }
    }
    ReceiveWhole(s, n);
    SeenKeepsReplies(s, After(c, s, ch));
    CrcAnswered(c, s, ch);
  }

  lemma CrcKeeps(c: Suite, s: Session, ch: Cl.Choice)
    requires Inv(c, s) && Can(s, ch) && s.cl.pc.WaitCrc?
    ensures Inv(c, After(c, s, ch))
  {
    CrcSends(c, s, ch);
    if HandlerClosed(s) {
      CrcAbandoned(c, s, ch);
    } else {
      CrcHeard(c, s, ch);
    }
  }

  lemma CrcAnswered(c: Suite, s: Session, ch: Cl.Choice)
    requires Cl.Usable(c, s.cl) && Phase(c, s) && Can(s, ch) && s.cl.pc.WaitCrc?
    requires Packable(s.h.replies) && |s.cl.seen| < |s.h.replies| && s.h.replies[|s.cl.seen|] != H.ACK
    requires Parse(Cl.Buffer(s.s2c, Cl.Wanted(s.cl.pc)), Cl.Wanted(s.cl.pc)) == ParsedOf(s.h.replies[|s.cl.seen|])
    requires s.s2c != []
    ensures Phase(c, After(c, s, ch))
    ensures After(c, s, ch).cl.pc.WaitSuccess? <==> Cl.FileCrc(c, ch.content) == c.crc(s.cl.data)
  {
    assert Uploading(c, s) && s.h.pc.AwaitHeader?;
    var job := s.h.pc.stage.job;
    var p := ParsedOf(s.h.replies[|s.cl.seen|]);
    CrcPayloadRoundTrip(s.cl.id, job.size, job.name, c.crc(s.cl.data));
    assert Cl.ServerCrc(p) == c.crc(s.cl.data);
    var s' := After(c, s, ch);
    assert JobMatches(c, s', job) && ReadingVerdict(c, s');
    if s'.cl.pc.WaitSuccess? {
      assert Asked(s', Cl.VerdictRequest(s'.cl, CRC_SUCCESS));
      assert Confirming(c, s');
    } else {
      assert Asked(s', Cl.VerdictRequest(s'.cl, CRC_RESENDING));
      assert Refusing(c, s');
    }
  }

  /** A handler that has given up has not sent a checksum, and the client takes 0 in its place. */
  lemma CrcFromClosed(c: Suite, s: Session, ch: Cl.Choice)
    requires Inv(c, s) && Can(s, ch) && s.cl.pc.WaitCrc? && HandlerClosed(s)
    ensures After(c, s, ch).cl.pc.WaitSuccess? <==> Cl.FileCrc(c, ch.content) == 0
  {
    var n := Cl.Wanted(s.cl.pc);
    if |s.h.replies| == |s.cl.seen| {
      ReceiveNothing(s, n);
    } else {
      assert Answered(s, H.ACK);
      ReceiveShort(s, n);
    }
  }

  /**
   * The verdict on an upload: while the handler lives, the client confirms exactly when the checksum of its second
   * read of the file is that of the bytes it encrypted after the first; once the handler has given up, exactly
   * when its own checksum is 0, as for a file that cannot be read.
   */
  lemma CrcVerdict(c: Suite, s: Session, ch: Cl.Choice)
    requires Inv(c, s) && Can(s, ch) && s.cl.pc.WaitCrc?
    ensures After(c, s, ch).cl.pc.WaitSuccess?
            <==> Cl.FileCrc(c, ch.content) == if HandlerClosed(s) then 0 else c.crc(s.cl.data)
  {
    if HandlerClosed(s) {
      CrcFromClosed(c, s, ch);
    } else {
      CrcHeard(c, s, ch);
    }
  }

  /** The three header bytes of the acknowledgement are read alone; its size field stays unread. */
  lemma ReceiveThree(s: Session)
    requires Packable(s.h.replies) && |s.cl.seen| < |s.h.replies| && s.h.replies[|s.cl.seen|] == H.ACK
    requires s.s2c == Replies(s.h.replies[|s.cl.seen|..])
    ensures |s.s2c| >= 3 && Parse(Cl.Buffer(s.s2c, 3), 3) == ParsedOf(H.ACK)
    ensures Cl.Rest(s.s2c, 3) == Pack(H.ACK)[3..] + Replies(s.h.replies[|s.cl.seen| + 1..])
  {
    var k := |s.cl.seen|;
    var rest := Replies(s.h.replies[k + 1..]);
    assert s.h.replies[k..][1..] == s.h.replies[k + 1..];
    assert s.s2c == Pack(H.ACK) + rest;
    assert s.s2c[..3] == Pack(H.ACK)[..3];
    ParseHeaderOnly(H.ACK);
  }

  lemma ConfirmedAnswer(c: Suite, s: Session)
    requires Cl.Usable(c, s.cl) && Phase(c, s) && s.cl.pc.WaitSuccess? && |s.cl.seen| < |s.h.replies|
    ensures s.h.replies[|s.cl.seen|] == H.ACK
  {
    assert Confirming(c, s);
  }

  lemma ThreeKeepsReplies(s: Session, s': Session)
    requires RepliesAligned(s) && Tail(s.cl) == [] && |s.cl.seen| < |s.h.replies| && s.h.replies[|s.cl.seen|] == H.ACK
    requires s'.h == s.h && s'.cl.pc == Cl.Done(true) && s'.s2c == Cl.Rest(s.s2c, 3)
    requires s'.cl.seen == s.cl.seen + [ParsedOf(H.ACK)]
    ensures RepliesAligned(s')
  {
    ReceiveThree(s);
    assert s.h.replies[|s'.cl.seen|..] == s.h.replies[|s.cl.seen| + 1..];
  }

  lemma SuccessTurn(c: Suite, cl: Cl.State, inp: Bytes, ch: Cl.Choice, p: Parsed)
    requires |cl.id| == UUID_LENGTH && cl.pc.WaitSuccess? && inp != []
    requires p == Parse(Cl.Buffer(inp, 3), 3) && p.code == REQUEST_RECEIVED
    ensures Cl.Receive(c, cl, inp, ch).cl == cl.(seen := cl.seen + [p], pc := Cl.Done(true))
  {
  }

  lemma SuccessState(c: Suite, s: Session, ch: Cl.Choice)
    requires Cl.Usable(c, s.cl) && Can(s, ch) && s.cl.pc.WaitSuccess? && s.s2c != []
    requires Parse(Cl.Buffer(s.s2c, 3), 3) == ParsedOf(H.ACK)
    ensures After(c, s, ch).cl == s.cl.(seen := s.cl.seen + [ParsedOf(H.ACK)], pc := Cl.Done(true))
    ensures After(c, s, ch).h == s.h && After(c, s, ch).s2c == Cl.Rest(s.s2c, 3)
  {
    SuccessTurn(c, s.cl, s.s2c, ch, ParsedOf(H.ACK));
  }

  lemma ThreeRead(c: Suite, s: Session, ch: Cl.Choice)
    requires Cl.Usable(c, s.cl) && RepliesAligned(s) && Can(s, ch) && s.cl.pc.WaitSuccess?
    requires |s.cl.seen| < |s.h.replies| && s.h.replies[|s.cl.seen|] == H.ACK
    ensures After(c, s, ch).cl == s.cl.(seen := s.cl.seen + [ParsedOf(H.ACK)], pc := Cl.Done(true))
    ensures RepliesAligned(After(c, s, ch))
  {
    ReceiveThree(s);
    SuccessState(c, s, ch);
    ThreeKeepsReplies(s, After(c, s, ch));
  }

  lemma SuccessRead(c: Suite, s: Session, ch: Cl.Choice)
    requires Inv(c, s) && Can(s, ch) && s.cl.pc.WaitSuccess? && |s.cl.seen| < |s.h.replies|
    ensures After(c, s, ch).cl == s.cl.(seen := s.cl.seen + [ParsedOf(H.ACK)], pc := Cl.Done(true))
    ensures RepliesAligned(After(c, s, ch))
  {
    ConfirmedAnswer(c, s);
    ThreeRead(c, s, ch);
  }

  lemma SuccessKeeps(c: Suite, s: Session, ch: Cl.Choice)
    requires Inv(c, s) && Can(s, ch) && s.cl.pc.WaitSuccess?
    ensures Inv(c, After(c, s, ch))
  {
    RequestsKept(c, s, ch);
    if |s.h.replies| == |s.cl.seen| {
      ReceiveNothing(s, 3);
      assert Abandoned(After(c, s, ch));
    } else {
      SuccessRead(c, s, ch);
      SuccessPhase(c, s, After(c, s, ch));
    }
  }

  lemma SuccessPhase(c: Suite, s: Session, s': Session)
    requires Phase(c, s) && s.cl.pc.WaitSuccess? && |s.cl.seen| < |s.h.replies| && s'.h == s.h
    requires s'.cl == s.cl.(seen := s.cl.seen + [ParsedOf(H.ACK)], pc := Cl.Done(true))
    ensures Phase(c, s')
  {
    assert Confirming(c, s);
    assert Storing(c, s) ==> Storing(c, s');
  }

  lemma FailureAnswer(c: Suite, s: Session)
    requires Cl.Usable(c, s.cl) && Phase(c, s) && (s.cl.pc.WaitResending? || s.cl.pc.WaitFinished?)
    ensures |s.cl.seen| < |s.h.replies| ==> s.h.replies[|s.cl.seen|] == H.ACK
  {
  }

  function FailurePc(pc: Cl.Pc): Cl.Pc
    requires pc.WaitResending? || pc.WaitFinished?
  {
    if pc.WaitFinished? then Cl.Done(false) else Cl.Attempt(pc.i + 1)
  }

  lemma FailureSilence(c: Suite, s: Session, ch: Cl.Choice)
    requires Cl.Usable(c, s.cl) && RepliesAligned(s) && Can(s, ch) && (s.cl.pc.WaitResending? || s.cl.pc.WaitFinished?)
    requires |s.h.replies| == |s.cl.seen|
    ensures RepliesAligned(After(c, s, ch)) && After(c, s, ch).cl == s.cl.(pc := FailurePc(s.cl.pc))
  {
    ReceiveNothing(s, RESPONSE_HEADER);
  }

  lemma WholeKeepsReplies(s: Session, s': Session, n: nat)
    requires RepliesAligned(s) && Tail(s.cl) == [] && |s.cl.seen| < |s.h.replies|
    requires n == |Pack(s.h.replies[|s.cl.seen|])|
    requires s'.h == s.h && Tail(s'.cl) == [] && s'.s2c == Cl.Rest(s.s2c, n)
    requires s'.cl.seen == s.cl.seen + [ParsedOf(s.h.replies[|s.cl.seen|])]
    ensures RepliesAligned(s')
  {
    ReceiveWhole(s, n);
    SeenKeepsReplies(s, s');
  }

  lemma FailureTurn(c: Suite, cl: Cl.State, inp: Bytes, ch: Cl.Choice, p: Parsed)
    requires |cl.id| == UUID_LENGTH && (cl.pc.WaitResending? || cl.pc.WaitFinished?) && inp != []
    requires p == Parse(Cl.Buffer(inp, RESPONSE_HEADER), RESPONSE_HEADER)
    ensures Cl.Receive(c, cl, inp, ch).cl == cl.(seen := cl.seen + [p], pc := FailurePc(cl.pc))
  {
  }

  lemma FailureState(c: Suite, s: Session, ch: Cl.Choice)
    requires Cl.Usable(c, s.cl) && Can(s, ch) && (s.cl.pc.WaitResending? || s.cl.pc.WaitFinished?) && s.s2c != []
    requires Parse(Cl.Buffer(s.s2c, RESPONSE_HEADER), RESPONSE_HEADER) == ParsedOf(H.ACK)
    ensures After(c, s, ch).cl == s.cl.(seen := s.cl.seen + [ParsedOf(H.ACK)], pc := FailurePc(s.cl.pc))
    ensures After(c, s, ch).h == s.h && After(c, s, ch).s2c == Cl.Rest(s.s2c, RESPONSE_HEADER)
  {
    FailureTurn(c, s.cl, s.s2c, ch, ParsedOf(H.ACK));
  }

  lemma FailureHeard(c: Suite, s: Session, ch: Cl.Choice)
    requires Cl.Usable(c, s.cl) && RepliesAligned(s) && Can(s, ch) && (s.cl.pc.WaitResending? || s.cl.pc.WaitFinished?)
    requires |s.cl.seen| < |s.h.replies| && s.h.replies[|s.cl.seen|] == H.ACK
    ensures RepliesAligned(After(c, s, ch))
    ensures After(c, s, ch).cl == s.cl.(seen := s.cl.seen + [ParsedOf(H.ACK)], pc := FailurePc(s.cl.pc))
  {
    ReceiveWhole(s, RESPONSE_HEADER);
    FailureState(c, s, ch);
    WholeKeepsReplies(s, After(c, s, ch), RESPONSE_HEADER);
  }

  lemma FailurePhase(c: Suite, s: Session, s': Session)
    requires Phase(c, s) && (s.cl.pc.WaitResending? || s.cl.pc.WaitFinished?) && s'.h == s.h
    requires s'.cl == s.cl.(seen := s'.cl.seen, pc := FailurePc(s.cl.pc))
    requires |s.cl.seen| <= |s.h.replies|
    requires |s'.cl.seen| == |s.cl.seen| + if |s.h.replies| == |s.cl.seen| then 0 else 1
    requires |s.cl.seen| < |s.h.replies| || HandlerClosed(s)
    ensures Phase(c, s')
  {
  }

  lemma FailureKeeps(c: Suite, s: Session, ch: Cl.Choice)
    requires Inv(c, s) && Can(s, ch) && (s.cl.pc.WaitResending? || s.cl.pc.WaitFinished?)
    ensures Inv(c, After(c, s, ch))
  {
    RequestsKept(c, s, ch);
    FailureAnswer(c, s);
    if |s.h.replies| == |s.cl.seen| {
      ReceiveNothing(s, RESPONSE_HEADER);
      FailureSilence(c, s, ch);
    } else {
      FailureHeard(c, s, ch);
    }
    FailurePhase(c, s, After(c, s, ch));
  }

  lemma ClientMoveKeeps(c: Suite, s: Session, ch: Cl.Choice)
    requires Inv(c, s) && Can(s, ch)
    ensures Inv(c, After(c, s, ch))
  {
    match s.cl.pc {
      case WaitRegistration => RegistrationKeeps(c, s, ch);
      case WaitKey => KeyKeeps(c, s, ch);
      case WaitCrc(_) => CrcKeeps(c, s, ch);
      case WaitSuccess(_) => SuccessKeeps(c, s, ch);
      case WaitResending(_) => FailureKeeps(c, s, ch);
      case WaitFinished => FailureKeeps(c, s, ch);
      case Begin => BeginKeeps(c, s, ch);
      case SendKey => SendKeyKeeps(c, s, ch);
      case Attempt(_) => AttemptKeeps(c, s, ch);
    }
  }
}
