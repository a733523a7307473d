/** Every move of the handler keeps the session invariant, whatever the shared state is at that moment. */
module HandlerMoves {
  import opened ByteStrings
  import opened Cipher
  import opened Wire
  import opened Tables
  import opened Session
  import Cl = Client
  import H = Handler

  predicate Can(s: Session, ch: H.Choice) {
    Allowed(s, HandlerMove(ch))
  }

  function After(c: Suite, n: nat, s: Session, sh: Shared, ch: H.Choice): Session
    requires Cl.Usable(c, s.cl) && Can(s, ch)
  {
    Next(c, n, s, sh, HandlerMove(ch)).0
  }

  /** A step either sends nothing, or sends one response. */
  ghost predicate SendsOne(s: Session, s': Session) {
    || (s'.h.replies == s.h.replies && s'.s2c == s.s2c)
    || exists r: Response ::
         |r.payload| <= RESPONSE_ROOM && s'.h.replies == s.h.replies + [r] && s'.s2c == s.s2c + Pack(r)
  }

  lemma SendingKeepsReplies(s: Session, s': Session)
    requires RepliesAligned(s) && s'.cl == s.cl && SendsOne(s, s')
    ensures RepliesAligned(s')
  {
    var k := |s.cl.seen|;
    if s'.h.replies != s.h.replies {
      var r: Response :| |r.payload| <= RESPONSE_ROOM && s'.h.replies == s.h.replies + [r] && s'.s2c == s.s2c + Pack(r);
      assert s'.h.replies[k..] == s.h.replies[k..] + [r];
      RepliesSnoc(s.h.replies[k..], r);
    }
  }

  lemma ReceivingSendsNothing(c: Suite, n: nat, s: Session, sh: Shared, ch: H.Choice)
    requires Cl.Usable(c, s.cl) && Can(s, ch) && !s.h.pc.Work?
    ensures SendsOne(s, After(c, n, s, sh, ch))
  {
    assert s.s2c + [] == s.s2c;
  }

  lemma HeaderPhase(c: Suite, s: Session, s': Session)
    requires Cl.Usable(c, s.cl) && Phase(c, s) && s.h.pc.AwaitHeader? && s'.cl == s.cl
    requires |s.h.got| < |s.cl.sent| && Sendable(s.cl.sent[|s.h.got|])
    requires s'.h == H.OnHeader(s.h, s.h.pc.stage, HeaderOf(s.cl.sent[|s.h.got|]))
    ensures Phase(c, s')
  {
  }

  lemma HeaderMissing(c: Suite, s: Session, s': Session)
    requires Cl.Usable(c, s.cl) && Phase(c, s) && s.h.pc.AwaitHeader? && s'.cl == s.cl
    requires |s.h.got| == |s.cl.sent| && ClientClosed(s)
    requires s'.h == H.OnHeader(s.h, s.h.pc.stage, NO_HEADER)
    ensures Phase(c, s')
  {
  }

  lemma HeaderReadPhase(c: Suite, n: nat, s: Session, sh: Shared, ch: H.Choice)
    requires Cl.Usable(c, s.cl) && RequestsAligned(s) && Phase(c, s) && Can(s, ch) && s.h.pc.AwaitHeader?
    ensures Phase(c, After(c, n, s, sh, ch))
  {
    var s' := After(c, n, s, sh, ch);
    if s.c2s != [] {
      HeaderRead(s, ch);
      HeaderPhase(c, s, s');
    } else {
      NothingPending(s);
      assert s.c2s[..0] == [] && ParseHeader([]) == NO_HEADER;
      HeaderMissing(c, s, s');
    }
  }

  lemma HeaderKeeps(c: Suite, n: nat, s: Session, sh: Shared, ch: H.Choice)
    requires Inv(c, s) && Can(s, ch) && s.h.pc.AwaitHeader?
    ensures Inv(c, After(c, n, s, sh, ch))
  {
    var s' := After(c, n, s, sh, ch);
    HandlerKeepsRequests(c, n, s, sh, ch);
    ReceivingSendsNothing(c, n, s, sh, ch);
    SendingKeepsReplies(s, s');
    HeaderReadPhase(c, n, s, sh, ch);
  }

  lemma NothingPending(s: Session)
    requires RequestsAligned(s) && s.h.pc.AwaitHeader? && s.c2s == []
    ensures |s.cl.sent| == |s.h.got|
  {
    assert Stream(s.cl.sent[|s.h.got|..]) == [] ==> s.cl.sent[|s.h.got|..] == [];
  }

  lemma PayloadPhase(c: Suite, n: nat, s: Session, sh: Shared, ch: H.Choice)
    requires Cl.Usable(c, s.cl) && RequestsAligned(s) && Phase(c, s) && Can(s, ch) && s.h.pc.AwaitPayload?
    ensures Phase(c, After(c, n, s, sh, ch))
  {
    var s' := After(c, n, s, sh, ch);
    if |s.h.pc.acc| < s.h.pc.header.size {
      PayloadNotAtEnd(s);
      PayloadGrows(c, s, s');
    } else if s.h.pc.header.whole {
      PayloadComplete(s);
      PayloadDone(c, s, s');
    } else {
      assert s.cl.pc == Cl.Done(false) || s.cl.pc == Cl.Done(true);
    }
  }

  lemma PayloadKeeps(c: Suite, n: nat, s: Session, sh: Shared, ch: H.Choice)
    requires Inv(c, s) && Can(s, ch) && s.h.pc.AwaitPayload?
    ensures Inv(c, After(c, n, s, sh, ch))
  {
    HandlerKeepsRequests(c, n, s, sh, ch);
    ReceivingSendsNothing(c, n, s, sh, ch);
    SendingKeepsReplies(s, After(c, n, s, sh, ch));
    PayloadPhase(c, n, s, sh, ch);
  }

  lemma PayloadGrows(c: Suite, s: Session, s': Session)
    requires Cl.Usable(c, s.cl) && Phase(c, s) && s.h.pc.AwaitPayload? && s'.cl == s.cl
    requires s'.h.pc.AwaitPayload? && s'.h == s.h.(pc := s.h.pc.(acc := s'.h.pc.acc)) && s'.h.pc.header.whole
    ensures Phase(c, s')
  {
  }

  /** A complete payload: the handler moves on with the request the client sent. */
  lemma PayloadDone(c: Suite, s: Session, s': Session)
    requires Cl.Usable(c, s.cl) && Phase(c, s) && s.h.pc.AwaitPayload? && s.h.pc.header.whole && s'.cl == s.cl
    requires |s.h.got| < |s.cl.sent| && Sendable(s.cl.sent[|s.h.got|])
    requires s.h.pc.header == HeaderOf(s.cl.sent[|s.h.got|])
    requires var r := s.cl.sent[|s.h.got|];
             s'.h == H.OnPayload(s.h.(got := s.h.got + [r]), s.h.pc.stage, HeaderOf(r), r.payload)
    ensures Phase(c, s')
  {
    var p := s.cl.sent[|s.h.got|].payload;
    match s.cl.pc {
      case WaitKey =>
        assert p == Cl.KeyRequest(c, s.cl).payload;
        assert p[NAME_FIELD..] == c.publicOf(s.cl.priv);
      case WaitCrc(_) =>
        UploadReceived(c, s, s');
      case _ =>
    }
  }

  lemma UploadReceived(c: Suite, s: Session, s': Session)
    requires Cl.Usable(c, s.cl) && Phase(c, s) && s.cl.pc.WaitCrc? && s'.cl == s.cl
    requires s.h.pc.AwaitPayload? && s.h.pc.header.whole
    requires |s.h.got| < |s.cl.sent| && Sendable(s.cl.sent[|s.h.got|])
    requires s.h.pc.header == HeaderOf(s.cl.sent[|s.h.got|])
    requires var r := s.cl.sent[|s.h.got|];
             s'.h == H.OnPayload(s.h.(got := s.h.got + [r]), s.h.pc.stage, HeaderOf(r), r.payload)
    ensures Phase(c, s')
  {
    assert Uploading(c, s) && s.h.pc.stage == H.File;
    FilePayloadRoundTrip(s.cl.id, s.cl.file, ClientEncrypt(c, s.h.key, s.cl.data));
    assert Quiet(s') && UploadMatches(c, s', s'.h.pc.task.up);
  }

  // ----- Tasks: what they send -----

  /** A task of the handler sends nothing, or the response it appends. */
  lemma TurnSendsOne(s: Session, t: H.Turn)
    requires Appends(s, t)
    ensures SendsOne(s, AfterHandler(s, t))
  {
    assert s.s2c + [] == s.s2c;
    if t.h.replies != s.h.replies {
      var r := t.h.replies[|s.h.replies|];
      assert |r.payload| <= RESPONSE_ROOM && t.h.replies == s.h.replies + [r];
    }
  }

  /** The response a turn appends, if any, fits a packet and is what it puts on the stream. */
  predicate Appends(s: Session, t: H.Turn) {
    || (t.h.replies == s.h.replies && t.out == [])
    || (|t.h.replies| == |s.h.replies| + 1
        && var r := t.h.replies[|s.h.replies|];
           |r.payload| <= RESPONSE_ROOM && t.h.replies == s.h.replies + [r] && t.out == Pack(r))
  }

  lemma RegistrationAppends(n: nat, s: Session, sh: Shared, ch: H.Choice, t: H.Task)
    requires t.RegInsert? || t.RegSeen? || t.RegReply?
    ensures Appends(s, H.RegistrationTask(n, s.h, s.c2s, sh, ch, t))
  {
  }

  lemma KeyAppends(c: Suite, s: Session, sh: Shared, ch: H.Choice, t: H.Task)
    requires t.KeyStore? || t.KeySeen? || t.KeyReply?
    requires Lawful(c) && s.h.publicKey == c.publicOf(s.cl.priv)
    ensures Appends(s, H.KeyTask(c, s.h, s.c2s, sh, ch, t))
  {
  }

  lemma FileAppends(c: Suite, n: nat, s: Session, sh: Shared, ch: H.Choice, t: H.Task)
    requires t.FileInsert? || t.FileSeen? || t.FileReply?
    ensures Appends(s, H.FileTask(c, n, s.h, s.c2s, sh, ch, t))
  {
  }

  lemma VerdictAppends(n: nat, s: Session, sh: Shared, ch: H.Choice, t: H.Task)
    requires t.Acknowledge? || t.Save? || t.MarkVerified? || t.VerifiedSeen? || t.FinalAck?
    ensures Appends(s, H.VerdictTask(n, s.h, s.c2s, sh, ch, t))
  {
  }

  lemma KeyIsClients(c: Suite, s: Session)
    requires Cl.Usable(c, s.cl) && Phase(c, s) && s.h.pc.Work?
    requires s.h.pc.task.KeyStore? || s.h.pc.task.KeySeen? || s.h.pc.task.KeyReply?
    ensures s.cl.pc == Cl.WaitKey && Quiet(s) && s.h.publicKey == c.publicOf(s.cl.priv)
  {
  }

  lemma TaskSendsOne(c: Suite, n: nat, s: Session, sh: Shared, ch: H.Choice)
    requires Lawful(c) && Cl.Usable(c, s.cl) && Phase(c, s) && s.h.pc.Work?
    ensures SendsOne(s, AfterHandler(s, H.TaskStep(c, n, s.h, s.c2s, sh, ch, s.h.pc.task)))
  {
    var t := s.h.pc.task;
    if t.RegInsert? || t.RegSeen? || t.RegReply? {
      RegistrationAppends(n, s, sh, ch, t);
    } else if t.KeyStore? || t.KeySeen? || t.KeyReply? {
      KeyIsClients(c, s);
      KeyAppends(c, s, sh, ch, t);
    } else if t.FileInsert? || t.FileSeen? || t.FileReply? {
      FileAppends(c, n, s, sh, ch, t);
    } else {
      VerdictAppends(n, s, sh, ch, t);
    }
    TurnSendsOne(s, H.TaskStep(c, n, s.h, s.c2s, sh, ch, t));
  }

  // ----- Tasks: where they lead -----

  lemma RegistrationTaskPhase(c: Suite, n: nat, s: Session, sh: Shared, ch: H.Choice)
    requires Cl.Usable(c, s.cl) && Phase(c, s) && Can(s, ch) && s.h.pc.Work?
    requires s.h.pc.task.RegInsert? || s.h.pc.task.RegSeen? || s.h.pc.task.RegReply?
    ensures Phase(c, After(c, n, s, sh, ch))
  {
    assert s.cl.pc == Cl.WaitRegistration && Quiet(s) && ch.sent;
  }

  lemma KeyTaskPhase(c: Suite, n: nat, s: Session, sh: Shared, ch: H.Choice)
    requires Lawful(c) && Cl.Usable(c, s.cl) && Phase(c, s) && Can(s, ch) && s.h.pc.Work?
    requires s.h.pc.task.KeyStore? || s.h.pc.task.KeySeen? || s.h.pc.task.KeyReply?
    ensures Phase(c, After(c, n, s, sh, ch))
  {
    KeyIsClients(c, s);
    if s.h.pc.task.KeyReply? {
      var w := c.wrap(c.publicOf(s.cl.priv), s.h.key, ch.seed);
      assert (s.h.id + w.value)[UUID_LENGTH..] == w.value;
      assert H.IdOf(s.h) == s.h.id;
    }
  }

  lemma CrcReplyTurn(c: Suite, n: nat, h: H.Thread, inp: Bytes, sh: Shared, ch: H.Choice, data: Bytes)
    requires h.pc.Work? && h.pc.task.FileReply? && ch.sent && |h.id| == UUID_LENGTH
    requires DecryptData(c, h.key, h.pc.task.up.cipher) == Some(data)
    ensures var job := H.Job(h.pc.task.up.name, h.pc.task.up.size, data);
            H.FileTask(c, n, h, inp, sh, ch, h.pc.task).h ==
            h.(pc := H.AwaitHeader(H.Verdict(job)), replies := h.replies + [H.CrcReply(h.id, job, c.crc(data))])
  {
    assert H.IdOf(h) == h.id;
  }

  lemma CrcReplyPhase(c: Suite, n: nat, s: Session, sh: Shared, ch: H.Choice)
    requires Lawful(c) && Cl.Usable(c, s.cl) && Phase(c, s) && Can(s, ch) && s.h.pc.Work? && s.h.pc.task.FileReply?
    ensures Phase(c, After(c, n, s, sh, ch))
  {
    assert s.cl.pc.WaitCrc? && Quiet(s) && Uploading(c, s) && ch.sent;
    CipherRoundTrip(c, s.h.key, s.cl.data, s.h.pc.task.up.cipher);
    CrcReplyTurn(c, n, s.h, s.c2s, sh, ch, s.cl.data);
    CrcReplied(c, s, After(c, n, s, sh, ch));
  }

  lemma CrcReplied(c: Suite, s: Session, s': Session)
    requires Phase(c, s) && s.cl.pc.WaitCrc? && Quiet(s) && Uploading(c, s) && s'.cl == s.cl
    requires s.h.pc.Work? && s.h.pc.task.FileReply?
    requires var job := H.Job(s.h.pc.task.up.name, s.h.pc.task.up.size, s.cl.data);
             s'.h == s.h.(pc := H.AwaitHeader(H.Verdict(job)),
                          replies := s.h.replies + [H.CrcReply(s.h.id, job, c.crc(s.cl.data))])
    ensures Phase(c, s')
  {
    assert JobMatches(c, s', s'.h.pc.stage.job) && ReadingVerdict(c, s');
  }

  lemma UploadTaskPhase(c: Suite, n: nat, s: Session, sh: Shared, ch: H.Choice)
    requires Cl.Usable(c, s.cl) && Phase(c, s) && Can(s, ch) && s.h.pc.Work?
    requires s.h.pc.task.FileInsert? || s.h.pc.task.FileSeen?
    ensures Phase(c, After(c, n, s, sh, ch))
  {
    assert s.cl.pc.WaitCrc? && Quiet(s) && Uploading(c, s);
  }

  lemma AcknowledgePhase(c: Suite, n: nat, s: Session, sh: Shared, ch: H.Choice)
    requires Cl.Usable(c, s.cl) && Phase(c, s) && Can(s, ch) && s.h.pc.Work? && s.h.pc.task.Acknowledge?
    ensures Phase(c, After(c, n, s, sh, ch))
  {
    assert (s.cl.pc.WaitSuccess? || s.cl.pc.WaitResending?) && Quiet(s) && ch.sent;
  }

  lemma FinalAckPhase(c: Suite, n: nat, s: Session, sh: Shared, ch: H.Choice)
    requires Cl.Usable(c, s.cl) && Phase(c, s) && Can(s, ch) && s.h.pc == H.Work(H.FinalAck)
    ensures Phase(c, After(c, n, s, sh, ch))
  {
  }

  lemma StoreTaskPhase(c: Suite, n: nat, s: Session, sh: Shared, ch: H.Choice)
    requires Cl.Usable(c, s.cl) && Phase(c, s) && Can(s, ch) && s.h.pc.Work?
    requires s.h.pc.task.Save? || s.h.pc.task.MarkVerified? || s.h.pc.task.VerifiedSeen?
    ensures Phase(c, After(c, n, s, sh, ch))
  {
    assert s.cl.pc.WaitSuccess? || s.cl.pc == Cl.Done(true);
  }

  lemma TaskPhase(c: Suite, n: nat, s: Session, sh: Shared, ch: H.Choice)
    requires Lawful(c) && Cl.Usable(c, s.cl) && Phase(c, s) && Can(s, ch) && s.h.pc.Work?
    ensures Phase(c, After(c, n, s, sh, ch)) && SendsOne(s, After(c, n, s, sh, ch))
  {
    TaskSendsOne(c, n, s, sh, ch);
    var t := s.h.pc.task;
    if t.RegInsert? || t.RegSeen? || t.RegReply? {
      RegistrationTaskPhase(c, n, s, sh, ch);
    } else if t.KeyStore? || t.KeySeen? || t.KeyReply? {
      KeyTaskPhase(c, n, s, sh, ch);
    } else if t.FileInsert? || t.FileSeen? {
      UploadTaskPhase(c, n, s, sh, ch);
    } else if t.FileReply? {
      CrcReplyPhase(c, n, s, sh, ch);
    } else if t.Acknowledge? {
      AcknowledgePhase(c, n, s, sh, ch);
    } else if t.FinalAck? {
      FinalAckPhase(c, n, s, sh, ch);
    } else {
      StoreTaskPhase(c, n, s, sh, ch);
    }
  }

  lemma HandlerMoveKeeps(c: Suite, n: nat, s: Session, sh: Shared, ch: H.Choice)
    requires Lawful(c) && Inv(c, s) && Can(s, ch)
    ensures Inv(c, After(c, n, s, sh, ch))
  {
    match s.h.pc {
      case AwaitHeader(_) => HeaderKeeps(c, n, s, sh, ch);
      case AwaitPayload(_, _, _) => PayloadKeeps(c, n, s, sh, ch);
      case Work(_) =>
        TaskPhase(c, n, s, sh, ch);
        HandlerKeepsRequests(c, n, s, sh, ch);
        SendingKeepsReplies(s, After(c, n, s, sh, ch));
    }
  }
}
