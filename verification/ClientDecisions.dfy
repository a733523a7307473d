/** What decides the client's steps, in terms of what it read: the file, me.info, the responses. */
module ClientDecisions {
  import opened ByteStrings
  import opened Cipher
  import opened Wire
  import opened Client
  import CC = ClientCode
  import S = Session
  import P = Protocol
  import A = Accounting

  // ----- Registration and key request -----

  /** The client goes on to its key exactly when a whole acceptance was there and me.info could be written. */
  lemma RegistrationDecides(c: Suite, cl: State, inp: Bytes, ch: Choice)
    requires |cl.id| == UUID_LENGTH && cl.pc.WaitRegistration?
    ensures var t := Receive(c, cl, inp, ch);
            && (t.cl.pc == SendKey <==>
                  |inp| >= 23 && U16(inp[1..3]) == REGISTRATION_SUCCESS && ch.infoWritten)
            && (t.cl.pc != SendKey ==> t.cl.pc == Done(false)) && t.out == [] && t.cl.sent == cl.sent
  {
  }

  /** It sends its key request exactly when it has a name, and otherwise gives up. */
  lemma NameDecides(c: Suite, cl: State, inp: Bytes, ch: Choice)
    requires Usable(c, cl) && CanStep(cl, inp, true, ch) && cl.pc.SendKey?
    ensures var t := Act(c, cl, inp, ch);
            if cl.name != [] then t.cl.pc == WaitKey && t.cl.sent == cl.sent + [KeyRequest(c, cl)]
            else t.cl.pc == Done(false) && t.cl.sent == cl.sent && t.out == []
  {
  }

  /** The key request carries the name, filled up with zeroes to 255 bytes, and behind it the public key. */
  lemma KeyRequestShape(c: Suite, cl: State)
    requires |cl.name| <= NAME_FIELD
    ensures var p := KeyRequest(c, cl).payload;
            && |p| == 255 + |c.publicOf(cl.priv)| && p[..|cl.name|] == cl.name && p[255..] == c.publicOf(cl.priv)
            && forall i :: |cl.name| <= i < 255 ==> p[i] == 0
  {
  }

  /** A verdict carries the id and the first 255 bytes of the file name, filled up with zeroes. */
  lemma VerdictRequestShape(cl: State, code: u16)
    requires |cl.id| == UUID_LENGTH
    ensures var r := VerdictRequest(cl, code);
            var n := if |cl.file| < 255 then |cl.file| else 255;
            && r.id == cl.id && r.code == code && |r.payload| == 271
            && r.payload[..16] == cl.id && r.payload[16..16 + n] == cl.file[..n]
            && forall i :: 16 + n <= i < 271 ==> r.payload[i] == 0
  {
  }

  // ----- The file -----

  /** The request that a step adds, if any. */
  predicate SendsFile(cl: State, cl': State) {
    |cl'.sent| == |cl.sent| + 1 && cl'.sent[|cl.sent|].code == ENCRYPTED_FILE
  }

  /** An attempt sends a file frame exactly when it has a key and the read found a file that is not empty. */
  lemma FileDecides(c: Suite, cl: State, inp: Bytes, ch: Choice)
    requires Usable(c, cl) && CanStep(cl, inp, true, ch) && cl.pc.Attempt? && cl.pc.n < MAX_RETRIES
    ensures var t := Act(c, cl, inp, ch);
            && (SendsFile(cl, t.cl) <==> cl.aes.Some? && !Nothing(ch.content))
            && (!SendsFile(cl, t.cl) ==> t.cl == cl.(pc := Attempt(cl.pc.n + 1)) && t.out == [])
  {
    if Readable(ch.content) && cl.aes.Some? {
      EncryptedFits(c, cl.aes.value, ch.content.value);
    }
  }

  /** The checksum of a file that is not there or empty is the failure value 0. */
  lemma ChecksumDecides(c: Suite, content: Option<Bytes>)
    requires content.Some? ==> |content.value| <= MAX_PLAIN
    ensures FileCrc(c, content) == if Nothing(content) then 0 else c.crc(content.value)
  {
  }

  // ----- Runs in which no read finds anything -----

  /** No file frame has been sent; the client has its key from the first attempt on, and ends with one FINISHED. */
  predicate NoFile(cl: State) {
    && CC.CountSent(cl.sent, ENCRYPTED_FILE) == 0
    && !cl.pc.WaitCrc? && !cl.pc.WaitSuccess? && !cl.pc.WaitResending? && cl.pc != Done(true)
    && (cl.pc.Attempt? || cl.pc.WaitFinished? ==> cl.aes.Some?)
    && (cl.aes.Some? ==> cl.pc.Attempt? || cl.pc.WaitFinished? || cl.pc.Done?)
    && CC.CountSent(cl.sent, CRC_FINISHED) ==
       if cl.pc.WaitFinished? || (cl.pc.Done? && cl.aes.Some?) then 1 else 0
  }

  /** A key is taken over only on the way to the first attempt, and never lost. */
  predicate KeyMoves(cl: State, cl': State) {
    if cl.pc.WaitKey? && cl'.pc == Attempt(0) then cl'.aes.Some? else cl'.aes == cl.aes
  }

  lemma ActKeyMoves(c: Suite, cl: State, inp: Bytes, ch: Choice)
    requires Usable(c, cl) && CanStep(cl, inp, true, ch) && Wanted(cl.pc) == 0
    ensures KeyMoves(cl, Act(c, cl, inp, ch).cl)
  {
  }

  lemma ReceiveKeyMoves(c: Suite, cl: State, inp: Bytes, ch: Choice)
    requires |cl.id| == UUID_LENGTH && Wanted(cl.pc) > 0
    ensures KeyMoves(cl, Receive(c, cl, inp, ch).cl)
  {
  }

  lemma MovesNoFile(cl: State, cl': State)
    requires NoFile(cl) && Moves(cl, cl') && KeyMoves(cl, cl') && !cl'.pc.WaitCrc?
    ensures NoFile(cl')
  {
    if cl'.sent != cl.sent {
      var r := cl'.sent[|cl'.sent| - 1];
      CC.CountSnoc(cl.sent, r, ENCRYPTED_FILE);
      CC.CountSnoc(cl.sent, r, CRC_FINISHED);
    }
  }

  lemma NothingSendsNothing(c: Suite, cl: State, inp: Bytes, closed: bool, ch: Choice)
    requires Usable(c, cl) && CanStep(cl, inp, closed, ch) && NoFile(cl) && Nothing(ch.content)
    ensures !Step(c, cl, inp, closed, ch).cl.pc.WaitCrc?
  {
    StepMoves(c, cl, inp, closed, ch);
    if cl.pc.Attempt? && cl.pc.n < MAX_RETRIES {
      FileDecides(c, cl, inp, ch);
    }
  }

  lemma StepNoFile(c: Suite, cl: State, inp: Bytes, closed: bool, ch: Choice)
    requires Usable(c, cl) && CanStep(cl, inp, closed, ch) && NoFile(cl) && Nothing(ch.content)
    ensures NoFile(Step(c, cl, inp, closed, ch).cl)
  {
    StepMoves(c, cl, inp, closed, ch);
    NothingSendsNothing(c, cl, inp, closed, ch);
    if Wanted(cl.pc) == 0 {
      ActKeyMoves(c, cl, inp, ch);
    } else {
      ReceiveKeyMoves(c, cl, inp, ch);
    }
    MovesNoFile(cl, Step(c, cl, inp, closed, ch).cl);
  }

  /** Every read of the local file in the run finds nothing. */
  predicate FindsNothing(ticks: seq<P.Tick>) {
    forall t :: t in ticks && t.m.ClientMove? ==> Nothing(t.m.cc.content)
  }

  lemma {:induction false} ExecNoFile(c: Suite, n: nat, s0: S.Session, ticks: seq<P.Tick>)
    requires S.Start(c, s0) && FindsNothing(ticks)
    ensures NoFile(P.Exec(c, n, s0, ticks).cl)
  {
    if ticks != [] {
      var front, t := ticks[..|ticks| - 1], ticks[|ticks| - 1];
      var b := P.Exec(c, n, s0, front);
      ExecNoFile(c, n, s0, front);
      P.ExecSnoc(c, n, s0, front, t);
      assert front + [t] == ticks && t in ticks;
      if t.m.ClientMove? && S.Allowed(b, t.m) {
        StepNoFile(c, b.cl, b.s2c, S.HandlerClosed(b), t.m.cc);
      }
    }
  }

  /**
   * A session whose client never finds a file, or only an empty one: no file frame goes out, and when the client
   * ends it ends with false, after exactly one FINISHED if it had come to have a key and none otherwise.
   */
  lemma NothingIsRefused(c: Suite, n: nat, s0: S.Session, ticks: seq<P.Tick>)
    requires S.Start(c, s0) && FindsNothing(ticks) && P.Exec(c, n, s0, ticks).cl.pc.Done?
    ensures var cl := P.Exec(c, n, s0, ticks).cl;
            && cl.pc == Done(false) && CC.CountSent(cl.sent, ENCRYPTED_FILE) == 0
            && CC.CountSent(cl.sent, CRC_FINISHED) == if cl.aes.Some? then 1 else 0
  {
    ExecNoFile(c, n, s0, ticks);
  }

  /** The same against any server: whatever bytes come back, nothing is uploaded. */
  lemma {:induction false} NothingAgainstAnyServer(c: Suite, a: CC.Config, chs: seq<Choice>)
    requires a.cl.pc == Begin && a.cl.sent == [] && a.cl.aes == None
    requires forall ch :: ch in chs ==> Nothing(ch.content)
    ensures match CC.Path(c, a, chs)
            case None => true
            case Some(b) => NoFile(b.cl)
  {
    if chs != [] && CC.Path(c, a, chs).Some? {
      var front, ch := chs[..|chs| - 1], chs[|chs| - 1];
      NothingAgainstAnyServer(c, a, front);
      var b := CC.Path(c, a, front).value;
      StepNoFile(c, b.cl, b.inp, true, ch);
    }
  }

  lemma {:induction false} CountedIsIn(rs: seq<Request>, code: u16)
    ensures CC.CountSent(rs, code) == 0 <==> code !in A.Codes(rs)
  {
    if rs != [] {
      CountedIsIn(rs[..|rs| - 1], code);
      A.CodesSnoc(rs[..|rs| - 1], rs[|rs| - 1]);
      assert rs[..|rs| - 1] + [rs[|rs| - 1]] == rs;
    }
  }

  /** Without faults such a session is its opening and one FINISHED, answered in the handler's first turn. */
  lemma NothingAccounted(c: Suite, n: nat, s0: S.Session, ticks: seq<P.Tick>)
    requires Lawful(c) && S.Start(c, s0) && FindsNothing(ticks)
    requires A.Faultless(c, n, s0, ticks) && P.Finished(P.Exec(c, n, s0, ticks))
    ensures var s := P.Exec(c, n, s0, ticks);
            || (A.Codes(s.cl.sent) == A.Opening(s.cl) + [CRC_FINISHED] && s.h.times == 1)
            || (PUBLIC_KEY !in A.Codes(s.cl.sent) && s.h.times == 0)
  {
    var s := P.Exec(c, n, s0, ticks);
    ExecNoFile(c, n, s0, ticks);
    CountedIsIn(s.cl.sent, ENCRYPTED_FILE);
    var j := A.RetryAccounting(c, n, s0, ticks);
    if j > 0 {
      assert ENCRYPTED_FILE in A.Rounds(j);
    } else {
      assert A.Opening(s.cl) + A.Rounds(0) + [CRC_FINISHED] == A.Opening(s.cl) + [CRC_FINISHED];
    }
  }
}
