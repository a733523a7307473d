/** The client's objects as they run, against whatever bytes the server will send before it closes. */
module ClientCode {
  import opened ByteStrings
  import opened Cipher
  import opened Wire
  import opened Client

  datatype Config = Config(cl: State, inp: Bytes, out: Bytes)

  predicate Ready(c: Suite, a: Config, ch: Choice) {
    Usable(c, a.cl) && CanStep(a.cl, a.inp, true, ch)
  }

  function Take(c: Suite, a: Config, ch: Choice): Config
    requires Ready(c, a, ch)
  {
    var t := Step(c, a.cl, a.inp, true, ch);
    Config(t.cl, t.inp, a.out + t.out)
  }

  /** The configuration after a list of steps; `None` when one of them is not possible. */
  ghost function Path(c: Suite, a: Config, chs: seq<Choice>): Option<Config> {
    if chs == [] then Some(a) else
      match Path(c, a, chs[..|chs| - 1])
      case None => None
      case Some(b) => if Ready(c, b, chs[|chs| - 1]) then Some(Take(c, b, chs[|chs| - 1])) else None
  }

  ghost predicate Reaches(c: Suite, a: Config, b: Config) {
    exists chs :: Path(c, a, chs) == Some(b)
  }

  lemma ReachesSelf(c: Suite, a: Config)
    ensures Reaches(c, a, a)
  {
    assert Path(c, a, []) == Some(a);
  }

  lemma ReachesStep(c: Suite, a: Config, b: Config, ch: Choice)
    requires Reaches(c, a, b) && Ready(c, b, ch)
    ensures Reaches(c, a, Take(c, b, ch))
  {
    var chs :| Path(c, a, chs) == Some(b);
    assert (chs + [ch])[..|chs|] == chs;
    assert Path(c, a, chs + [ch]) == Some(Take(c, b, ch));
  }

  // ----- What the client does against any server -----

  function CountSent(rs: seq<Request>, code: u16): nat {
    if rs == [] then 0 else CountSent(rs[..|rs| - 1], code) + if rs[|rs| - 1].code == code then 1 else 0
  }

  lemma CountSnoc(rs: seq<Request>, r: Request, code: u16)
    ensures CountSent(rs + [r], code) == CountSent(rs, code) + if r.code == code then 1 else 0
  {
    assert (rs + [r])[..|rs|] == rs;
  }

  /** How many attempts have begun by a position, at most. */
  function Begun(pc: Pc): nat {
    match pc
    case Attempt(n) => if n < MAX_RETRIES then n else MAX_RETRIES
    case WaitCrc(i) => i + 1
    case WaitSuccess(i) => i + 1
    case WaitResending(i) => i + 1
    case WaitFinished => MAX_RETRIES
    case Done(_) => MAX_RETRIES
    case _ => 0
  }

  /** The last request is a verdict with this code. */
  predicate LastSent(cl: State, code: u16) {
    cl.sent != [] && cl.sent[|cl.sent| - 1].code == code
  }

  predicate Bounded(cl: State) {
    && CountSent(cl.sent, ENCRYPTED_FILE) <= Begun(cl.pc)
    && CountSent(cl.sent, CRC_FINISHED) == (if LastSent(cl, CRC_FINISHED) then 1 else 0)
    && (cl.pc.WaitSuccess? || cl.pc == Done(true) ==> LastSent(cl, CRC_SUCCESS))
    && (LastSent(cl, CRC_FINISHED) ==> cl.pc == WaitFinished || cl.pc == Done(false))
    && (cl.pc.WaitFinished? ==> LastSent(cl, CRC_FINISHED))
  }

  lemma MovesBounded(cl: State, cl': State)
    requires Bounded(cl) && Moves(cl, cl')
    ensures Bounded(cl')
  {
    if cl'.sent != cl.sent {
      var r := cl'.sent[|cl'.sent| - 1];
      CountSnoc(cl.sent, r, ENCRYPTED_FILE);
      CountSnoc(cl.sent, r, CRC_FINISHED);
    }
  }

  lemma StepBounded(c: Suite, a: Config, ch: Choice)
    requires Ready(c, a, ch) && Bounded(a.cl)
    ensures Bounded(Take(c, a, ch).cl)
  {
    StepMoves(c, a.cl, a.inp, true, ch);
    MovesBounded(a.cl, Take(c, a, ch).cl);
  }

  /**
   * Whatever the server sends, at most three file frames and one FINISHED go out, and success follows
   * a SUCCESS verdict.
   */
  lemma {:induction false} BoundedAgainstAnyServer(c: Suite, a: Config, chs: seq<Choice>)
    requires a.cl.pc == Begin && a.cl.sent == []
    ensures match Path(c, a, chs)
            case None => true
            case Some(b) => Bounded(b.cl) && CountSent(b.cl.sent, ENCRYPTED_FILE) <= MAX_RETRIES
  {
    if chs != [] && Path(c, a, chs).Some? {
      BoundedAgainstAnyServer(c, a, chs[..|chs| - 1]);
      StepBounded(c, Path(c, a, chs[..|chs| - 1]).value, chs[|chs| - 1]);
    }
  }

  // ----- The objects -----

  class ClientSocketHandler {
    var incoming: Bytes
    var outgoing: Bytes

    /** Receives into a zeroed buffer of `n` bytes; `whole` says that the stream did not end first. */
    method Receive(n: nat) returns (buffer: Bytes, whole: bool)
      modifies this`incoming
      ensures buffer == Buffer(old(incoming), n) && incoming == Rest(old(incoming), n)
      ensures whole == (n <= |old(incoming)|)
    {
      buffer, whole := Buffer(incoming, n), n <= |incoming|;
      incoming := Rest(incoming, n);
    }

    method Send(r: Request)
      requires Sendable(r)
      modifies this`outgoing
      ensures outgoing == old(outgoing) + Frame(r)
    {
      outgoing := outgoing + Frame(r);
    }
  }

  class MainClient {
    const c: Suite
    const sock: ClientSocketHandler
    const userName: Bytes
    const fileName: Bytes
    const privateKey: Bytes
    var uuid: Bytes
    var aes: Option<Block>
    ghost var at: State
    ghost const start: Config

    ghost function Here(): Config
      reads this, sock
    {
      Config(at, sock.incoming, sock.outgoing)
    }

    /** The objects are where some run of the client's steps leads from where they started. */
    ghost predicate Valid()
      reads this, sock
    {
      && Reaches(c, start, Here()) && Usable(c, at)
      && at.name == userName && at.file == fileName && at.priv == privateKey && at.id == uuid && at.aes == aes
    }

    constructor (c: Suite, sock: ClientSocketHandler, name: Bytes, file: Bytes, priv: Bytes, id: Bytes, resume: bool)
      requires |id| == UUID_LENGTH && |name| <= NAME_FIELD && |c.publicOf(priv)| == PUBLIC_KEY_SIZE
      ensures Valid() && start == Here() && this.c == c && this.sock == sock
      ensures at == State(name, file, priv, resume, id, None, [], 0, Begin, [], [])
    {
      this.c, this.sock, userName, fileName, privateKey, uuid, aes := c, sock, name, file, priv, id, None;
      at := State(name, file, priv, resume, id, None, [], 0, Begin, [], []);
      start := Config(State(name, file, priv, resume, id, None, [], 0, Begin, [], []), sock.incoming, sock.outgoing);
      new;
      ReachesSelf(c, start);
    }

    /** The objects have made one step of the client. */
    ghost method Stepped(a: Config, ch: Choice)
      requires Reaches(c, start, a) && Ready(c, a, ch)
      requires var b := Take(c, a, ch);
               && sock.incoming == b.inp && sock.outgoing == b.out
               && b.cl.name == userName && b.cl.file == fileName && b.cl.priv == privateKey
               && b.cl.id == uuid && b.cl.aes == aes
      modifies this`at
      ensures Valid() && at == Take(c, a, ch).cl
    {
      ReachesStep(c, start, a, ch);
      StepKeeps(c, a.cl, a.inp, true, ch);
      at := Take(c, a, ch).cl;
    }

    method RegisterClient() returns (ok: bool)
      requires Valid() && at.pc == Begin && !at.resume
      modifies this`at, this`uuid, sock
      ensures Valid() && at.pc == if ok then SendKey else Done(false)
    {
      ghost var a := Here();
      sock.Send(Request(uuid, VERSION as byte, REGISTRATION, userName));
      Stepped(a, Choice(None, false));
      ghost var b := Here();
      var n := RESPONSE_HEADER + UUID_LENGTH;
      var buffer, whole := sock.Receive(n);
      var p := Parse(buffer, n);
      ok := false;
      if whole && p.code == REGISTRATION_SUCCESS {
        uuid := PadTo(p.payload, UUID_LENGTH)[..UUID_LENGTH];
        ok := *;
      }
      assert b.out + [] == b.out;
      Stepped(b, Choice(None, ok));
    }

    method SendPublicKey() returns (ok: bool)
      requires Valid() && at.pc == SendKey
      modifies this`at, sock
      ensures Valid() && at.pc == if ok then WaitKey else Done(false)
    {
      ghost var a := Here();
      ok := userName != [];
      if ok {
        sock.Send(Request(uuid, VERSION as byte, PUBLIC_KEY, PadTo(userName, NAME_FIELD) + c.publicOf(privateKey)));
      }
      assert a.out + [] == a.out;
      Stepped(a, Choice(None, false));
    }

    method ReceiveSharedSecret() returns (ok: bool)
      requires Valid() && at.pc == WaitKey
      modifies this`at, this`aes, sock
      ensures Valid() && at.pc == if ok then Attempt(0) else Done(false)
      ensures var n := RESPONSE_HEADER + UUID_LENGTH + WRAPPED_KEY_SIZE;
              var p := Parse(Buffer(old(sock.incoming), n), n);
              var key := c.unwrap(privateKey, Slice(p.payload, UUID_LENGTH, UUID_LENGTH + WRAPPED_KEY_SIZE));
              && (ok <==> n <= |old(sock.incoming)| && p.code == AES_KEY && key.Some? && |key.value| == BLOCK)
              && (ok ==> aes.Some? && aes.value == key.value)
    {
      ghost var a := Here();
      var n := RESPONSE_HEADER + UUID_LENGTH + WRAPPED_KEY_SIZE;
      var buffer, whole := sock.Receive(n);
      var p := Parse(buffer, n);
      ok := false;
      if whole && p.code == AES_KEY {
        var key := c.unwrap(privateKey, Slice(p.payload, UUID_LENGTH, UUID_LENGTH + WRAPPED_KEY_SIZE));
        if key.Some? && |key.value| == BLOCK {
          aes, ok := Some(key.value), true;
        }
      }
      assert a.out + [] == a.out;
      Stepped(a, Choice(None, false));
    }

    /** Reads the local file as it is now. */
    method ReadFile() returns (content: Option<Bytes>)
      ensures content.Some? ==> |content.value| <= MAX_PLAIN
    {
      content :| content.Some? ==> |content.value| <= MAX_PLAIN;
    }

    /** Sends the file frame exactly when there is a key and a file that is not empty, and otherwise nothing. */
    method SendEncryptedFile(i: Try) returns (ok: bool, content: Option<Bytes>)
      requires Valid() && at.pc == Attempt(i)
      modifies this`at, sock
      ensures Valid() && at.pc == if ok then WaitCrc(i) else Attempt(i + 1)
      ensures ok <==> aes.Some? && !Nothing(content)
      ensures sock.incoming == old(sock.incoming) && (!ok ==> sock.outgoing == old(sock.outgoing))
    {
      ghost var a := Here();
      content := ReadFile();
      ok := Readable(content) && aes.Some?;
      if ok {
        EncryptedFits(c, aes.value, content.value);
        var cipher := ClientEncrypt(c, aes.value, content.value);
        sock.Send(Request(uuid, VERSION as byte, ENCRYPTED_FILE, FilePayload(uuid, fileName, cipher)));
      }
      assert a.out + [] == a.out;
      Stepped(a, Choice(content, false));
    }

    method GetServerCalculatedCrc() returns (crc: u32)
      modifies sock`incoming
      ensures var n := RESPONSE_HEADER + CRC_PAYLOAD;
              && crc == ServerCrc(Parse(Buffer(old(sock.incoming), n), n))
              && sock.incoming == Rest(old(sock.incoming), n)
    {
      var n := RESPONSE_HEADER + CRC_PAYLOAD;
      var buffer, whole := sock.Receive(n);
      var p := Parse(buffer, n);
      if p.code != FILE_CRC {
        return 0;
      }
      crc := CrcField(p.payload);
    }

    /** Receives the server's checksum, computes that of the file as it is now, and sends the verdict. */
    method CompareCrc(i: Try) returns (good: bool, content: Option<Bytes>)
      requires Valid() && at.pc == WaitCrc(i)
      modifies this`at, sock
      ensures Valid() && at.pc == if good then WaitSuccess(i) else WaitResending(i)
      ensures var n := RESPONSE_HEADER + CRC_PAYLOAD;
              good <==> FileCrc(c, content) == ServerCrc(Parse(Buffer(old(sock.incoming), n), n))
      ensures sock.outgoing ==
              old(sock.outgoing) + Frame(VerdictRequest(at, if good then CRC_SUCCESS else CRC_RESENDING))
    {
      ghost var a := Here();
      var serverCrc := GetServerCalculatedCrc();
      content := ReadFile();
      var fileCrc := FileCrc(c, content);
      good := serverCrc == fileCrc;
      var code := if good then CRC_SUCCESS else CRC_RESENDING;
      sock.Send(Request(uuid, VERSION as byte, code, uuid + NameField(fileName)));
      Stepped(a, Choice(content, false));
    }

    /** Reads the first three bytes of the acknowledgement; if it is not one, the client asks to send again. */
    method AwaitAcknowledgement(i: Try) returns (ok: bool)
      requires Valid() && at.pc == WaitSuccess(i)
      modifies this`at, sock
      ensures Valid() && at.pc == if ok then Done(true) else WaitResending(i)
    {
      ghost var a := Here();
      var buffer, whole := sock.Receive(3);
      ok := Parse(buffer, 3).code == REQUEST_RECEIVED;
      if !ok {
        sock.Send(Request(uuid, VERSION as byte, CRC_RESENDING, uuid + NameField(fileName)));
      }
      assert a.out + [] == a.out;
      Stepped(a, Choice(None, false));
    }

    /** Reads the acknowledgement of RESENDING or FINISHED; whatever it says, the result is false. */
    method AwaitFailure()
      requires Valid() && (at.pc.WaitResending? || at.pc.WaitFinished?)
      modifies this`at, sock
      ensures Valid() && sock.outgoing == old(sock.outgoing)
      ensures at.pc == if old(at).pc.WaitFinished? then Done(false) else Attempt(old(at).pc.i + 1)
    {
      ghost var a := Here();
      var buffer, whole := sock.Receive(RESPONSE_HEADER);
      assert a.out + [] == a.out;
      Stepped(a, Choice(None, false));
    }

    /** One attempt; without a file to send it touches nothing. */
    method SendFileToServer(i: Try) returns (ok: bool, content: Option<Bytes>)
      requires Valid() && at.pc == Attempt(i)
      modifies this`at, sock
      ensures Valid() && at.pc == if ok then Done(true) else Attempt(i + 1)
      ensures Nothing(content) ==>
                !ok && sock.incoming == old(sock.incoming) && sock.outgoing == old(sock.outgoing)
    {
      ok, content := SendEncryptedFile(i);
      if ok {
        var second;
        ok, second := CompareCrc(i);
        if ok {
          ok := AwaitAcknowledgement(i);
        }
        if !ok {
          AwaitFailure();
        }
      }
    }

    method SendFinished()
      requires Valid() && at.pc == Attempt(MAX_RETRIES)
      modifies this`at, sock
      ensures Valid() && at.pc == WaitFinished
      ensures sock.outgoing == old(sock.outgoing) + Frame(VerdictRequest(at, CRC_FINISHED))
    {
      ghost var a := Here();
      sock.Send(Request(uuid, VERSION as byte, CRC_FINISHED, uuid + NameField(fileName)));
      Stepped(a, Choice(None, false));
    }

    /** At most three attempts. If none of them finds a file to send, one FINISHED is all that goes out. */
    method RunClient() returns (ok: bool, contents: seq<Option<Bytes>>)
      requires Valid() && at.pc == Attempt(0)
      modifies this`at, sock
      ensures Valid() && at.pc == Done(ok) && 1 <= |contents| <= MAX_RETRIES
      ensures (forall r :: r in contents ==> Nothing(r)) ==>
                !ok && sock.outgoing == old(sock.outgoing) + Frame(VerdictRequest(at, CRC_FINISHED))
    {
      contents := [];
      for i := 0 to MAX_RETRIES
        invariant Valid() && at.pc == Attempt(i) && |contents| == i
        invariant (forall r :: r in contents ==> Nothing(r)) ==> sock.outgoing == old(sock.outgoing)
      {
        var content;
        ok, content := SendFileToServer(i);
        contents := contents + [content];
        if ok {
          return;
        }
      }
      SendFinished();
      AwaitFailure();
      ok := false;
    }

    /**
     * A whole run. It follows the steps of the client to their end, so at most three file
     * frames went out, and success means that a SUCCESS verdict was the last thing sent.
     */
    method Run(resume: bool) returns (ok: bool)
      requires Valid() && at.pc == Begin && at.resume == resume && at.sent == [] && start == Here()
      modifies this, sock
      ensures Valid() && at.pc == Done(ok) && Bounded(at)
    {
      ok := Exchange(resume);
      if ok {
        var contents;
        ok, contents := RunClient();
      }
      ghost var chs :| Path(c, start, chs) == Some(Here());
      BoundedAgainstAnyServer(c, start, chs);
    }

    /** Registration, unless me.info was found, and the key exchange. */
    method Exchange(resume: bool) returns (ok: bool)
      requires Valid() && at.pc == Begin && at.resume == resume
      modifies this, sock
      ensures Valid() && at.pc == if ok then Attempt(0) else Done(false)
    {
      if resume {
        ghost var a := Here();
        assert a.out + [] == a.out;
        Stepped(a, Choice(None, false));
      } else {
        ok := RegisterClient();
        if !ok {
          return;
        }
      }
      ok := SendPublicKey();
      if ok {
        ok := ReceiveSharedSecret();
      }
    }
  }
}
