/**
 * The server's per-connection handler as atomic steps: one receive, one locked
 * statement, one send or one save each. What is left to the environment in a step
 * is its `Choice`.
 */
module Handler {
  import opened ByteStrings
  import opened Cipher
  import opened Wire
  import opened Tables

  /** A decrypted upload waiting for the client's verdict. */
  datatype Job = Job(name: Bytes, size: u32, data: Bytes)

  /** An upload whose ciphertext has been received. */
  datatype Upload = Upload(name: Bytes, size: u32, cipher: Bytes)

  /** Which request the handler is reading. */
  datatype Stage = First | Register | KeyExchange | File | Verdict(job: Job)

  datatype Task =
    | RegInsert(name: Bytes)
    | RegSeen(id: Bytes)
    | RegReply(given: Option<Bytes>)
    | KeyStore
    | KeySeen
    | KeyReply
    | FileInsert(up: Upload)
    | FileSeen(up: Upload)
    | FileReply(up: Upload)
    | Acknowledge(job: Job, code: u16)
    | Save(job: Job)
    | MarkVerified(job: Job)
    | VerifiedSeen(job: Job)
    | FinalAck

  datatype Pc =
    | AwaitHeader(stage: Stage)
    | AwaitPayload(stage: Stage, header: Header, acc: Bytes)
    | Work(task: Task)
    | Stopped(ok: bool)

  /**
   * The handler thread; `headers`, `got` and `replies` are the history of headers read, requests received
   * whole and responses sent.
   */
  datatype Thread = Thread(id: Bytes, name: Bytes, publicKey: Bytes, key: Block, times: nat, pc: Pc,
                           headers: seq<Header>, got: seq<Request>, replies: seq<Response>)

  function NewThread(key: Block): Thread {
    Thread([], [], [], key, 0, AwaitHeader(First), [], [], [])
  }

  /** What the environment decides: bytes returned by a receive, results of the database, the disk and the send. */
  datatype Choice = Choice(k: nat, ok: bool, sent: bool, uuid: Block, now: nat, seed: Bytes)

  datatype Turn = Turn(h: Thread, inp: Bytes, out: Bytes, sh: Shared)

  predicate ReceiveCan(inp: Bytes, closed: bool, want: nat, k: nat) {
    k <= want && k <= |inp| && (k == 0 ==> closed && inp == [])
  }

  predicate CanStep(h: Thread, inp: Bytes, closed: bool, ch: Choice) {
    match h.pc
    case Stopped(_) => false
    case Work(_) => true
    case AwaitHeader(_) => ReceiveCan(inp, closed, REQUEST_HEADER, ch.k)
    case AwaitPayload(_, hd, acc) => |acc| < hd.size ==> ReceiveCan(inp, closed, hd.size - |acc|, ch.k)
  }

  /** The loop of `__handle_client` after `__receive_encrypted_file` returned a code. */
  function FileOutcome(h: Thread, code: u16): Thread {
    var h1 := h.(times := h.times + 1);
    if code == CRC_SUCCESS then h1.(pc := Stopped(true))
    else if code == CRC_RESENDING then h1.(pc := AwaitHeader(File))
    else h1.(pc := Work(FinalAck))
  }

  function OnHeader(h: Thread, stage: Stage, hd: Header): Thread {
    var h1 := h.(headers := h.headers + [hd]);
    match stage
    case First =>
      if hd.code == REGISTRATION then h1.(pc := AwaitPayload(Register, hd, []))
      else if hd.code == PUBLIC_KEY then h1.(id := hd.id, pc := AwaitPayload(KeyExchange, hd, []))
      else h1.(pc := Stopped(false))
    case _ => h1.(pc := AwaitPayload(stage, hd, []))
  }

  /** The payload loop has ended; `p` is empty when the stream ended first. */
  function OnPayload(h: Thread, stage: Stage, hd: Header, p: Bytes): Thread {
    match stage
    case First => h.(pc := Stopped(false))
    case Register => var name := Slice(p, 0, NAME_FIELD); h.(name := name, pc := Work(RegInsert(name)))
    case KeyExchange =>
      if hd.code != PUBLIC_KEY then h.(pc := Stopped(false))
      else h.(publicKey := Slice(p, NAME_FIELD, NAME_FIELD + PUBLIC_KEY_SIZE), pc := Work(KeyStore))
    case File => (
      if hd.code != ENCRYPTED_FILE then FileOutcome(h, hd.code)
      else match FileSize(p)
        case None => h.(pc := Work(FinalAck))
        case Some(size) => h.(pc := Work(FileInsert(Upload(FileName(p), size, FileData(p, size))))))
    case Verdict(job) => h.(pc := Work(Acknowledge(job, hd.code)))
  }

  const ACK := Response(REQUEST_RECEIVED, [])

  function CrcReply(id: Bytes, job: Job, crc: u32): Response
    requires |id| == UUID_LENGTH
  {
    Response(FILE_CRC, CrcPayload(id, job.size, job.name, crc))
  }

  /** Sending `r`: on success it is appended to the stream and the history. */
  function Sending(h: Thread, r: Response, sent: bool, then': Pc, else': Pc, inp: Bytes, sh: Shared): Turn
    requires |r.payload| < UINT32_LIMIT
  {
    if sent then Turn(h.(pc := then', replies := h.replies + [r]), inp, Pack(r), sh)
    else Turn(h.(pc := else'), inp, [], sh)
  }

  function IdOf(h: Thread): (id: Bytes)
    ensures |id| == UUID_LENGTH && (|h.id| == UUID_LENGTH ==> id == h.id)
  {
    PadTo(h.id, UUID_LENGTH)[..UUID_LENGTH]
  }

  function RegistrationTask(n: nat, h: Thread, inp: Bytes, sh: Shared, ch: Choice, t: Task): Turn
    requires t.RegInsert? || t.RegSeen? || t.RegReply?
  {
    match t
    case RegInsert(name) => (
      match InsertClient(sh.clients, BytesLe(ch.uuid), name, ch.ok)
      case None => Turn(h.(pc := Work(RegReply(None))), inp, [], sh)
      case Some(rows) =>
        Turn(h.(pc := Work(RegSeen(ch.uuid))), inp, [], Logged(sh.(clients := rows), Registered(n, ch.uuid, name))))
    case RegSeen(id) =>
      Turn(h.(pc := Work(RegReply(Some(id)))), inp, [], sh.(clients := Touch(sh.clients, BytesLe(id), ch.now)))
    case RegReply(None) =>
      Sending(h, Response(REGISTRATION_FAILED, Zeros(16)), ch.sent, Stopped(false), Stopped(false), inp, sh)
    case RegReply(Some(id)) =>
      var h1 := h.(id := id);
      Sending(h1, Response(REGISTRATION_SUCCESS, IdOf(h1)), ch.sent, AwaitHeader(KeyExchange), Stopped(false), inp, sh)
  }

  function KeyTask(c: Suite, h: Thread, inp: Bytes, sh: Shared, ch: Choice, t: Task): Turn
    requires t.KeyStore? || t.KeySeen? || t.KeyReply?
  {
    match t
    case KeyStore =>
      Turn(h.(pc := Work(KeySeen)), inp, [],
           sh.(clients := UpdateKeys(sh.clients, BytesLe(h.id), h.publicKey, h.key)))
    case KeySeen =>
      Turn(h.(pc := Work(KeyReply)), inp, [], sh.(clients := Touch(sh.clients, BytesLe(h.id), ch.now)))
    case KeyReply =>
      match c.wrap(h.publicKey, h.key, ch.seed)
      case None => Turn(h.(pc := Stopped(false)), inp, [], sh)
      case Some(w) =>
        var r := Response(AES_KEY, IdOf(h) + w);
        if |r.payload| < UINT32_LIMIT
        then Sending(h, r, ch.sent, AwaitHeader(File), Stopped(false), inp, sh)
        else Turn(h.(pc := Stopped(false)), inp, [], sh)
  }

  function FileTask(c: Suite, n: nat, h: Thread, inp: Bytes, sh: Shared, ch: Choice, t: Task): Turn
    requires t.FileInsert? || t.FileSeen? || t.FileReply?
  {
    match t
    case FileInsert(up) =>
      if !ch.ok then Turn(FileOutcome(h, NO_REQUEST), inp, [], sh)
      else
        var row := FileRow(up.name, PathOf(up.name), BytesLe(h.id), false);
        Turn(h.(pc := Work(FileSeen(up))), inp, [], Logged(sh.(files := sh.files + [row]), FileAdded(n, h.id, up.name)))
    case FileSeen(up) =>
      Turn(h.(pc := Work(FileReply(up))), inp, [], sh.(clients := Touch(sh.clients, BytesLe(h.id), ch.now)))
    case FileReply(up) =>
      match DecryptData(c, h.key, up.cipher)
      case None => Turn(h.(pc := Work(FinalAck)), inp, [], sh)
      case Some(data) =>
        var job := Job(up.name, up.size, data);
        var sh' := if ch.sent then Logged(sh, CrcSent(n, h.id, up.name, data)) else sh;
        Sending(h, CrcReply(IdOf(h), job, c.crc(data)), ch.sent, AwaitHeader(Verdict(job)), Work(FinalAck), inp, sh')
  }

  function VerdictTask(n: nat, h: Thread, inp: Bytes, sh: Shared, ch: Choice, t: Task): Turn
    requires t.Acknowledge? || t.Save? || t.MarkVerified? || t.VerifiedSeen? || t.FinalAck?
  {
    match t
    case Acknowledge(job, code) =>
      if code == CRC_SUCCESS
      then Sending(h, ACK, ch.sent, Work(Save(job)), Work(FinalAck), inp, sh)
      else
        var h1 := if ch.sent then FileOutcome(h, code) else h;
        Sending(h1, ACK, ch.sent, h1.pc, Work(FinalAck), inp, sh)
    case Save(job) =>
      if !ch.ok then Turn(FileOutcome(h, NO_REQUEST), inp, [], sh)
      else Turn(h.(pc := Work(MarkVerified(job))), inp, [],
                Logged(sh.(disk := sh.disk[PathOf(job.name) := job.data]), Saved(n, h.id, job.name, job.data)))
    case MarkVerified(job) =>
      Turn(h.(pc := Work(VerifiedSeen(job))), inp, [], sh.(files := SetVerified(sh.files, job.name, BytesLe(h.id))))
    case VerifiedSeen(job) =>
      Turn(FileOutcome(h, CRC_SUCCESS), inp, [], sh.(clients := Touch(sh.clients, BytesLe(h.id), ch.now)))
    case FinalAck =>
      Sending(h, ACK, ch.sent, Stopped(false), Stopped(false), inp, sh)
  }

  function TaskStep(c: Suite, n: nat, h: Thread, inp: Bytes, sh: Shared, ch: Choice, t: Task): Turn {
    if t.RegInsert? || t.RegSeen? || t.RegReply? then RegistrationTask(n, h, inp, sh, ch, t)
    else if t.KeyStore? || t.KeySeen? || t.KeyReply? then KeyTask(c, h, inp, sh, ch, t)
    else if t.FileInsert? || t.FileSeen? || t.FileReply? then FileTask(c, n, h, inp, sh, ch, t)
    else VerdictTask(n, h, inp, sh, ch, t)
  }

  function ReceiveStep(n: nat, h: Thread, inp: Bytes, sh: Shared, k: nat): Turn
    requires h.pc.AwaitHeader? || h.pc.AwaitPayload?
    requires h.pc.AwaitHeader? || |h.pc.acc| < h.pc.header.size ==> k <= |inp|
  {
    match h.pc
    case AwaitHeader(stage) => Turn(OnHeader(h, stage, ParseHeader(inp[..k])), inp[k..], [], sh)
    case AwaitPayload(stage, hd, acc) =>
      if |acc| < hd.size && k > 0
      then Turn(h.(pc := AwaitPayload(stage, hd, acc + inp[..k])), inp[k..], [], sh)
      else
        var p := if |acc| < hd.size then [] else acc;
        var whole := hd.whole && |acc| >= hd.size;
        var h1 := if whole then h.(got := h.got + [Request(hd.id, hd.version, hd.code, p)]) else h;
        var sh' := if stage.Verdict? && hd.code == CRC_SUCCESS
                   then Logged(sh, Confirmed(n, h.id, stage.job.name, stage.job.data)) else sh;
        Turn(OnPayload(h1, stage, hd, p), inp, [], sh')
  }

  /** One step of handler number `n`. */
  function Step(c: Suite, n: nat, h: Thread, inp: Bytes, closed: bool, sh: Shared, ch: Choice): Turn
    requires CanStep(h, inp, closed, ch)
  {
    if h.pc.Work? then TaskStep(c, n, h, inp, sh, ch, h.pc.task) else ReceiveStep(n, h, inp, sh, ch.k)
  }

  // ----- Termination -----

  function Rank(pc: Pc): nat {
    match pc
    case Stopped(_) => 0
    case AwaitHeader(stage) => (
      match stage
      case File => 4
      case Verdict(_) => 6
      case Register => 14
      case _ => 9)
    case AwaitPayload(stage, hd, _) => (
      match stage
      case Register => 13
      case KeyExchange => 8
      case Verdict(_) => (if hd.code == CRC_SUCCESS || hd.code == CRC_RESENDING then 7 else 3)
      case _ => (if hd.code == ENCRYPTED_FILE then 10 else if hd.code == CRC_RESENDING then 5 else 2))
    case Work(t) =>
      match t
      case RegInsert(_) => 12
      case RegSeen(_) => 11
      case RegReply(_) => 10
      case KeyStore => 7
      case KeySeen => 6
      case KeyReply => 5
      case FileInsert(_) => 9
      case FileSeen(_) => 8
      case FileReply(_) => 7
      case Acknowledge(_, code) => (if code == CRC_SUCCESS || code == CRC_RESENDING then 5 else 2)
      case Save(_) => 4
      case MarkVerified(_) => 3
      case VerifiedSeen(_) => 2
      case FinalAck => 1
  }

  lemma VerdictDescends(n: nat, h: Thread, inp: Bytes, sh: Shared, ch: Choice, t: Task)
    requires h.pc == Work(t)
    requires t.Acknowledge? || t.Save? || t.MarkVerified? || t.VerifiedSeen? || t.FinalAck?
    ensures var u := VerdictTask(n, h, inp, sh, ch, t);
            u.inp == inp && Rank(u.h.pc) < Rank(h.pc)
  {
  }

  lemma RegistrationDescends(n: nat, h: Thread, inp: Bytes, sh: Shared, ch: Choice, t: Task)
    requires h.pc == Work(t) && (t.RegInsert? || t.RegSeen? || t.RegReply?)
    ensures var u := RegistrationTask(n, h, inp, sh, ch, t); u.inp == inp && Rank(u.h.pc) < Rank(h.pc)
  {
  }

  lemma KeyDescends(c: Suite, h: Thread, inp: Bytes, sh: Shared, ch: Choice, t: Task)
    requires h.pc == Work(t) && (t.KeyStore? || t.KeySeen? || t.KeyReply?)
    ensures var u := KeyTask(c, h, inp, sh, ch, t); u.inp == inp && Rank(u.h.pc) < Rank(h.pc)
  {
  }

  lemma FileDescends(c: Suite, n: nat, h: Thread, inp: Bytes, sh: Shared, ch: Choice, t: Task)
    requires h.pc == Work(t) && (t.FileInsert? || t.FileSeen? || t.FileReply?)
    ensures var u := FileTask(c, n, h, inp, sh, ch, t); u.inp == inp && Rank(u.h.pc) < Rank(h.pc)
  {
  }

  lemma TaskDescends(c: Suite, n: nat, h: Thread, inp: Bytes, sh: Shared, ch: Choice)
    requires h.pc.Work?
    ensures var t := TaskStep(c, n, h, inp, sh, ch, h.pc.task); t.inp == inp && Rank(t.h.pc) < Rank(h.pc)
  {
    var t := h.pc.task;
    if t.RegInsert? || t.RegSeen? || t.RegReply? {
      RegistrationDescends(n, h, inp, sh, ch, t);
    } else if t.KeyStore? || t.KeySeen? || t.KeyReply? {
      KeyDescends(c, h, inp, sh, ch, t);
    } else if t.FileInsert? || t.FileSeen? || t.FileReply? {
      FileDescends(c, n, h, inp, sh, ch, t);
    } else {
      VerdictDescends(n, h, inp, sh, ch, t);
    }
  }

  lemma HeaderDescends(n: nat, h: Thread, inp: Bytes, closed: bool, sh: Shared, ch: Choice)
    requires h.pc.AwaitHeader? && CanStep(h, inp, closed, ch)
    ensures var t := ReceiveStep(n, h, inp, sh, ch.k);
            |t.inp| < |inp| || (t.inp == inp && Rank(t.h.pc) < Rank(h.pc))
  {
    if ch.k == 0 {
      assert inp[..0] == [] && inp[0..] == inp;
      assert ParseHeader([]) == NO_HEADER;
    }
  }

  lemma PayloadDescends(n: nat, h: Thread, inp: Bytes, closed: bool, sh: Shared, ch: Choice)
    requires h.pc.AwaitPayload? && CanStep(h, inp, closed, ch)
    ensures var t := ReceiveStep(n, h, inp, sh, ch.k);
            |t.inp| < |inp| || (t.inp == inp && Rank(t.h.pc) < Rank(h.pc))
  {
  }

  /**
   * The handler's loop has no bound of its own, yet on any input each step either
   * consumes bytes or lowers the rank: only the peer can keep a handler alive.
   */
  lemma StepDescends(c: Suite, n: nat, h: Thread, inp: Bytes, closed: bool, sh: Shared, ch: Choice)
    requires CanStep(h, inp, closed, ch)
    ensures var t := Step(c, n, h, inp, closed, sh, ch);
            |t.inp| < |inp| || (t.inp == inp && Rank(t.h.pc) < Rank(h.pc))
  {
    match h.pc {
      case AwaitHeader(_) => HeaderDescends(n, h, inp, closed, sh, ch);
      case AwaitPayload(_, _, _) => PayloadDescends(n, h, inp, closed, sh, ch);
      case Work(_) => TaskDescends(c, n, h, inp, sh, ch);
    }
  }
}
