/**
 One session as a step machine: any number of senders, the writer goroutine,
 the read-ahead pump, whoever closes the session, and the parent context. Every
 channel operation, select and line of `closeWith` is one step, so a run is
 any interleaving of them.
 */
module Session {
  import opened Bytes
  import opened Lifecycle
  import opened Streams

  /** The most messages one write carries. */
  const MAX_BATCH: nat := 128

  /** `waits` tells whether a full queue has a timeout (a positive WriteTimeout). */
  datatype Config = Config(codec: Codec, maxLength: nat, queue: nat, waits: bool, buffer: nat)

  predicate ValidConfig(cfg: Config) {
    cfg.queue >= 1 && cfg.buffer >= 1
  }

  /** The sizes `newSession` settles on. */
  function NewConfig(codec: Codec, maxLength: nat, sendQueueSize: int, waits: bool, bufferSize: int): (cfg: Config)
    ensures ValidConfig(cfg)
    ensures cfg.codec == codec && cfg.maxLength == maxLength && cfg.waits == waits
    ensures sendQueueSize >= 1 ==> cfg.queue == sendQueueSize
    ensures sendQueueSize < 1 ==> cfg.queue == 1024
    ensures cfg.buffer >= bufferSize && (cfg.buffer == bufferSize || cfg.buffer == 1)
  {
    Config(codec, maxLength, if sendQueueSize < 1 then 1024 else sendQueueSize, waits,
           if bufferSize < 1 then 1 else bufferSize)
  }

  /** One `SendToClient` call: the sender's call number `index`. */
  datatype Call = Call(sender: nat, index: nat, payload: Bytes)

  /** Where a sender is inside `SendToClient`. */
  datatype SenderPc =
    | Free
    | Checking(payload: Bytes)
    | Trying(payload: Bytes)
    | Waiting(payload: Bytes)
    | GivingUp(payload: Bytes)

  /** A sender that has finished `done` calls. */
  datatype Sender = Sender(done: nat, pc: SenderPc)

  /** Where the writer is, with the batch it holds and the bytes of it already written. */
  datatype Writer =
    | Selecting
    | Filling(batch: seq<Call>)
    | Writing(batch: seq<Call>, pushed: Bytes)
    | WriteFailed(batch: seq<Call>, pushed: Bytes, cause: Cause)
    | Stopped(batch: seq<Call>, pushed: Bytes)

  /** The sending half. `accepted`, `refused` and `written` log what became of the calls. */
  datatype Tx = Tx(
    senders: seq<Sender>,
    out: seq<Call>,
    writer: Writer,
    wire: Bytes,
    accepted: seq<Call>,
    refused: set<(nat, nat)>,
    written: seq<Call>)

  datatype Channel = Unmade | Made(items: seq<Bytes>, closed: bool)

  datatype Pump =
    | Unstarted
    | Reading
    | Holding(message: Bytes)
    | ReadFailed(cause: Cause)
    | Leaving
    | Gone

  /** The receiving half: `inbound` is what the transport decodes, `sent` and `received` log the Data channel. */
  datatype Rx = Rx(
    inbound: seq<Bytes>,
    taken: nat,
    pump: Pump,
    data: Channel,
    sent: seq<Bytes>,
    received: seq<Bytes>,
    panicked: bool)

  datatype State = State(parent: Option<Cause>, life: Life, tx: Tx, rx: Rx)

  function Init(senders: nat, inbound: seq<Bytes>, parent: Option<Cause>): State {
    State(parent, FRESH,
          Tx(seq(senders, _ => Sender(0, Free)), [], Selecting, [], [], {}, []),
          Rx(inbound, 0, Unstarted, Unmade, [], [], false))
  }

  /** Who calls `closeWith`: the context callback, code outside the session, or one of its threads. */
  datatype Closer =
    | AfterFunc
    | Outside(cause: Cause)
    | BySender(i: nat)
    | ByWriter
    | ByPump

  datatype SendStep =
    | Start(payload: Bytes)
    | CheckOpen
    | TryQueue
    | QueueSlot
    | SeeClosed
    | Timeout
    | GiveUp

  datatype WriteStep =
    | SeeDone
    | Take
    | Fill
    | Encode
    | Push(n: nat)
    | Finish
    | Fail(error: Error)
    | Leave

  datatype ReadStep =
    | OpenData
    | Decode
    | FailRead(error: Error)
    | Put
    | SeeEnd
    | Return
    | CloseData
    | Receive

  datatype Step =
    | ParentEnds(cause: Cause)
    | ParentReaches
    | Close(closer: Closer)
    | CloseLine
    | Send(i: nat, send: SendStep)
    | Write(write: WriteStep)
    | Read(read: ReadStep)

  // ---- SendToClient and waitToSend ----

  predicate CanSend(cfg: Config, tx: Tx, ended: bool, closed: bool, i: nat, step: SendStep) {
    && i < |tx.senders|
    && var pc := tx.senders[i].pc;
       match step
       case Start(_) => pc.Free?
       case CheckOpen => pc.Checking?
       case TryQueue => pc.Trying?
       case QueueSlot => pc.Waiting? && |tx.out| < cfg.queue
       case SeeClosed => pc.Waiting? && ended
       case Timeout => pc.Waiting? && cfg.waits
       case GiveUp => pc.GivingUp? && closed
  }

  function At(tx: Tx, i: nat, pc: SenderPc): Tx
    requires i < |tx.senders|
  {
    tx.(senders := tx.senders[i := tx.senders[i].(pc := pc)])
  }

  /** The call returns; its number is settled. */
  function Settle(tx: Tx, i: nat): Tx
    requires i < |tx.senders|
  {
    tx.(senders := tx.senders[i := Sender(tx.senders[i].done + 1, Free)])
  }

  function Refuse(tx: Tx, i: nat): Tx
    requires i < |tx.senders|
  {
    Settle(tx, i).(refused := tx.refused + {(i, tx.senders[i].done)})
  }

  function Accept(tx: Tx, i: nat, payload: Bytes): Tx
    requires i < |tx.senders|
  {
    var call := Call(i, tx.senders[i].done, payload);
    Settle(tx, i).(out := tx.out + [call], accepted := tx.accepted + [call])
  }

  function SendNext(cfg: Config, tx: Tx, ended: bool, closed: bool, i: nat, step: SendStep): Tx
    requires CanSend(cfg, tx, ended, closed, i, step)
  {
    var pc := tx.senders[i].pc;
    match step
    case Start(p) => if |p| > cfg.maxLength then Refuse(tx, i) else At(tx, i, Checking(p))
    case CheckOpen => if ended then Refuse(tx, i) else At(tx, i, Trying(pc.payload))
    case TryQueue =>
      if |tx.out| < cfg.queue then Accept(tx, i, pc.payload) else At(tx, i, Waiting(pc.payload))
    case QueueSlot => Accept(tx, i, pc.payload)
    case SeeClosed => Refuse(tx, i)
    case Timeout => At(tx, i, GivingUp(pc.payload))
    case GiveUp => Refuse(tx, i)
  }

  // ---- writeLoop and fillBatch over streamTransport.writeMessages ----

  function Payloads(calls: seq<Call>): (ps: seq<Bytes>)
    ensures |ps| == |calls| && forall i :: 0 <= i < |ps| ==> ps[i] == calls[i].payload
  {
    seq(|calls|, i requires 0 <= i < |calls| => calls[i].payload)
  }

  predicate CallsEncodable(c: Codec, calls: seq<Call>) {
    AllEncodable(c, Payloads(calls))
  }

  function Frames(c: Codec, calls: seq<Call>): Bytes
    requires CallsEncodable(c, calls)
  {
    EncodeAll(c, Payloads(calls))
  }

  /** The messages taken off the queue but not yet written. */
  function InFlight(w: Writer): seq<Call> {
    if w.Selecting? then [] else w.batch
  }

  /** How much of the batch in flight is already on the wire. */
  function Pushed(w: Writer): Bytes {
    if w.Selecting? || w.Filling? then [] else w.pushed
  }

  predicate CanWrite(cfg: Config, tx: Tx, ended: bool, closed: bool, step: WriteStep) {
    var w := tx.writer;
    match step
    case SeeDone => w.Selecting? && ended
    case Take => w.Selecting? && tx.out != []
    case Fill => w.Filling? && |w.batch| < MAX_BATCH && tx.out != []
    case Encode => w.Filling? && (|w.batch| >= MAX_BATCH || tx.out == [])
    case Push(n) =>
      && w.Writing?
      && CallsEncodable(cfg.codec, w.batch)
      && |w.pushed| + n <= |Frames(cfg.codec, w.batch)|
    case Finish => w.Writing? && CallsEncodable(cfg.codec, w.batch) && w.pushed == Frames(cfg.codec, w.batch)
    case Fail(_) => w.Writing?
    case Leave => w.WriteFailed? && closed
  }

  function WriteNext(cfg: Config, tx: Tx, ended: bool, closed: bool, step: WriteStep): Tx
    requires CanWrite(cfg, tx, ended, closed, step)
  {
    var w := tx.writer;
    match step
    case SeeDone => tx.(writer := Stopped([], []))
    case Take => tx.(writer := Filling([tx.out[0]]), out := tx.out[1..])
    case Fill => tx.(writer := Filling(w.batch + [tx.out[0]]), out := tx.out[1..])
    case Encode =>
      tx.(writer := if CallsEncodable(cfg.codec, w.batch) then Writing(w.batch, [])
                    else WriteFailed(w.batch, [], Failure(FrameTooLarge)))
    case Push(n) =>
      var more := Frames(cfg.codec, w.batch)[|w.pushed|..|w.pushed| + n];
      tx.(writer := Writing(w.batch, w.pushed + more), wire := tx.wire + more)
    case Finish => tx.(writer := Selecting, written := tx.written + w.batch)
    case Fail(e) => tx.(writer := WriteFailed(w.batch, w.pushed, Failure(e)))
    case Leave => tx.(writer := Stopped(w.batch, w.pushed))
  }

  // ---- Data, pumpData and Messages ----

  predicate CanRead(cfg: Config, rx: Rx, ended: bool, closed: bool, step: ReadStep) {
    match step
    case OpenData => true
    case Decode => rx.pump.Reading? && rx.taken < |rx.inbound|
    case FailRead(_) => rx.pump.Reading?
    case Put => rx.pump.Holding? && (rx.data.Made? ==> rx.data.closed || |rx.data.items| < cfg.buffer)
    case SeeEnd => rx.pump.Holding? && ended
    case Return => rx.pump.ReadFailed? && closed
    case CloseData => rx.pump.Leaving?
    case Receive => rx.data.Made? && rx.data.items != []
  }

  /** readCause: the client going away is an ordinary close. */
  function ReadCause(e: Error): Cause {
    if e == EOF || e == ConnClosed then SessionClosed else Failure(e)
  }

  /** Sending on or closing a channel that is not open panics. */
  function ReadNext(cfg: Config, rx: Rx, ended: bool, closed: bool, step: ReadStep): Rx
    requires CanRead(cfg, rx, ended, closed, step)
  {
    match step
    case OpenData =>
      if rx.data.Unmade? then rx.(data := Made([], false), pump := Reading) else rx
    case Decode => rx.(pump := Holding(rx.inbound[rx.taken]), taken := rx.taken + 1)
    case FailRead(e) => rx.(pump := ReadFailed(ReadCause(e)))
    case Put =>
      if rx.data.Unmade? || rx.data.closed then rx.(panicked := true)
      else rx.(data := rx.data.(items := rx.data.items + [rx.pump.message]),
               sent := rx.sent + [rx.pump.message], pump := Reading)
    case SeeEnd => rx.(pump := Leaving)
    case Return => rx.(pump := Leaving)
    case CloseData =>
      if rx.data.Unmade? || rx.data.closed then rx.(panicked := true)
      else rx.(data := rx.data.(closed := true), pump := Gone)
    case Receive =>
      rx.(data := rx.data.(items := rx.data.items[1..]), received := rx.received + [rx.data.items[0]])
  }

  // ---- The whole session ----

  /** The cause a closer brings, if it is at a call of `closeWith`. */
  function CloserCause(s: State, closer: Closer): Option<Cause> {
    match closer
    case AfterFunc => s.life.ctx
    case Outside(c) => if c == SlowConsumer then None else Some(c)
    case BySender(i) => if i < |s.tx.senders| && s.tx.senders[i].pc.GivingUp? then Some(SlowConsumer) else None
    case ByWriter => if s.tx.writer.WriteFailed? then Some(s.tx.writer.cause) else None
    case ByPump => if s.rx.pump.ReadFailed? then Some(s.rx.pump.cause) else None
  }

  predicate Enabled(cfg: Config, s: State, step: Step) {
    var ended, closed := s.life.ctx.Some?, s.life.HasClosed();
    match step
    case ParentEnds(_) => s.parent.None?
    case ParentReaches => s.parent.Some?
    case Close(closer) => CloserCause(s, closer).Some?
    case CloseLine => s.life.phase.Closing? && s.life.phase.stage != Done
    case Send(i, send) => CanSend(cfg, s.tx, ended, closed, i, send)
    case Write(write) => CanWrite(cfg, s.tx, ended, closed, write)
    case Read(read) => CanRead(cfg, s.rx, ended, closed, read)
  }

  function Next(cfg: Config, s: State, step: Step): State
    requires Enabled(cfg, s, step)
  {
    var ended, closed := s.life.ctx.Some?, s.life.HasClosed();
    match step
    case ParentEnds(c) => s.(parent := Some(c))
    case ParentReaches => s.(life := s.life.Propagate(s.parent.value))
    case Close(closer) => s.(life := s.life.Begin(CloserCause(s, closer).value))
    case CloseLine => s.(life := s.life.Advance())
    case Send(i, send) => s.(tx := SendNext(cfg, s.tx, ended, closed, i, send))
    case Write(write) => s.(tx := WriteNext(cfg, s.tx, ended, closed, write))
    case Read(read) => s.(rx := ReadNext(cfg, s.rx, ended, closed, read))
  }

  /** Every step of the run is enabled where it is taken. */
  predicate IsRun(cfg: Config, s: State, steps: seq<Step>)
    decreases |steps|
  {
    steps == [] || (Enabled(cfg, s, steps[0]) && IsRun(cfg, Next(cfg, s, steps[0]), steps[1..]))
  }

  function After(cfg: Config, s: State, steps: seq<Step>): State
    requires IsRun(cfg, s, steps)
    decreases |steps|
  {
    if steps == [] then s else After(cfg, Next(cfg, s, steps[0]), steps[1..])
  }
}
