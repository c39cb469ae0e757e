/** What every step of a session keeps. */
module SessionInvariants {
  import opened Bytes
  import opened Lifecycle
  import opened Streams
  import opened Session

  /** Every accepted message is written, in flight or queued, in that order; both holds are bounded. */
  ghost predicate Accounts(cfg: Config, tx: Tx) {
    && tx.accepted == tx.written + InFlight(tx.writer) + tx.out
    && |tx.out| <= cfg.queue
    && |InFlight(tx.writer)| <= MAX_BATCH
  }

  /** The wire holds the written messages' frames and part of the batch in flight. */
  ghost predicate WireMatches(c: Codec, tx: Tx) {
    && CallsEncodable(c, tx.written)
    && tx.wire == Frames(c, tx.written) + Pushed(tx.writer)
    && (Pushed(tx.writer) != [] ==>
          CallsEncodable(c, InFlight(tx.writer)) && Pushed(tx.writer) <= Frames(c, InFlight(tx.writer)))
  }

  function Id(call: Call): (nat, nat) {
    (call.sender, call.index)
  }

  function Ids(calls: seq<Call>): set<(nat, nat)> {
    set call <- calls :: Id(call)
  }

  /** Each sender's accepted calls come in the order it made them. */
  ghost predicate InCallOrder(calls: seq<Call>) {
    forall j, k :: 0 <= j < k < |calls| && calls[j].sender == calls[k].sender ==> calls[j].index < calls[k].index
  }

  ghost predicate Settled(senders: seq<Sender>, id: (nat, nat)) {
    id.0 < |senders| && id.1 < senders[id.0].done
  }

  /** A finished call was either accepted or refused, and never both. */
  ghost predicate CallsSettled(cfg: Config, tx: Tx) {
    && InCallOrder(tx.accepted)
    && (forall call <- tx.accepted :: |call.payload| <= cfg.maxLength)
    && Ids(tx.accepted) !! tx.refused
    && (forall id :: id in Ids(tx.accepted) || id in tx.refused <==> Settled(tx.senders, id))
  }

  ghost predicate PendingShort(cfg: Config, tx: Tx) {
    forall s <- tx.senders :: !s.pc.Free? ==> |s.pc.payload| <= cfg.maxLength
  }

  /** Data carries a prefix of the decoded messages, within its capacity, and is closed once by its only sender. */
  ghost predicate DataSound(cfg: Config, rx: Rx) {
    && !rx.panicked
    && rx.taken <= |rx.inbound|
    && (rx.pump.Unstarted? <==> rx.data.Unmade?)
    && (rx.data.Unmade? ==> rx.sent == rx.received == [])
    && (rx.data.Made? ==>
          && (rx.data.closed <==> rx.pump.Gone?)
          && rx.sent == rx.received + rx.data.items
          && |rx.data.items| <= cfg.buffer)
    && (match rx.pump
        case Holding(m) => rx.sent + [m] == rx.inbound[..rx.taken]
        case Leaving => rx.sent <= rx.inbound[..rx.taken]
        case Gone => rx.sent <= rx.inbound[..rx.taken]
        case _ => rx.sent == rx.inbound[..rx.taken])
  }

  ghost predicate TxInv(cfg: Config, tx: Tx) {
    Accounts(cfg, tx) && WireMatches(cfg.codec, tx) && CallsSettled(cfg, tx) && PendingShort(cfg, tx)
  }

  ghost predicate Inv(cfg: Config, s: State) {
    Ordered(s.parent, s.life) && TxInv(cfg, s.tx) && DataSound(cfg, s.rx)
  }

  lemma InitInv(cfg: Config, senders: nat, inbound: seq<Bytes>, parent: Option<Cause>)
    ensures Inv(cfg, Session.Init(senders, inbound, parent))
  {
  }

  lemma IdsGrow(calls: seq<Call>, call: Call)
    ensures Ids(calls + [call]) == Ids(calls) + {Id(call)}
  {
    assert forall c :: c in calls + [call] <==> c in calls || c == call;
  }

  lemma SettleOne(cfg: Config, tx: Tx, i: nat)
    requires i < |tx.senders|
    ensures forall id :: Settled(Settle(tx, i).senders, id) <==>
                           Settled(tx.senders, id) || id == (i, tx.senders[i].done)
  {
  }

  lemma AcceptKeepsOrder(cfg: Config, tx: Tx, i: nat, payload: Bytes)
    requires i < |tx.senders| && CallsSettled(cfg, tx) && |payload| <= cfg.maxLength
    ensures CallsSettled(cfg, Accept(tx, i, payload))
  {
    var call := Call(i, tx.senders[i].done, payload);
    var tx' := Accept(tx, i, payload);
    assert forall j :: 0 <= j < |tx.accepted| ==> Id(tx.accepted[j]) in Ids(tx.accepted);
    assert InCallOrder(tx'.accepted);
    hide InCallOrder;
    IdsGrow(tx.accepted, call);
    SettleOne(cfg, tx, i);
    assert !Settled(tx.senders, Id(call));
    hide Ids, Settled;
  }

  lemma AcceptKeeps(cfg: Config, tx: Tx, i: nat, payload: Bytes)
    requires i < |tx.senders| && TxInv(cfg, tx) && |tx.out| < cfg.queue && |payload| <= cfg.maxLength
    ensures TxInv(cfg, Accept(tx, i, payload))
  {
    hide CallsSettled, CallsEncodable, Frames;
    var tx' := Accept(tx, i, payload);
    assert tx'.accepted == tx'.written + InFlight(tx'.writer) + tx'.out;
    AcceptKeepsOrder(cfg, tx, i, payload);
    assert forall s <- tx'.senders :: s in tx.senders || s.pc.Free?;
  }

  lemma RefuseKeeps(cfg: Config, tx: Tx, i: nat)
    requires i < |tx.senders| && TxInv(cfg, tx)
    ensures TxInv(cfg, Refuse(tx, i))
  {
    hide InCallOrder, Accounts, WireMatches, Ids;
    var tx' := Refuse(tx, i);
    SettleOne(cfg, tx, i);
    assert !Settled(tx.senders, (i, tx.senders[i].done));
    assert forall s <- tx'.senders :: s in tx.senders || s.pc.Free?;
    assert Accounts(cfg, tx') && WireMatches(cfg.codec, tx') by { TxFrame(cfg, tx, tx'); }
  }

  lemma TxFrame(cfg: Config, tx: Tx, tx': Tx)
    requires tx' == tx.(senders := tx'.senders, refused := tx'.refused)
    requires Accounts(cfg, tx) && WireMatches(cfg.codec, tx)
    ensures Accounts(cfg, tx') && WireMatches(cfg.codec, tx')
  {
  }

  lemma AtKeeps(cfg: Config, tx: Tx, i: nat, pc: SenderPc)
    requires i < |tx.senders| && TxInv(cfg, tx) && !pc.Free? && |pc.payload| <= cfg.maxLength
    ensures TxInv(cfg, At(tx, i, pc))
  {
    hide InCallOrder, Accounts, WireMatches, Ids;
    var tx' := At(tx, i, pc);
    assert forall id :: Settled(tx'.senders, id) <==> Settled(tx.senders, id);
    assert forall s <- tx'.senders :: s in tx.senders || s.pc == pc;
    TxFrame(cfg, tx, tx');
  }

  lemma SendKeeps(cfg: Config, tx: Tx, ended: bool, closed: bool, i: nat, step: SendStep)
    requires TxInv(cfg, tx) && CanSend(cfg, tx, ended, closed, i, step)
    ensures TxInv(cfg, SendNext(cfg, tx, ended, closed, i, step))
  {
    hide Accounts, WireMatches, CallsSettled, Accept, Refuse, At;
    var pc := tx.senders[i].pc;
    assert !pc.Free? ==> |pc.payload| <= cfg.maxLength;
    assert |tx.out| <= cfg.queue by { QueueBound(cfg, tx); }
    match step
    case Start(p) => if |p| > cfg.maxLength { RefuseKeeps(cfg, tx, i); } else { AtKeeps(cfg, tx, i, Checking(p)); }
    case CheckOpen => if ended { RefuseKeeps(cfg, tx, i); } else { AtKeeps(cfg, tx, i, Trying(pc.payload)); }
    case TryQueue =>
      if |tx.out| < cfg.queue { AcceptKeeps(cfg, tx, i, pc.payload); }
      else { AtKeeps(cfg, tx, i, Waiting(pc.payload)); }
    case QueueSlot => AcceptKeeps(cfg, tx, i, pc.payload);
    case SeeClosed => RefuseKeeps(cfg, tx, i);
    case Timeout => AtKeeps(cfg, tx, i, GivingUp(pc.payload));
    case GiveUp => RefuseKeeps(cfg, tx, i);
  }

  lemma QueueBound(cfg: Config, tx: Tx)
    requires Accounts(cfg, tx)
    ensures |tx.out| <= cfg.queue
  {
  }

  lemma PayloadsConcat(a: seq<Call>, b: seq<Call>)
    ensures Payloads(a + b) == Payloads(a) + Payloads(b)
  {
  }

  lemma FramesConcat(c: Codec, a: seq<Call>, b: seq<Call>)
    requires CallsEncodable(c, a) && CallsEncodable(c, b)
    ensures CallsEncodable(c, a + b)
    ensures Frames(c, a + b) == Frames(c, a) + Frames(c, b)
  {
    hide Encodable, EncodeAll;
    PayloadsConcat(a, b);
    EncodeAllConcat(c, Payloads(a), Payloads(b));
  }

  lemma WriteKeepsAccounts(cfg: Config, tx: Tx, ended: bool, closed: bool, step: WriteStep)
    requires Accounts(cfg, tx) && CanWrite(cfg, tx, ended, closed, step)
    ensures Accounts(cfg, WriteNext(cfg, tx, ended, closed, step))
  {
    hide CallsEncodable, Frames;
    var tx' := WriteNext(cfg, tx, ended, closed, step);
    assert tx.out != [] ==> tx.out == [tx.out[0]] + tx.out[1..];
    assert tx'.accepted == tx'.written + InFlight(tx'.writer) + tx'.out;
  }

  lemma PushKeepsWire(c: Codec, tx: Tx, n: nat)
    requires WireMatches(c, tx) && tx.writer.Writing? && CallsEncodable(c, tx.writer.batch)
    requires |tx.writer.pushed| + n <= |Frames(c, tx.writer.batch)|
    ensures var w, more := tx.writer, Frames(c, tx.writer.batch)[|tx.writer.pushed|..|tx.writer.pushed| + n];
            WireMatches(c, tx.(writer := Writing(w.batch, w.pushed + more), wire := tx.wire + more))
  {
    hide CallsEncodable, Frames;
    var w := tx.writer;
    var all := Frames(c, w.batch);
    var more := all[|w.pushed|..|w.pushed| + n];
    assert w.pushed == all[..|w.pushed|];
    assert w.pushed + more == all[..|w.pushed| + n];
    assert tx.wire + more == Frames(c, tx.written) + (w.pushed + more);
  }

  lemma FinishKeepsWire(c: Codec, tx: Tx)
    requires WireMatches(c, tx) && tx.writer.Writing?
    requires CallsEncodable(c, tx.writer.batch) && tx.writer.pushed == Frames(c, tx.writer.batch)
    ensures WireMatches(c, tx.(writer := Selecting, written := tx.written + tx.writer.batch))
  {
    hide CallsEncodable, Frames;
    FramesConcat(c, tx.written, tx.writer.batch);
    assert tx.wire == Frames(c, tx.written + tx.writer.batch) + [];
  }

  lemma SameWire(c: Codec, tx: Tx, tx': Tx)
    requires WireMatches(c, tx)
    requires tx'.wire == tx.wire && tx'.written == tx.written && Pushed(tx'.writer) == Pushed(tx.writer)
    requires Pushed(tx.writer) == [] || InFlight(tx'.writer) == InFlight(tx.writer)
    ensures WireMatches(c, tx')
  {
    hide CallsEncodable, Frames;
  }

  lemma WriteKeepsWire(cfg: Config, tx: Tx, ended: bool, closed: bool, step: WriteStep)
    requires WireMatches(cfg.codec, tx) && CanWrite(cfg, tx, ended, closed, step)
    ensures WireMatches(cfg.codec, WriteNext(cfg, tx, ended, closed, step))
  {
    hide CallsEncodable, Frames, WireMatches;
    match step
    case Push(n) => PushKeepsWire(cfg.codec, tx, n);
    case Finish => FinishKeepsWire(cfg.codec, tx);
    case _ => SameWire(cfg.codec, tx, WriteNext(cfg, tx, ended, closed, step));
  }

  lemma WriteKeeps(cfg: Config, tx: Tx, ended: bool, closed: bool, step: WriteStep)
    requires TxInv(cfg, tx) && CanWrite(cfg, tx, ended, closed, step)
    ensures TxInv(cfg, WriteNext(cfg, tx, ended, closed, step))
  {
    hide Accounts, WireMatches, InCallOrder, Ids, CanWrite, WriteNext;
    WriteKeepsAccounts(cfg, tx, ended, closed, step);
    WriteKeepsWire(cfg, tx, ended, closed, step);
    WriteTouchesNoCall(cfg, tx, ended, closed, step);
  }

  lemma WriteTouchesNoCall(cfg: Config, tx: Tx, ended: bool, closed: bool, step: WriteStep)
    requires CanWrite(cfg, tx, ended, closed, step)
    ensures var tx' := WriteNext(cfg, tx, ended, closed, step);
            tx'.senders == tx.senders && tx'.accepted == tx.accepted && tx'.refused == tx.refused
  {
    hide CallsEncodable, Frames;
  }

  lemma PumpKeeps(cfg: Config, rx: Rx, ended: bool, closed: bool, step: ReadStep)
    requires DataSound(cfg, rx) && CanRead(cfg, rx, ended, closed, step)
    requires step.Decode? || step.Put?
    ensures DataSound(cfg, ReadNext(cfg, rx, ended, closed, step))
  {
    assert rx.taken < |rx.inbound| ==>
        rx.inbound[..rx.taken + 1] == rx.inbound[..rx.taken] + [rx.inbound[rx.taken]];
    assert rx.pump.Holding? && rx.data.Made? ==>
        rx.received + (rx.data.items + [rx.pump.message]) == rx.received + rx.data.items + [rx.pump.message];
  }

  lemma ReceiveKeeps(cfg: Config, rx: Rx, ended: bool, closed: bool)
    requires DataSound(cfg, rx) && CanRead(cfg, rx, ended, closed, Receive)
    ensures DataSound(cfg, ReadNext(cfg, rx, ended, closed, Receive))
  {
    assert rx.received + rx.data.items == (rx.received + [rx.data.items[0]]) + rx.data.items[1..];
  }

  lemma ReadKeeps(cfg: Config, rx: Rx, ended: bool, closed: bool, step: ReadStep)
    requires DataSound(cfg, rx) && CanRead(cfg, rx, ended, closed, step)
    ensures DataSound(cfg, ReadNext(cfg, rx, ended, closed, step))
  {
    if step.Decode? || step.Put? {
      hide DataSound, CanRead, ReadNext;
      PumpKeeps(cfg, rx, ended, closed, step);
    } else if step.Receive? {
      hide DataSound, CanRead, ReadNext;
      ReceiveKeeps(cfg, rx, ended, closed);
    }
  }

  lemma StepKeeps(cfg: Config, s: State, step: Step)
    requires Inv(cfg, s) && Enabled(cfg, s, step)
    ensures Inv(cfg, Session.Next(cfg, s, step))
  {
    hide TxInv, DataSound, CanSend, CanWrite, CanRead, SendNext, WriteNext, ReadNext;
    var ended, closed := s.life.ctx.Some?, s.life.HasClosed();
    match step
    case Send(i, send) => SendKeeps(cfg, s.tx, ended, closed, i, send);
    case Write(write) => WriteKeeps(cfg, s.tx, ended, closed, write);
    case Read(read) => ReadKeeps(cfg, s.rx, ended, closed, read);
    case _ =>
  }

  lemma {:induction false} RunKeeps(cfg: Config, s: State, steps: seq<Step>)
    requires Inv(cfg, s) && IsRun(cfg, s, steps)
    ensures Inv(cfg, After(cfg, s, steps))
    decreases |steps|
  {
    hide Inv, Enabled, Session.Next;
    if steps != [] {
      StepKeeps(cfg, s, steps[0]);
      RunKeeps(cfg, Session.Next(cfg, s, steps[0]), steps[1..]);
    }
  }
}
