/** What the methods of a session do, as runs of the machine. */
module SessionRuns {
  import opened Bytes
  import opened Lifecycle
  import opened Streams
  import opened Transport
  import M = Session
  import T = SessionTheorems

  function Min(a: nat, b: nat): nat {
    if a < b then a else b
  }

  // ---- closeWith

  /** One call of closeWith: the entry and, if it is the first, its body line by line. */
  function CloseSteps(life: Life, closer: M.Closer): seq<M.Step> {
    [M.Close(closer)] +
    if life.phase.Open? then [M.CloseLine] + [M.CloseLine] + [M.CloseLine] + [M.CloseLine] else []
  }

  lemma CloseWithIsRun(cfg: M.Config, s: M.State, closer: M.Closer)
    requires M.CloserCause(s, closer).Some? && (s.life.phase.Closing? ==> s.life.HasClosed())
    ensures M.IsRun(cfg, s, CloseSteps(s.life, closer))
    ensures M.After(cfg, s, CloseSteps(s.life, closer)) ==
              s.(life := CloseAll(s.life, M.CloserCause(s, closer).value))
  {
    OneStepRun(cfg, s, M.Close(closer));
    if s.life.phase.Open? {
      hide M.CloserCause;
      var s1 := M.Next(cfg, s, M.Close(closer));
      LinesAreRun(cfg, s1);
      T.RunConcat(cfg, s, [M.Close(closer)], [M.CloseLine] + [M.CloseLine] + [M.CloseLine] + [M.CloseLine]);
    }
  }

  lemma LinesAreRun(cfg: M.Config, s: M.State)
    requires s.life.Is(Began)
    ensures var lines := [M.CloseLine] + [M.CloseLine] + [M.CloseLine] + [M.CloseLine];
            && M.IsRun(cfg, s, lines)
            && M.After(cfg, s, lines) == s.(life := s.life.Advance().Advance().Advance().Advance())
  {
    hide M.IsRun, M.After;
    var l := M.CloseLine;
    OneStepRun(cfg, s, l);
    T.RunExtend(cfg, s, [l], l);
    T.RunExtend(cfg, s, [l] + [l], l);
    T.RunExtend(cfg, s, [l] + [l] + [l], l);
  }

  lemma OneStepRun(cfg: M.Config, s: M.State, step: M.Step)
    requires M.Enabled(cfg, s, step)
    ensures M.IsRun(cfg, s, [step]) && M.After(cfg, s, [step]) == M.Next(cfg, s, step)
  {
    hide M.Enabled, M.Next;
    assert [step][1..] == [];
  }

  // ---- SendToClient

  /** The steps of one call up to where it would have to wait; a refused one stops at its check. */
  function SendSteps(cfg: M.Config, s: M.State, i: nat, payload: Bytes): (steps: seq<M.Step>) {
    [M.Send(i, M.Start(payload))] +
    if |payload| > cfg.maxLength then []
    else [M.Send(i, M.CheckOpen)] + if s.life.ctx.Some? then [] else [M.Send(i, M.TryQueue)]
  }

  /** What these steps come to: a refusal, a place in the queue, or waiting for one. */
  lemma SendIsRun(cfg: M.Config, s: M.State, i: nat, payload: Bytes)
    requires i < |s.tx.senders| && s.tx.senders[i].pc.Free?
    ensures M.IsRun(cfg, s, SendSteps(cfg, s, i, payload))
    ensures M.After(cfg, s, SendSteps(cfg, s, i, payload)) ==
              s.(tx := if |payload| > cfg.maxLength || s.life.ctx.Some? then M.Refuse(s.tx, i)
                       else if |s.tx.out| < cfg.queue then M.Accept(s.tx, i, payload)
                       else M.At(s.tx, i, M.Waiting(payload)))
  {
    hide M.IsRun, M.After;
    var start, check, try := M.Send(i, M.Start(payload)), M.Send(i, M.CheckOpen), M.Send(i, M.TryQueue);
    OneStepRun(cfg, s, start);
    assert [start] + [] == [start] && [check] + [] == [check];
    if |payload| <= cfg.maxLength {
      T.RunExtend(cfg, s, [start], check);
      AtTwice(s.tx, i, M.Checking(payload), M.Trying(payload));
      AtTwice(s.tx, i, M.Trying(payload), M.Waiting(payload));
      if s.life.ctx.None? {
        T.RunExtend(cfg, s, [start] + [check], try);
        assert [start] + [check] + [try] == [start] + ([check] + [try]);
      }
    }
  }

  /** Where a call stood before does not show in what comes after. */
  lemma AtTwice(tx: M.Tx, i: nat, pc: M.SenderPc, pc': M.SenderPc)
    requires i < |tx.senders|
    ensures M.At(M.At(tx, i, pc), i, pc') == M.At(tx, i, pc')
    ensures M.Refuse(M.At(tx, i, pc), i) == M.Refuse(tx, i)
    ensures forall p :: M.Accept(M.At(tx, i, pc), i, p) == M.Accept(tx, i, p)
  {
    var senders := tx.senders;
    var x := senders[i].(pc := pc);
    assert senders[i := x][i := x.(pc := pc')] == senders[i := x.(pc := pc')];
    assert senders[i := x][i := M.Sender(x.done + 1, M.Free)] == senders[i := M.Sender(x.done + 1, M.Free)];
  }

  /** waitToSend when there is room, or the context has ended: the message is queued, or refused. */
  lemma WaitIsRun(cfg: M.Config, s: M.State, i: nat)
    requires i < |s.tx.senders| && s.tx.senders[i].pc.Waiting?
    ensures |s.tx.out| < cfg.queue ==>
              && M.IsRun(cfg, s, [M.Send(i, M.QueueSlot)])
              && var tx' := M.After(cfg, s, [M.Send(i, M.QueueSlot)]).tx;
                 && tx'.out == s.tx.out + [M.Call(i, s.tx.senders[i].done, s.tx.senders[i].pc.payload)]
                 && tx'.accepted == s.tx.accepted + [M.Call(i, s.tx.senders[i].done, s.tx.senders[i].pc.payload)]
    ensures s.life.ctx.Some? ==>
              && M.IsRun(cfg, s, [M.Send(i, M.SeeClosed)])
              && M.After(cfg, s, [M.Send(i, M.SeeClosed)]) == s.(tx := M.Refuse(s.tx, i))
  {
    hide M.IsRun, M.After;
    if |s.tx.out| < cfg.queue { OneStepRun(cfg, s, M.Send(i, M.QueueSlot)); }
    if s.life.ctx.Some? { OneStepRun(cfg, s, M.Send(i, M.SeeClosed)); }
  }

  /** waitToSend when its time is up: the message is refused and the session closed as a slow consumer, if it was open. */
  lemma TimeoutIsRun(cfg: M.Config, s: M.State, i: nat)
    requires i < |s.tx.senders| && s.tx.senders[i].pc.Waiting? && cfg.waits
    requires s.life.phase.Closing? ==> s.life.HasClosed()
    ensures var steps := [M.Send(i, M.Timeout)] + CloseSteps(s.life, M.BySender(i)) + [M.Send(i, M.GiveUp)];
            && M.IsRun(cfg, s, steps)
            && M.After(cfg, s, steps) == s.(tx := M.Refuse(s.tx, i), life := CloseAll(s.life, SlowConsumer))
  {
    hide M.IsRun, M.After, CloseSteps, CloseAll;
    var timeout, close := M.Send(i, M.Timeout), CloseSteps(s.life, M.BySender(i));
    OneStepRun(cfg, s, timeout);
    var s1 := M.Next(cfg, s, timeout);
    CloseWithIsRun(cfg, s1, M.BySender(i));
    CloseAllOnce(s.life, SlowConsumer, SlowConsumer);
    T.RunConcat(cfg, s, [timeout], close);
    T.RunExtend(cfg, s, [timeout] + close, M.Send(i, M.GiveUp));
    AtTwice(s.tx, i, M.GivingUp(s.tx.senders[i].pc.payload), M.Free);
  }

  /** The end of the parent closes the session with the parent's cause, unless something closed it before. */
  lemma ParentCloses(cfg: M.Config, s: M.State)
    requires s.parent.Some? && s.life.ctx.None? && s.life.phase.Open?
    ensures var steps := [M.ParentReaches] + CloseSteps(s.life, M.AfterFunc);
            && M.IsRun(cfg, s, steps)
            && var life := M.After(cfg, s, steps).life;
               life.HasClosed() && life.ctx == s.parent && life.phase.cause == s.parent.value
  {
    hide M.IsRun, M.After;
    OneStepRun(cfg, s, M.ParentReaches);
    var s1 := M.Next(cfg, s, M.ParentReaches);
    CloseWithIsRun(cfg, s1, M.AfterFunc);
    T.RunConcat(cfg, s, [M.ParentReaches], CloseSteps(s.life, M.AfterFunc));
  }

  /** Once the context has ended a writer between batches stops, and a pump with a message in hand drops it and closes Data. */
  lemma EndIsSeen(cfg: M.Config, s: M.State)
    requires s.life.ctx.Some?
    ensures s.tx.writer.Selecting? ==>
              && M.IsRun(cfg, s, [M.Write(M.SeeDone)])
              && M.After(cfg, s, [M.Write(M.SeeDone)]).tx.writer.Stopped?
    ensures s.rx.pump.Holding? && s.rx.data.Made? && !s.rx.data.closed ==>
              var steps := [M.Read(M.SeeEnd)] + [M.Read(M.CloseData)];
              && M.IsRun(cfg, s, steps)
              && M.After(cfg, s, steps).rx.data == M.Made(s.rx.data.items, true)
  {
    hide M.IsRun, M.After;
    if s.tx.writer.Selecting? { OneStepRun(cfg, s, M.Write(M.SeeDone)); }
    if s.rx.pump.Holding? && s.rx.data.Made? && !s.rx.data.closed {
      OneStepRun(cfg, s, M.Read(M.SeeEnd));
      T.RunExtend(cfg, s, [M.Read(M.SeeEnd)], M.Read(M.CloseData));
    }
  }

  // ---- writeLoop

  /** The machine's fill steps in a row. */
  lemma {:induction false} FillBatchIsRun(cfg: M.Config, s: M.State, n: nat)
    requires s.tx.writer.Filling? && n <= |s.tx.out| && |s.tx.writer.batch| + n <= M.MAX_BATCH
    ensures var fills := seq(n, _ => M.Write(M.Fill));
            && M.IsRun(cfg, s, fills)
            && M.After(cfg, s, fills) ==
               s.(tx := s.tx.(writer := M.Filling(s.tx.writer.batch + s.tx.out[..n]), out := s.tx.out[n..]))
    decreases n
  {
    var fills := seq(n, _ => M.Write(M.Fill));
    if n > 0 {
      var s1 := M.Next(cfg, s, M.Write(M.Fill));
      FillBatchIsRun(cfg, s1, n - 1);
      assert fills[1..] == seq(n - 1, _ => M.Write(M.Fill));
      assert [s.tx.out[0]] + s.tx.out[1..][..n - 1] == s.tx.out[..n];
      assert s.tx.writer.batch + [s.tx.out[0]] + s.tx.out[1..][..n - 1] == s.tx.writer.batch + s.tx.out[..n];
      assert s.tx.out[1..][n - 1..] == s.tx.out[n..];
    } else {
      assert s.tx.writer.batch + s.tx.out[..0] == s.tx.writer.batch;
    }
  }

  /** The error and the bytes a round reports are those of the transport; the run depends on which. */
  function RoundEnd(c: Codec, batch: seq<M.Call>, outcome: WriteOutcome): seq<M.Step> {
    if !M.CallsEncodable(c, batch) then []
    else
      [M.Write(M.Push(|OnWire(c, M.Payloads(batch), outcome)|))] +
      [M.Write(if outcome.Wrote? then M.Finish else M.Fail(outcome.error))]
  }

  function RoundSteps(c: Codec, batch: seq<M.Call>, life: Life, outcome: WriteOutcome): seq<M.Step>
    requires batch != []
  {
    [M.Write(M.Take)] + seq(|batch| - 1, _ => M.Write(M.Fill)) + [M.Write(M.Encode)] + RoundEnd(c, batch, outcome)
    + if WriteError(c, M.Payloads(batch), outcome).None? then []
      else CloseSteps(life, M.ByWriter) + [M.Write(M.Leave)]
  }

  /** The writer's and the session's state after one round. */
  function RoundDone(c: Codec, s: M.State, n: nat, outcome: WriteOutcome): M.State
    requires n <= |s.tx.out|
  {
    var batch := s.tx.out[..n];
    var error := WriteError(c, M.Payloads(batch), outcome);
    var bytes := OnWire(c, M.Payloads(batch), outcome);
    s.(life := if error.None? then s.life else CloseAll(s.life, Failure(error.value)),
       tx := s.tx.(out := s.tx.out[n..],
                   wire := s.tx.wire + bytes,
                   writer := if error.None? then M.Selecting else M.Stopped(batch, bytes),
                   written := s.tx.written + if error.None? then batch else []))
  }

  /**
   A round is a run of the machine, whatever becomes of the write: one batch on the wire
   and counted as written, or part of it or nothing, and then the session closed and the
   writer gone.
   */
  lemma WriteRoundIsRun(cfg: M.Config, s: M.State, outcome: WriteOutcome)
    requires s.tx.writer.Selecting? && s.tx.out != []
    requires s.life.phase.Closing? ==> s.life.HasClosed()
    ensures var n := Min(M.MAX_BATCH, |s.tx.out|);
            var steps := RoundSteps(cfg.codec, s.tx.out[..n], s.life, outcome);
            M.IsRun(cfg, s, steps) && M.After(cfg, s, steps) == RoundDone(cfg.codec, s, n, outcome)
  {
    hide M.CallsEncodable, M.Frames, M.IsRun, M.After, M.Enabled, M.Next, OnWire, WriteError, RoundEnd, CloseAll;
    var n := Min(M.MAX_BATCH, |s.tx.out|);
    var batch := s.tx.out[..n];
    TakeAndFill(cfg, s);
    var taken := [M.Write(M.Take)] + seq(n - 1, _ => M.Write(M.Fill));
    var s2 := M.After(cfg, s, taken);
    var s3 := EncodeAndPush(cfg, s2, outcome);
    var wrote := [M.Write(M.Encode)] + RoundEnd(cfg.codec, batch, outcome);
    T.RunConcat(cfg, s, taken, wrote);
    assert taken + wrote == taken + [M.Write(M.Encode)] + RoundEnd(cfg.codec, batch, outcome);
    if WriteError(cfg.codec, M.Payloads(batch), outcome).Some? {
      var leaving := CloseSteps(s.life, M.ByWriter) + [M.Write(M.Leave)];
      FailedWriterLeaves(cfg, s3);
      T.RunConcat(cfg, s, taken + wrote, leaving);
    } else {
      assert taken + wrote + [] == taken + wrote;
    }
  }

  /** What a round leaves on the wire and of the session, outcome by outcome. */
  lemma RoundWrites(c: Codec, s: M.State, n: nat, outcome: WriteOutcome)
    requires n <= |s.tx.out|
    ensures var batch := s.tx.out[..n];
            var s' := RoundDone(c, s, n, outcome);
            var whole := M.CallsEncodable(c, batch);
            && (!whole || outcome.DeadlineFailed? ==> s'.tx.wire == s.tx.wire)
            && (whole && outcome.Wrote? ==> s'.tx.wire == s.tx.wire + M.Frames(c, batch) && s'.life == s.life)
            && (whole && outcome.Failed? ==>
                  s'.tx.wire == s.tx.wire + M.Frames(c, batch)[..Min(outcome.taken, |M.Frames(c, batch)|)])
            && (!whole ==> s'.life == CloseAll(s.life, Failure(FrameTooLarge)))
            && (whole && !outcome.Wrote? ==> s'.life == CloseAll(s.life, Failure(outcome.error)))
  {
    hide Encodable, EncodeAll, CloseAll;
    assert s.tx.wire + [] == s.tx.wire;
  }

  lemma TakeAndFill(cfg: M.Config, s: M.State)
    requires s.tx.writer.Selecting? && s.tx.out != []
    ensures var n := Min(M.MAX_BATCH, |s.tx.out|);
            var steps := [M.Write(M.Take)] + seq(n - 1, _ => M.Write(M.Fill));
            && M.IsRun(cfg, s, steps)
            && M.After(cfg, s, steps) ==
               s.(tx := s.tx.(writer := M.Filling(s.tx.out[..n]), out := s.tx.out[n..]))
  {
    var n := Min(M.MAX_BATCH, |s.tx.out|);
    var s1 := M.Next(cfg, s, M.Write(M.Take));
    assert s1 == s.(tx := s.tx.(writer := M.Filling([s.tx.out[0]]), out := s.tx.out[1..]));
    hide M.IsRun, M.After, M.Next;
    FillBatchIsRun(cfg, s1, n - 1);
    assert [s.tx.out[0]] + s.tx.out[1..][..n - 1] == s.tx.out[..n];
    assert s.tx.out[1..][n - 1..] == s.tx.out[n..];
    FirstThenRun(cfg, s, M.Write(M.Take), seq(n - 1, _ => M.Write(M.Fill)));
  }

  lemma FirstThenRun(cfg: M.Config, s: M.State, step: M.Step, rest: seq<M.Step>)
    requires M.Enabled(cfg, s, step) && M.IsRun(cfg, M.Next(cfg, s, step), rest)
    ensures M.IsRun(cfg, s, [step] + rest)
    ensures M.After(cfg, s, [step] + rest) == M.After(cfg, M.Next(cfg, s, step), rest)
  {
    hide M.Enabled, M.Next;
    assert ([step] + rest)[1..] == rest;
  }

  /** The batch encoded, pushed as far as the outcome says, and finished or failed. */
  lemma EncodeAndPush(cfg: M.Config, s: M.State, outcome: WriteOutcome) returns (s': M.State)
    requires s.tx.writer.Filling? && (|s.tx.writer.batch| >= M.MAX_BATCH || s.tx.out == [])
    ensures var batch := s.tx.writer.batch;
            var steps := [M.Write(M.Encode)] + RoundEnd(cfg.codec, batch, outcome);
            var error := WriteError(cfg.codec, M.Payloads(batch), outcome);
            var bytes := OnWire(cfg.codec, M.Payloads(batch), outcome);
            && M.IsRun(cfg, s, steps) && M.After(cfg, s, steps) == s'
            && s' == s.(tx := s.tx.(
                 wire := s.tx.wire + bytes,
                 writer := if error.None? then M.Selecting else M.WriteFailed(batch, bytes, Failure(error.value)),
                 written := s.tx.written + if error.None? then batch else []))
  {
    hide M.IsRun, M.After, Encodable, EncodeAll;
    var batch := s.tx.writer.batch;
    OneStepRun(cfg, s, M.Write(M.Encode));
    s' := M.Next(cfg, s, M.Write(M.Encode));
    if M.CallsEncodable(cfg.codec, batch) {
      var bytes := OnWire(cfg.codec, M.Payloads(batch), outcome);
      var push := M.Write(M.Push(|bytes|));
      var last := M.Write(if outcome.Wrote? then M.Finish else M.Fail(outcome.error));
      var frames := M.Frames(cfg.codec, batch);
      assert bytes == frames[0..|bytes|] && [] + bytes == bytes;
      T.RunExtend(cfg, s, [M.Write(M.Encode)], push);
      s' := M.Next(cfg, s', push);
      T.RunExtend(cfg, s, [M.Write(M.Encode)] + [push], last);
      s' := M.Next(cfg, s', last);
      assert [M.Write(M.Encode)] + [push] + [last] == [M.Write(M.Encode)] + ([push] + [last]);
    } else {
      assert [M.Write(M.Encode)] + [] == [M.Write(M.Encode)];
      assert s.tx.wire + [] == s.tx.wire;
    }
    assert s.tx.written + [] == s.tx.written;
  }

  lemma FailedWriterLeaves(cfg: M.Config, s: M.State)
    requires s.tx.writer.WriteFailed? && (s.life.phase.Closing? ==> s.life.HasClosed())
    ensures var steps := CloseSteps(s.life, M.ByWriter) + [M.Write(M.Leave)];
            && M.IsRun(cfg, s, steps)
            && M.After(cfg, s, steps) ==
               s.(life := CloseAll(s.life, s.tx.writer.cause),
                  tx := s.tx.(writer := M.Stopped(s.tx.writer.batch, s.tx.writer.pushed)))
  {
    hide M.IsRun, M.After, CloseSteps, CloseAll;
    CloseWithIsRun(cfg, s, M.ByWriter);
    CloseAllOnce(s.life, s.tx.writer.cause, s.tx.writer.cause);
    T.RunExtend(cfg, s, CloseSteps(s.life, M.ByWriter), M.Write(M.Leave));
  }

  // ---- Messages, pumped into Data

  /** n messages, each decoded, put and received before the next. */
  function PumpSteps(n: nat): seq<M.Step> {
    if n == 0 then [] else [M.Read(M.Decode)] + [M.Read(M.Put)] + [M.Read(M.Receive)] + PumpSteps(n - 1)
  }

  /** The pump with an empty channel before it and a reader that takes everything. */
  predicate Flowing(cfg: M.Config, rx: M.Rx) {
    rx.pump.Reading? && rx.data == M.Made([], false) && cfg.buffer >= 1
  }

  function Delivered(rx: M.Rx, n: nat): M.Rx
    requires rx.taken + n <= |rx.inbound|
  {
    var more := rx.inbound[rx.taken..rx.taken + n];
    rx.(taken := rx.taken + n, sent := rx.sent + more, received := rx.received + more)
  }

  lemma {:induction false} PumpIsRun(cfg: M.Config, s: M.State, n: nat)
    requires Flowing(cfg, s.rx) && s.rx.taken + n <= |s.rx.inbound|
    ensures M.IsRun(cfg, s, PumpSteps(n)) && M.After(cfg, s, PumpSteps(n)) == s.(rx := Delivered(s.rx, n))
    decreases n
  {
    hide M.Next, M.Enabled;
    if n > 0 {
      OneMessage(cfg, s);
      DeliveredThen(s.rx, n);
      hide M.IsRun, M.After, Delivered;
      PumpIsRun(cfg, s.(rx := Delivered(s.rx, 1)), n - 1);
      T.RunConcat(cfg, s, [M.Read(M.Decode)] + [M.Read(M.Put)] + [M.Read(M.Receive)], PumpSteps(n - 1));
    }
  }

  lemma DeliveredThen(rx: M.Rx, n: nat)
    requires 0 < n && rx.taken + n <= |rx.inbound|
    ensures var rx1 := Delivered(rx, 1);
            && rx1.taken + n - 1 <= |rx1.inbound|
            && rx1.pump == rx.pump && rx1.data == rx.data
            && Delivered(rx1, n - 1) == Delivered(rx, n)
  {
    var head, tail := rx.inbound[rx.taken..rx.taken + 1], rx.inbound[rx.taken + 1..rx.taken + n];
    assert rx.inbound[rx.taken..rx.taken + n] == head + tail;
    assert rx.sent + (head + tail) == rx.sent + head + tail;
    assert rx.received + (head + tail) == rx.received + head + tail;
  }

  lemma OneMessage(cfg: M.Config, s: M.State)
    requires Flowing(cfg, s.rx) && s.rx.taken < |s.rx.inbound|
    ensures var steps := [M.Read(M.Decode)] + [M.Read(M.Put)] + [M.Read(M.Receive)];
            M.IsRun(cfg, s, steps) && M.After(cfg, s, steps) == s.(rx := Delivered(s.rx, 1))
  {
    hide M.IsRun, M.After;
    var m := s.rx.inbound[s.rx.taken];
    assert s.rx.inbound[s.rx.taken..s.rx.taken + 1] == [m];
    OneStepRun(cfg, s, M.Read(M.Decode));
    T.RunExtend(cfg, s, [M.Read(M.Decode)], M.Read(M.Put));
    T.RunExtend(cfg, s, [M.Read(M.Decode)] + [M.Read(M.Put)], M.Read(M.Receive));
  }

  function PumpEnd(life: Life, e: Error): seq<M.Step> {
    [M.Read(M.FailRead(e))] + CloseSteps(life, M.ByPump) + [M.Read(M.Return)] + [M.Read(M.CloseData)]
  }

  /** All that is inbound reaches the reader, then the read error closes the session and the channel. */
  lemma MessagesIsRun(cfg: M.Config, s: M.State, e: Error)
    requires Flowing(cfg, s.rx) && s.rx.taken <= |s.rx.inbound|
    requires s.life.phase.Closing? ==> s.life.HasClosed()
    ensures var n := |s.rx.inbound| - s.rx.taken;
            var steps := PumpSteps(n) + PumpEnd(s.life, e);
            && M.IsRun(cfg, s, steps)
            && M.After(cfg, s, steps) ==
               s.(life := CloseAll(s.life, M.ReadCause(e)),
                  rx := Delivered(s.rx, n).(pump := M.Gone, data := M.Made([], true)))
  {
    hide M.IsRun, M.After, CloseSteps, CloseAll;
    var n := |s.rx.inbound| - s.rx.taken;
    PumpIsRun(cfg, s, n);
    var s1 := s.(rx := Delivered(s.rx, n));
    var fail, close := M.Read(M.FailRead(e)), CloseSteps(s.life, M.ByPump);
    OneStepRun(cfg, s1, fail);
    var s2 := M.Next(cfg, s1, fail);
    CloseWithIsRun(cfg, s2, M.ByPump);
    CloseAllOnce(s.life, M.ReadCause(e), M.ReadCause(e));
    T.RunConcat(cfg, s1, [fail], close);
    T.RunExtend(cfg, s1, [fail] + close, M.Read(M.Return));
    T.RunExtend(cfg, s1, [fail] + close + [M.Read(M.Return)], M.Read(M.CloseData));
    T.RunConcat(cfg, s, PumpSteps(n), PumpEnd(s.life, e));
  }
}
