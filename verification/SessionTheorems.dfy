/** What holds of every run of a session, and end to end with the peer's decoder. */
module SessionTheorems {
  import opened Bytes
  import opened Bufio
  import opened Lifecycle
  import opened Streams
  import opened Session
  import opened SessionInvariants
  import opened SessionHistory
  import Prefixed

  /** The state a run from a new session reaches. */
  ghost predicate Reaches(cfg: Config, steps: seq<Step>, s: State) {
    exists senders: nat, inbound, parent ::
      var s0 := Session.Init(senders, inbound, parent);
      IsRun(cfg, s0, steps) && s == After(cfg, s0, steps)
  }

  lemma ReachedInv(cfg: Config, steps: seq<Step>, s: State)
    requires Reaches(cfg, steps, s)
    ensures Inv(cfg, s)
  {
    hide Inv, IsRun, After;
    var senders: nat, inbound, parent :|
      var s0 := Session.Init(senders, inbound, parent);
      IsRun(cfg, s0, steps) && s == After(cfg, s0, steps);
    InitInv(cfg, senders, inbound, parent);
    RunKeeps(cfg, Session.Init(senders, inbound, parent), steps);
  }

  lemma ReachedMatches(cfg: Config, steps: seq<Step>, s: State)
    requires Reaches(cfg, steps, s)
    ensures TxMatches(cfg, steps, s) && NoneQuitsEarly(s)
  {
    hide TxMatches, CausesMatch, NoneQuitsEarly, IsRun, After;
    var senders: nat, inbound, parent :|
      var s0 := Session.Init(senders, inbound, parent);
      IsRun(cfg, s0, steps) && s == After(cfg, s0, steps);
    InitMatches(cfg, senders, inbound, parent);
    RunMatches(cfg, parent, [], Session.Init(senders, inbound, parent), steps);
    assert [] + steps == steps;
  }

  // ---- Closing ----

  /**
   If the context is done and the parent's is not, the callback has finished, the
   slot is released and the transport is closed. In any case the context's cause
   is the parent's, or that of the close call that ran to its end.
   */
  lemma CloseOrdering(cfg: Config, steps: seq<Step>, s: State)
    requires Reaches(cfg, steps, s) && s.life.ctx.Some?
    ensures s.parent.None? ==> s.life.HasUnlisted() && s.life.HasReleased() && s.life.HasShut()
    ensures s.life.ctx == s.parent || (s.life.HasClosed() && s.life.ctx == Some(s.life.phase.cause))
  {
    ReachedInv(cfg, steps, s);
  }

  /** Without the proviso it fails: the parent ends first, and the session is still listed and connected. */
  lemma ParentEndsFirst(cfg: Config, cause: Cause) returns (steps: seq<Step>, s: State)
    ensures Reaches(cfg, steps, s)
    ensures s.life.ctx == Some(cause) && s.life.phase == Open
  {
    steps := [ParentEnds(cause), ParentReaches];
    var s0 := Session.Init(0, [], None);
    var s1 := Session.Next(cfg, s0, steps[0]);
    var rest := [ParentReaches];
    assert steps[1..] == rest && rest[1..] == [];
    assert IsRun(cfg, s1, rest) && After(cfg, s1, rest) == Session.Next(cfg, s1, ParentReaches);
    s := After(cfg, s0, steps);
  }

  /** Once the context has ended its cause never changes. */
  lemma {:induction false} CauseIsFinal(cfg: Config, s: State, steps: seq<Step>)
    requires IsRun(cfg, s, steps) && s.life.ctx.Some?
    ensures After(cfg, s, steps).life.ctx == s.life.ctx
    decreases |steps|
  {
    if steps != [] {
      OneStepKeepsCause(cfg, s, steps[0]);
      hide Enabled, Session.Next;
      CauseIsFinal(cfg, Session.Next(cfg, s, steps[0]), steps[1..]);
    }
  }

  lemma OneStepKeepsCause(cfg: Config, s: State, step: Step)
    requires Enabled(cfg, s, step) && s.life.ctx.Some?
    ensures Session.Next(cfg, s, step).life.ctx == s.life.ctx
  {
    hide CanSend, CanWrite, CanRead, SendNext, WriteNext, ReadNext;
  }

  lemma OnlyCloseBegins(cfg: Config, s: State, step: Step)
    requires Enabled(cfg, s, step)
    ensures s.life.phase.Open? && !step.Close? ==> Session.Next(cfg, s, step).life.phase.Open?
    ensures s.life.phase.Open? && step.Close? ==>
              Session.Next(cfg, s, step).life.phase == Closing(CloserCause(s, step.closer).value, Began)
    ensures s.life.phase.Closing? ==>
              var p := Session.Next(cfg, s, step).life.phase;
              p.Closing? && p.cause == s.life.phase.cause
  {
    hide CanSend, CanWrite, CanRead, SendNext, WriteNext, ReadNext;
  }

  lemma {:induction false} ClosingKeepsCause(cfg: Config, s: State, steps: seq<Step>)
    requires IsRun(cfg, s, steps) && s.life.phase.Closing?
    ensures var p := After(cfg, s, steps).life.phase;
            p.Closing? && p.cause == s.life.phase.cause
    decreases |steps|
  {
    hide Enabled, Session.Next;
    if steps != [] {
      OnlyCloseBegins(cfg, s, steps[0]);
      ClosingKeepsCause(cfg, Session.Next(cfg, s, steps[0]), steps[1..]);
    }
  }

  /** The cause of closing is that of the first close call of the run, whichever thread made it. */
  lemma {:induction false} FirstCallWins(cfg: Config, s: State, steps: seq<Step>) returns (k: nat)
    requires IsRun(cfg, s, steps) && s.life.phase.Open? && After(cfg, s, steps).life.phase.Closing?
    ensures k < |steps| && steps[k].Close? && forall j :: 0 <= j < k ==> !steps[j].Close?
    ensures IsRun(cfg, s, steps[..k])
    ensures CloserCause(After(cfg, s, steps[..k]), steps[k].closer) == Some(After(cfg, s, steps).life.phase.cause)
    decreases |steps|
  {
    hide Enabled, Session.Next, CloserCause;
    OnlyCloseBegins(cfg, s, steps[0]);
    var s1 := Session.Next(cfg, s, steps[0]);
    if steps[0].Close? {
      CloserHasCause(cfg, s, steps[0]);
      ClosingKeepsCause(cfg, s1, steps[1..]);
      k := 0;
      assert steps[..0] == [];
    } else {
      var k' := FirstCallWins(cfg, s1, steps[1..]);
      k := k' + 1;
      assert steps[..k][1..] == steps[1..][..k'];
      assert forall j :: 0 < j < k ==> steps[j] == steps[1..][j - 1];
    }
  }

  /**
   Why a session closes, told by the steps of the run: the first close call brings the parent's cause,
   what outside code says, a slow consumer after that sender's timeout, the write that failed, or the
   end of reading.
   */
  lemma ClosingCause(cfg: Config, senders: nat, inbound: seq<Bytes>, parent: Option<Cause>, steps: seq<Step>)
    returns (k: nat)
    requires IsRun(cfg, Session.Init(senders, inbound, parent), steps)
    requires After(cfg, Session.Init(senders, inbound, parent), steps).life.phase.Closing?
    ensures k < |steps| && steps[k].Close? && forall j :: 0 <= j < k ==> !steps[j].Close?
    ensures var cause := After(cfg, Session.Init(senders, inbound, parent), steps).life.phase.cause;
            match steps[k].closer
            case AfterFunc => ParentEnded(parent, steps[..k], cause)
            case Outside(c) => cause == c && c != SlowConsumer
            case BySender(i) => cause == SlowConsumer && cfg.waits && Send(i, Timeout) in steps[..k]
            case ByWriter => exists batch :: WriterFailed(cfg, steps[..k], batch, cause)
            case ByPump => ReadEnded(steps[..k], cause)
  {
    hide IsRun, After, TxMatches, WriterFailed, ReadEnded, ParentEnded;
    var s0 := Session.Init(senders, inbound, parent);
    k := FirstCallWins(cfg, s0, steps);
    InitMatches(cfg, senders, inbound, parent);
    RunMatches(cfg, parent, [], s0, steps[..k]);
    assert [] + steps[..k] == steps[..k];
    NotYetClosing(cfg, s0, steps[..k]);
  }

  lemma {:induction false} NotYetClosing(cfg: Config, s: State, steps: seq<Step>)
    requires IsRun(cfg, s, steps) && s.life.phase.Open? && forall step <- steps :: !step.Close?
    ensures After(cfg, s, steps).life.phase.Open?
    decreases |steps|
  {
    hide Enabled, Session.Next;
    if steps != [] {
      OnlyCloseBegins(cfg, s, steps[0]);
      NotYetClosing(cfg, Session.Next(cfg, s, steps[0]), steps[1..]);
    }
  }

  lemma CloserHasCause(cfg: Config, s: State, step: Step)
    requires Enabled(cfg, s, step) && step.Close?
    ensures CloserCause(s, step.closer).Some?
  {
  }

  /** With no send timeout, and no parent to bring that cause, nothing on the way to closing is a slow consumer. */
  ghost predicate Patient(cfg: Config, s: State) {
    && (s.tx.writer.WriteFailed? ==> s.tx.writer.cause.Failure?)
    && (s.rx.pump.ReadFailed? ==> s.rx.pump.cause != SlowConsumer)
    && (!cfg.waits ==> forall x <- s.tx.senders :: !x.pc.GivingUp?)
    && (!cfg.waits && s.parent != Some(SlowConsumer) ==>
          s.life.ctx != Some(SlowConsumer) && (s.life.phase.Closing? ==> s.life.phase.cause != SlowConsumer))
  }

  lemma PatientStep(cfg: Config, s: State, step: Step)
    requires Patient(cfg, s) && Enabled(cfg, s, step)
    ensures Patient(cfg, Session.Next(cfg, s, step))
  {
    hide CallsEncodable, Frames;
    var s' := Session.Next(cfg, s, step);
    match step
    case Send(i, _) =>
      assert s.tx.senders[i] in s.tx.senders;
      assert forall x <- s'.tx.senders :: x in s.tx.senders || x == s'.tx.senders[i];
    case Close(closer) =>
      assert closer.BySender? ==> s.tx.senders[closer.i] in s.tx.senders;
    case _ =>
  }

  lemma {:induction false} StaysPatient(cfg: Config, s: State, steps: seq<Step>)
    requires IsRun(cfg, s, steps) && Patient(cfg, s)
    ensures Patient(cfg, After(cfg, s, steps))
    decreases |steps|
  {
    hide Enabled, Session.Next;
    if steps != [] {
      PatientStep(cfg, s, steps[0]);
      hide Patient;
      StaysPatient(cfg, Session.Next(cfg, s, steps[0]), steps[1..]);
    }
  }

  /** A session is closed as a slow consumer only if sends have a timeout, or its parent ended with that cause. */
  lemma SlowConsumerNeedsTimeout(cfg: Config, steps: seq<Step>, s: State)
    requires Reaches(cfg, steps, s) && !cfg.waits && s.parent != Some(SlowConsumer)
    ensures s.life.ctx != Some(SlowConsumer)
    ensures s.life.phase.Closing? ==> s.life.phase.cause != SlowConsumer
  {
    var senders: nat, inbound, parent :|
      var s0 := Session.Init(senders, inbound, parent);
      IsRun(cfg, s0, steps) && s == After(cfg, s0, steps);
    hide IsRun, After;
    StaysPatient(cfg, Session.Init(senders, inbound, parent), steps);
  }

  // ---- Sending ----

  /** Accepted messages that are not yet written: at most a full queue and a full batch. */
  lemma Backlog(cfg: Config, steps: seq<Step>, s: State)
    requires Reaches(cfg, steps, s)
    ensures s.tx.written <= s.tx.accepted
    ensures |s.tx.accepted| - |s.tx.written| <= cfg.queue + 128
  {
    ReachedInv(cfg, steps, s);
  }

  /**
   A finished `SendToClient` call was accepted or reported an error, never both; an accepted
   one carries the payload it was given; a refused message is in no batch and not on the wire;
   a sender's messages keep its order.
   */
  lemma SendOutcome(cfg: Config, steps: seq<Step>, s: State)
    requires Reaches(cfg, steps, s)
    ensures forall i: nat, n: nat | i < |s.tx.senders| && n < s.tx.senders[i].done ::
              ((i, n) in s.tx.refused) != ((i, n) in Ids(s.tx.accepted))
    ensures Ids(s.tx.written + InFlight(s.tx.writer) + s.tx.out) !! s.tx.refused
    ensures InCallOrder(s.tx.accepted)
    ensures forall call <- s.tx.accepted ::
              var given := Given(steps, call.sender);
              call.index < |given| && call.payload == given[call.index]
  {
    hide InCallOrder, WireMatches, Given;
    ReachedInv(cfg, steps, s);
    ReachedMatches(cfg, steps, s);
    forall i: nat, n: nat | i < |s.tx.senders| && n < s.tx.senders[i].done
      ensures ((i, n) in s.tx.refused) != ((i, n) in Ids(s.tx.accepted))
    {
      assert Settled(s.tx.senders, (i, n));
    }
  }

  /** While the context lives, a finished call was accepted exactly when its payload is within the limit. */
  lemma OpenSessionAccepts(cfg: Config, steps: seq<Step>, s: State, i: nat, n: nat)
    requires Reaches(cfg, steps, s) && s.life.ctx.None?
    requires i < |s.tx.senders| && n < s.tx.senders[i].done
    ensures n < |Given(steps, i)|
    ensures (i, n) in Ids(s.tx.accepted) <==> |Given(steps, i)[n]| <= cfg.maxLength
  {
    hide InCallOrder, WireMatches, Given, Reaches;
    SendOutcome(cfg, steps, s);
    ReachedMatches(cfg, steps, s);
    ReachedInv(cfg, steps, s);
    assert SenderMatches(steps, i, s.tx.senders[i]);
    if (i, n) in Ids(s.tx.accepted) {
      var call :| call in s.tx.accepted && Id(call) == (i, n);
      assert CallMatches(steps, call);
    } else {
      assert IsTooLong(cfg, steps, (i, n));
    }
  }

  lemma SaidIsAccepted(cfg: Config, steps: seq<Step>, s: State, n: nat)
    requires Reaches(cfg, steps, s) && n <= |s.tx.accepted|
    ensures Said(steps, s.tx.accepted[..n]) == Payloads(s.tx.accepted[..n])
  {
    hide Reaches, Given;
    ReachedMatches(cfg, steps, s);
    var calls := s.tx.accepted[..n];
    forall k | 0 <= k < n
      ensures Said(steps, calls)[k] == calls[k].payload
    {
      assert calls[k] in s.tx.accepted && CallMatches(steps, calls[k]);
    }
  }

  /** Sender i is not past the check of the context. */
  predicate BeforeCheck(s: State, i: nat) {
    i < |s.tx.senders| && (s.tx.senders[i].pc.Free? || s.tx.senders[i].pc.Checking?)
  }

  lemma NoAcceptStep(cfg: Config, s: State, step: Step, i: nat, n: nat)
    requires s.life.ctx.Some? && BeforeCheck(s, i) && Enabled(cfg, s, step)
    requires (i, n) !in Ids(s.tx.accepted)
    ensures var s' := Session.Next(cfg, s, step);
            && s'.life.ctx.Some? && BeforeCheck(s', i)
            && (i, n) !in Ids(s'.tx.accepted)
  {
    OneStepKeepsCause(cfg, s, step);
    hide CanRead, ReadNext, CallsEncodable, Frames, Ids;
    match step
    case Send(j, send) =>
      var pc := s.tx.senders[j].pc;
      if j != i && (send.QueueSlot? || (send.TryQueue? && |s.tx.out| < cfg.queue)) {
        IdsGrow(s.tx.accepted, Call(j, s.tx.senders[j].done, pc.payload));
      }
    case _ =>
  }

  /** Once the context has ended, no call made from then on is ever accepted. */
  lemma {:induction false} NoSendAfterEnd(cfg: Config, s: State, steps: seq<Step>, i: nat, n: nat)
    requires IsRun(cfg, s, steps) && s.life.ctx.Some? && BeforeCheck(s, i)
    requires (i, n) !in Ids(s.tx.accepted)
    ensures (i, n) !in Ids(After(cfg, s, steps).tx.accepted)
    decreases |steps|
  {
    hide Enabled, Session.Next, Ids;
    if steps != [] {
      NoAcceptStep(cfg, s, steps[0], i, n);
      NoSendAfterEnd(cfg, Session.Next(cfg, s, steps[0]), steps[1..], i, n);
    }
  }

  /** The messages whose frames can be on the wire: all written ones, and the batch in flight if it encodes. */
  function Carried(c: Codec, tx: Tx): seq<Call> {
    tx.written + if CallsEncodable(c, InFlight(tx.writer)) then InFlight(tx.writer) else []
  }

  /** Whatever the interleaving and the batches, the wire is a prefix of the frames of a prefix of the accepted messages. */
  lemma WireIsFramesOfAccepted(cfg: Config, steps: seq<Step>, s: State)
    requires Reaches(cfg, steps, s)
    ensures var carried := Carried(cfg.codec, s.tx);
            && carried <= s.tx.accepted
            && CallsEncodable(cfg.codec, carried)
            && s.tx.wire <= Frames(cfg.codec, carried)
            && CallsEncodable(cfg.codec, s.tx.written)
            && Frames(cfg.codec, s.tx.written) <= s.tx.wire
  {
    hide CallsEncodable, Frames, CallsSettled;
    ReachedInv(cfg, steps, s);
    var w := InFlight(s.tx.writer);
    if CallsEncodable(cfg.codec, w) {
      FramesConcat(cfg.codec, s.tx.written, w);
    } else {
      assert s.tx.written + [] == s.tx.written;
    }
  }

  /** While the context lives neither writer nor pump has quit, and every accepted message is written, in flight or queued. */
  lemma WriterOutlastsContext(cfg: Config, steps: seq<Step>, s: State)
    requires Reaches(cfg, steps, s) && s.life.ctx.None?
    ensures !s.tx.writer.Stopped? && !s.rx.pump.Gone?
    ensures s.tx.accepted == s.tx.written + InFlight(s.tx.writer) + s.tx.out
  {
    hide Reaches, TxMatches, WireMatches, CallsSettled;
    ReachedInv(cfg, steps, s);
    ReachedMatches(cfg, steps, s);
  }

  /** The writer holds a batch with an inexpressible message, or has failed or stopped. */
  predicate Doomed(c: Codec, w: Writer) {
    (w.Filling? && !CallsEncodable(c, w.batch)) || w.WriteFailed? || w.Stopped?
  }

  lemma StillInexpressible(c: Codec, batch: seq<Call>, call: Call)
    requires !CallsEncodable(c, batch)
    ensures !CallsEncodable(c, batch + [call])
  {
    hide Encodable;
    var i :| 0 <= i < |batch| && !Encodable(c, Payloads(batch)[i]);
    assert Payloads(batch + [call])[i] == Payloads(batch)[i];
  }

  lemma DoomedStep(cfg: Config, s: State, step: Step)
    requires Doomed(cfg.codec, s.tx.writer) && Enabled(cfg, s, step)
    ensures var tx' := Session.Next(cfg, s, step).tx;
            Doomed(cfg.codec, tx'.writer) && tx'.wire == s.tx.wire && tx'.written == s.tx.written
  {
    hide CallsEncodable, Frames, CanRead, ReadNext;
    if step.Write? && step.write.Fill? {
      StillInexpressible(cfg.codec, s.tx.writer.batch, s.tx.out[0]);
    }
  }

  /**
   After the writer has failed or stopped nothing more is written; and a batch that
   holds one inexpressible message is lost whole, whatever runs on.
   */
  lemma {:induction false} NothingMoreIsWritten(cfg: Config, s: State, steps: seq<Step>)
    requires IsRun(cfg, s, steps) && Doomed(cfg.codec, s.tx.writer)
    ensures var tx' := After(cfg, s, steps).tx;
            tx'.wire == s.tx.wire && tx'.written == s.tx.written
    decreases |steps|
  {
    hide Enabled, Session.Next, Doomed;
    if steps != [] {
      DoomedStep(cfg, s, steps[0]);
      NothingMoreIsWritten(cfg, Session.Next(cfg, s, steps[0]), steps[1..]);
    }
  }

  lemma {:induction false} RunConcat(cfg: Config, s: State, first: seq<Step>, more: seq<Step>)
    requires IsRun(cfg, s, first) && IsRun(cfg, After(cfg, s, first), more)
    ensures IsRun(cfg, s, first + more)
    ensures After(cfg, s, first + more) == After(cfg, After(cfg, s, first), more)
    decreases |first|
  {
    hide Enabled, Session.Next;
    if first == [] {
      assert first + more == more;
    } else {
      assert (first + more)[1..] == first[1..] + more;
      RunConcat(cfg, Session.Next(cfg, s, first[0]), first[1..], more);
    }
  }

  lemma RunExtend(cfg: Config, s: State, steps: seq<Step>, step: Step)
    requires IsRun(cfg, s, steps) && Enabled(cfg, After(cfg, s, steps), step)
    ensures IsRun(cfg, s, steps + [step])
    ensures After(cfg, s, steps + [step]) == Session.Next(cfg, After(cfg, s, steps), step)
  {
    hide Enabled, Session.Next;
    assert [step][1..] == [];
    RunConcat(cfg, s, steps, [step]);
  }

  /** The length check does not ask the codec: `SendToClient` accepts what the writer then cannot encode. */
  lemma InexpressibleIsAccepted(cfg: Config, payload: Bytes) returns (steps: seq<Step>, s: State)
    requires ValidConfig(cfg) && |payload| <= cfg.maxLength && !Encodable(cfg.codec, payload)
    ensures Reaches(cfg, steps, s)
    ensures s.tx.accepted == [Call(0, 0, payload)] && s.life == FRESH
    ensures s.tx.writer == Filling(s.tx.accepted) && Doomed(cfg.codec, s.tx.writer)
    ensures Enabled(cfg, s, Write(Encode))
  {
    var s0 := Session.Init(1, [], None);
    var call := Call(0, 0, payload);
    hide Encodable, IsRun, After;
    var send := SenderRun(cfg, payload);
    var s1 := After(cfg, s0, send);
    RunExtend(cfg, s0, send, Write(Take));
    steps := send + [Write(Take)];
    s := After(cfg, s0, steps);
    assert Payloads([call])[0] == payload;
  }

  lemma SenderRun(cfg: Config, payload: Bytes) returns (steps: seq<Step>)
    requires ValidConfig(cfg) && |payload| <= cfg.maxLength
    ensures IsRun(cfg, Session.Init(1, [], None), steps)
    ensures var s := After(cfg, Session.Init(1, [], None), steps);
            && s.life == FRESH && s.tx.writer == Selecting
            && s.tx.out == s.tx.accepted == [Call(0, 0, payload)]
  {
    hide IsRun, After;
    var s0 := Session.Init(1, [], None);
    EmptyRun(cfg, s0);
    RunExtend(cfg, s0, [], Send(0, Start(payload)));
    var s1 := s0.(tx := s0.tx.(senders := [Sender(0, Checking(payload))]));
    assert Session.Next(cfg, s0, Send(0, Start(payload))) == s1;
    steps := [] + [Send(0, Start(payload))];
    RunExtend(cfg, s0, steps, Send(0, CheckOpen));
    var s2 := s0.(tx := s0.tx.(senders := [Sender(0, Trying(payload))]));
    assert Session.Next(cfg, s1, Send(0, CheckOpen)) == s2;
    steps := steps + [Send(0, CheckOpen)];
    RunExtend(cfg, s0, steps, Send(0, TryQueue));
    steps := steps + [Send(0, TryQueue)];
  }

  lemma EmptyRun(cfg: Config, s: State)
    ensures IsRun(cfg, s, []) && After(cfg, s, []) == s
  {
  }

  /** The longest payload the format expresses. */
  function Largest(c: Codec): nat {
    match c
    case LegacyCodec(_) => MAX_UINT16
    case UvarintCodec => Prefixed.Pow2(64) - 1
    case Uint32Codec => MAX_UINT32
  }

  /** Whatever the run, the batch about to be encoded can be. */
  ghost predicate EncodeNeverFails(cfg: Config) {
    forall steps, s | Reaches(cfg, steps, s) && Enabled(cfg, s, Write(Encode)) ::
      Session.Next(cfg, s, Write(Encode)).tx.writer.Writing?
  }

  /** Whatever the run, what `SendToClient` has accepted the codec can express. */
  ghost predicate AcceptsOnlyExpressible(cfg: Config) {
    forall steps, s | Reaches(cfg, steps, s) :: CallsEncodable(cfg.codec, s.tx.accepted)
  }

  /** Exactly the configurations whose maximum length the format expresses are safe from that. */
  lemma ExpressibleIff(cfg: Config)
    requires ValidConfig(cfg)
    ensures AcceptsOnlyExpressible(cfg) <==> cfg.maxLength <= Largest(cfg.codec)
    ensures EncodeNeverFails(cfg) <==> cfg.maxLength <= Largest(cfg.codec)
  {
    hide Reaches, CallsEncodable, Enabled, Session.Next, Prefixed.Pow2;
    if cfg.maxLength <= Largest(cfg.codec) {
      forall steps, s | Reaches(cfg, steps, s)
        ensures CallsEncodable(cfg.codec, s.tx.accepted)
        ensures Enabled(cfg, s, Write(Encode)) ==> Session.Next(cfg, s, Write(Encode)).tx.writer.Writing?
      {
        WithinLargest(cfg, steps, s);
      }
    } else {
      var payload: Bytes := seq(Largest(cfg.codec) + 1, _ => 0);
      assert !Encodable(cfg.codec, payload);
      var steps, s := InexpressibleIsAccepted(cfg, payload);
      FirstInexpressible(cfg, s, payload);
    }
  }

  lemma WithinLargest(cfg: Config, steps: seq<Step>, s: State)
    requires Reaches(cfg, steps, s) && cfg.maxLength <= Largest(cfg.codec)
    ensures CallsEncodable(cfg.codec, s.tx.accepted)
    ensures Enabled(cfg, s, Write(Encode)) ==> Session.Next(cfg, s, Write(Encode)).tx.writer.Writing?
  {
    ReachedInv(cfg, steps, s);
    hide Reaches, Prefixed.Pow2, WireMatches;
    var calls := s.tx.accepted;
    assert forall i :: 0 <= i < |calls| ==> calls[i] in calls;
    assert forall c: Call :: c in InFlight(s.tx.writer) ==> c in calls;
    assert forall i :: 0 <= i < |InFlight(s.tx.writer)| ==> InFlight(s.tx.writer)[i] in InFlight(s.tx.writer);
  }

  lemma FirstInexpressible(cfg: Config, s: State, payload: Bytes)
    requires !Encodable(cfg.codec, payload) && s.tx.accepted == [Call(0, 0, payload)]
    requires s.tx.writer == Filling(s.tx.accepted) && Enabled(cfg, s, Write(Encode))
    ensures !CallsEncodable(cfg.codec, s.tx.accepted)
    ensures !Session.Next(cfg, s, Write(Encode)).tx.writer.Writing?
  {
    hide Encodable;
    assert Payloads(s.tx.accepted)[0] == payload;
  }

  // ---- Receiving ----

  /** The Data channel never panics and gives its reader the decoded messages in order, read ahead by at most its capacity. */
  lemma DataChannel(cfg: Config, steps: seq<Step>, s: State)
    requires Reaches(cfg, steps, s)
    ensures !s.rx.panicked
    ensures s.rx.received <= s.rx.sent <= s.rx.inbound
    ensures |s.rx.sent| - |s.rx.received| <= cfg.buffer
    ensures s.rx.data.Made? ==> s.rx.sent == s.rx.received + s.rx.data.items
    ensures s.rx.data.Made? && s.rx.data.closed ==> s.rx.pump.Gone? && s.life.ctx.Some?
  {
    hide TxInv, TxMatches;
    ReachedInv(cfg, steps, s);
    ReachedMatches(cfg, steps, s);
    assert s.rx.inbound[..s.rx.taken] <= s.rx.inbound;
  }

  // ---- End to end ----

  /**
   For any number of senders, any interleaving and any batching: from what is on the
   wire the peer decodes exactly what was passed to the first n accepted calls (Legacy
   drops empty payloads), n being at least the number written; it sees a clean end exactly
   when the wire ends with the n-th frame.
   */
  lemma EndToEnd(cfg: Config, steps: seq<Step>, s: State, peerMax: nat, size: BufferSize, terminal: Error)
    returns (n: nat)
    requires Reaches(cfg, steps, s)
    requires AllFit(cfg.codec, Payloads(Carried(cfg.codec, s.tx)), peerMax)
    ensures |s.tx.written| <= n <= |Carried(cfg.codec, s.tx)| <= |s.tx.accepted|
    ensures InCallOrder(s.tx.accepted[..n]) && CallsEncodable(cfg.codec, s.tx.accepted[..n])
    ensures DecodeAll(cfg.codec, s.tx.wire, peerMax, size, terminal) ==
              (Kept(cfg.codec, Said(steps, s.tx.accepted[..n])),
               if s.tx.wire == Frames(cfg.codec, s.tx.accepted[..n]) then terminal
               else if terminal == EOF then UnexpectedEOF else terminal)
  {
    SendOutcome(cfg, steps, s);
    hide Said, Given, CallsSettled, AllFit, Reaches, DecodeAll, Kept, Encodable, WholeFrames, EncodeAll, Carried;
    WireIsFramesOfAccepted(cfg, steps, s);
    var c := cfg.codec;
    var carried := Carried(c, s.tx);
    var ps := Payloads(carried);
    var k := |s.tx.wire|;
    n := WholeFrames(c, ps, k);
    assert s.tx.wire == EncodeAll(c, ps)[..k];
    Truncation(c, ps, k, peerMax, size, terminal);
    WrittenAreWhole(cfg, steps, s);
    PayloadsTake(carried, s.tx.accepted, n);
    SaidIsAccepted(cfg, steps, s, n);
    EncodeAllPrefix(c, ps, n);
  }

  lemma PayloadsTake(a: seq<Call>, b: seq<Call>, n: nat)
    requires a <= b && n <= |a|
    ensures Payloads(a)[..n] == Payloads(b[..n])
  {
  }

  lemma WrittenAreWhole(cfg: Config, steps: seq<Step>, s: State)
    requires Reaches(cfg, steps, s)
    ensures CallsEncodable(cfg.codec, Carried(cfg.codec, s.tx))
    ensures |s.tx.written| <= WholeFrames(cfg.codec, Payloads(Carried(cfg.codec, s.tx)), |s.tx.wire|)
  {
    hide Encodable, EncodeAll, CallsSettled, Reaches, WholeFrames;
    WireIsFramesOfAccepted(cfg, steps, s);
    var c := cfg.codec;
    var ps := Payloads(Carried(c, s.tx));
    var m := |s.tx.written|;
    assert ps[..m] == Payloads(s.tx.written);
    PrefixIsWhole(c, ps, m, |s.tx.wire|);
  }

  lemma PrefixIsWhole(c: Codec, ps: seq<Bytes>, m: nat, k: nat)
    requires AllEncodable(c, ps) && m <= |ps| && |EncodeAll(c, ps[..m])| <= k
    ensures WholeFrames(c, ps, k) >= m
  {
    hide Encodable, EncodeAll, WholeFrames;
    var n := WholeFrames(c, ps, k);
    WholeFramesIsMost(c, ps, k);
    var n' := if n < m then n + 1 else m;
    EncodeAllPrefix(c, ps[..m], n');
    assert ps[..m][..n'] == ps[..n'];
  }

  /**
   Two sessions back to back: what a reader of `Data` receives at one end is a prefix of the
   (non-empty, for Legacy) payloads passed to the accepted `SendToClient` calls at the other.
   */
  lemma SessionToSession(cfg: Config, steps: seq<Step>, s: State, cfg': Config, steps': seq<Step>, s': State,
                         peerMax: nat, size: BufferSize, terminal: Error)
    requires Reaches(cfg, steps, s) && Reaches(cfg', steps', s')
    requires AllFit(cfg.codec, Payloads(Carried(cfg.codec, s.tx)), peerMax)
    requires s'.rx.inbound == DecodeAll(cfg.codec, s.tx.wire, peerMax, size, terminal).0
    ensures s'.rx.received <= Kept(cfg.codec, Said(steps, s.tx.accepted))
  {
    hide Said, AllFit, Reaches, DecodeAll, Kept, Carried, CallsEncodable;
    var n := EndToEnd(cfg, steps, s, peerMax, size, terminal);
    DataChannel(cfg', steps', s');
    var a := s.tx.accepted;
    KeptConcat(cfg.codec, Payloads(a[..n]), Payloads(a[n..]));
    assert Payloads(a) == Payloads(a[..n]) + Payloads(a[n..]);
    SaidIsAccepted(cfg, steps, s, n);
    SaidIsAccepted(cfg, steps, s, |a|);
    assert a[..|a|] == a;
  }
}
