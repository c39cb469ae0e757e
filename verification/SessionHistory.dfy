/** What a session's state owes to the steps that led to it. */
module SessionHistory {
  import opened Bytes
  import opened Lifecycle
  import opened Streams
  import opened Session
  import opened SessionInvariants

  /** The payloads sender i has passed to `SendToClient`, call by call. */
  function Given(steps: seq<Step>, i: nat): seq<Bytes> {
    if steps == [] then []
    else Given(steps[..|steps| - 1], i) + GivenBy(steps[|steps| - 1], i)
  }

  function GivenBy(step: Step, i: nat): seq<Bytes> {
    if step.Send? && step.i == i && step.send.Start? then [step.send.payload] else []
  }

  /** What was passed to these calls. */
  function Said(steps: seq<Step>, calls: seq<Call>): (ps: seq<Bytes>)
    ensures |ps| == |calls|
  {
    seq(|calls|, k requires 0 <= k < |calls| =>
      var given := Given(steps, calls[k].sender);
      if calls[k].index < |given| then given[calls[k].index] else [])
  }

  lemma GivenMore(steps: seq<Step>, step: Step, i: nat)
    ensures Given(steps + [step], i) == Given(steps, i) + GivenBy(step, i)
  {
    assert (steps + [step])[..|steps|] == steps;
  }

  /** A sender inside a call holds what it passed to that call; it has made as many as it finished. */
  ghost predicate SenderMatches(steps: seq<Step>, i: nat, x: Sender) {
    var given := Given(steps, i);
    if x.pc.Free? then |given| == x.done
    else |given| == x.done + 1 && given[x.done] == x.pc.payload
  }

  ghost predicate CallMatches(steps: seq<Step>, call: Call) {
    var given := Given(steps, call.sender);
    call.index < |given| && given[call.index] == call.payload
  }

  ghost predicate IsTooLong(cfg: Config, steps: seq<Step>, id: (nat, nat)) {
    var given := Given(steps, id.0);
    id.1 < |given| && |given[id.1]| > cfg.maxLength
  }

  /** As long as the context has not ended nothing but its length has refused a message. */
  ghost predicate TxMatches(cfg: Config, steps: seq<Step>, s: State) {
    && (forall i :: 0 <= i < |s.tx.senders| ==> SenderMatches(steps, i, s.tx.senders[i]))
    && (forall call <- s.tx.accepted :: CallMatches(steps, call))
    && (s.life.ctx.None? ==> forall id <- s.tx.refused :: IsTooLong(cfg, steps, id))
    && (s.life.HasClosed() ==> s.life.ctx.Some?)
  }

  /** Why a thread is on its way to closing the session; `parent` is the cause its parent had ended with at the start. */
  ghost predicate CausesMatch(cfg: Config, parent: Option<Cause>, steps: seq<Step>, s: State) {
    && (forall i :: 0 <= i < |s.tx.senders| && s.tx.senders[i].pc.GivingUp? ==>
          cfg.waits && Send(i, Timeout) in steps)
    && (s.tx.writer.WriteFailed? ==> WriterFailed(cfg, steps, s.tx.writer.batch, s.tx.writer.cause))
    && (s.rx.pump.ReadFailed? ==> ReadEnded(steps, s.rx.pump.cause))
    && (s.parent.Some? ==> ParentEnded(parent, steps, s.parent.value))
    && (s.life.phase.Open? && s.life.ctx.Some? ==> s.life.ctx == s.parent)
  }

  ghost predicate ParentEnded(parent: Option<Cause>, steps: seq<Step>, cause: Cause) {
    parent == Some(cause) || ParentEnds(cause) in steps
  }

  /** The batch could not be encoded, or the transport reported the error. */
  ghost predicate WriterFailed(cfg: Config, steps: seq<Step>, batch: seq<Call>, cause: Cause) {
    || (cause == Failure(FrameTooLarge) && Write(Encode) in steps && !CallsEncodable(cfg.codec, batch))
    || exists e :: cause == Failure(e) && Write(Fail(e)) in steps
  }

  /** The client going away is an ordinary close, any other read error a failure. */
  ghost predicate ReadEnded(steps: seq<Step>, cause: Cause) {
    exists e :: Read(FailRead(e)) in steps &&
      cause == if e == EOF || e == ConnClosed then SessionClosed else Failure(e)
  }

  /** The writer stops and Data closes only when the context has ended. */
  ghost predicate NoneQuitsEarly(s: State) {
    && (s.life.HasClosed() ==> s.life.ctx.Some?)
    && (s.tx.writer.Stopped? || s.rx.pump.Leaving? || s.rx.pump.Gone? ==> s.life.ctx.Some?)
  }

  lemma QuitsStep(cfg: Config, s: State, step: Step)
    requires NoneQuitsEarly(s) && Enabled(cfg, s, step)
    ensures NoneQuitsEarly(Session.Next(cfg, s, step))
  {
    hide CallsEncodable, Frames;
    match step {
      case Send(_, _) => hide CanSend, CanWrite, WriteNext, CanRead, ReadNext;
      case _ => hide CanSend, SendNext;
    }
  }

  ghost predicate Matches(cfg: Config, parent: Option<Cause>, steps: seq<Step>, s: State) {
    TxMatches(cfg, steps, s) && CausesMatch(cfg, parent, steps, s) && NoneQuitsEarly(s)
  }

  lemma InitMatches(cfg: Config, senders: nat, inbound: seq<Bytes>, parent: Option<Cause>)
    ensures Matches(cfg, parent, [], Session.Init(senders, inbound, parent))
  {
  }

  /** Steps that start no call leave all that was given as it was. */
  lemma NoStart(cfg: Config, steps: seq<Step>, s: State, step: Step)
    requires TxMatches(cfg, steps, s) && !(step.Send? && step.send.Start?)
    ensures TxMatches(cfg, steps + [step], s)
  {
    forall i: nat
      ensures Given(steps + [step], i) == Given(steps, i)
    {
      GivenMore(steps, step, i);
    }
  }

  lemma GivenGrows(cfg: Config, steps: seq<Step>, step: Step)
    ensures forall call :: CallMatches(steps, call) ==> CallMatches(steps + [step], call)
    ensures forall id :: IsTooLong(cfg, steps, id) ==> IsTooLong(cfg, steps + [step], id)
  {
    forall i: nat
      ensures Given(steps, i) <= Given(steps + [step], i)
    {
      GivenMore(steps, step, i);
    }
    hide Given;
  }

  lemma StartMatches(cfg: Config, steps: seq<Step>, s: State, i: nat, payload: Bytes)
    requires TxMatches(cfg, steps, s) && Enabled(cfg, s, Send(i, Start(payload)))
    ensures TxMatches(cfg, steps + [Send(i, Start(payload))], Session.Next(cfg, s, Send(i, Start(payload))))
  {
    hide CallMatches, CloserCause;
    var step := Send(i, Start(payload));
    GivenGrows(cfg, steps, step);
    assert SenderMatches(steps, i, s.tx.senders[i]);
    forall j: nat
      ensures Given(steps + [step], j) == if j == i then Given(steps, j) + [payload] else Given(steps, j)
    {
      GivenMore(steps, step, j);
    }
    hide Given;
  }

  /** The rest of a call: the message queued is the one the sender holds, and only an ended context refuses it. */
  lemma CallGoesOn(cfg: Config, steps: seq<Step>, s: State, i: nat, send: SendStep)
    requires TxMatches(cfg, steps, s) && Enabled(cfg, s, Send(i, send)) && !send.Start?
    ensures TxMatches(cfg, steps, Session.Next(cfg, s, Send(i, send)))
  {
    hide Given, IsTooLong;
    assert SenderMatches(steps, i, s.tx.senders[i]);
  }

  lemma OtherSteps(cfg: Config, steps: seq<Step>, s: State, step: Step)
    requires TxMatches(cfg, steps, s) && Enabled(cfg, s, step) && !step.Send?
    ensures TxMatches(cfg, steps, Session.Next(cfg, s, step))
  {
    hide SenderMatches, CallMatches, IsTooLong, CanRead, ReadNext, CallsEncodable, Frames;
  }

  lemma CausesLast(cfg: Config, parent: Option<Cause>, steps: seq<Step>, s: State, step: Step)
    requires CausesMatch(cfg, parent, steps, s)
    ensures CausesMatch(cfg, parent, steps + [step], s)
  {
    assert forall x <- steps :: x in steps + [step];
  }

  lemma CausesStep(cfg: Config, parent: Option<Cause>, steps: seq<Step>, s: State, step: Step)
    requires CausesMatch(cfg, parent, steps, s) && Enabled(cfg, s, step)
    ensures CausesMatch(cfg, parent, steps + [step], Session.Next(cfg, s, step))
  {
    CausesLast(cfg, parent, steps, s, step);
    CausesNow(cfg, parent, steps + [step], s, step);
  }

  lemma CausesNow(cfg: Config, parent: Option<Cause>, steps: seq<Step>, s: State, step: Step)
    requires CausesMatch(cfg, parent, steps, s) && Enabled(cfg, s, step) && step in steps
    ensures CausesMatch(cfg, parent, steps, Session.Next(cfg, s, step))
  {
    hide CallsEncodable, Frames;
    match step {
      case Send(_, _) => hide CanWrite, WriteNext, CanRead, ReadNext, CloserCause, WriterFailed, ReadEnded;
      case Write(_) => hide CanSend, SendNext, CanRead, ReadNext, CloserCause, ReadEnded;
      case Read(_) => hide CanSend, SendNext, CanWrite, WriteNext, CloserCause, WriterFailed;
      case _ => hide CanSend, SendNext, CanWrite, WriteNext, CanRead, ReadNext, WriterFailed, ReadEnded;
    }
  }

  lemma {:induction false} RunMatches(cfg: Config, parent: Option<Cause>, before: seq<Step>, s: State, steps: seq<Step>)
    requires Matches(cfg, parent, before, s) && IsRun(cfg, s, steps)
    ensures Matches(cfg, parent, before + steps, After(cfg, s, steps))
    decreases |steps|
  {
    hide TxMatches, CausesMatch, NoneQuitsEarly, Enabled, Session.Next;
    if steps == [] {
      assert before + steps == before;
    } else {
      var step, s1 := steps[0], Session.Next(cfg, s, steps[0]);
      CausesStep(cfg, parent, before, s, step);
      QuitsStep(cfg, s, step);
      if step.Send? && step.send.Start? {
        StartMatches(cfg, before, s, step.i, step.send.payload);
      } else {
        if step.Send? { CallGoesOn(cfg, before, s, step.i, step.send); } else { OtherSteps(cfg, before, s, step); }
        NoStart(cfg, before, s1, step);
      }
      RunMatches(cfg, parent, before + [step], s1, steps[1..]);
      assert before + [step] + steps[1..] == before + steps;
    }
  }
}
