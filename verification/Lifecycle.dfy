/**
 How one session closes: `closeWith` runs its body once, and each line of that
 body is a step of its own. The session's context can also end because its
 parent's did.
 */
module Lifecycle {
  import opened Bytes

  datatype Cause =
    | SessionClosed
    | SlowConsumer
    | ServerStopped
    | DeadlineExceeded
    | Canceled
    | Failure(error: Error)

  /** What has been done of closeWith's body: the callback is `remove` (unlist, then release). */
  datatype Stage = Began | Unlisted | Released | Shut | Done

  datatype Phase = Open | Closing(cause: Cause, stage: Stage)

  datatype Life = Life(ctx: Option<Cause>, phase: Phase) {

    predicate Is(stage: Stage) {
      phase.Closing? && phase.stage == stage
    }

    predicate HasUnlisted() {
      phase.Closing? && phase.stage != Began
    }

    predicate HasReleased() {
      phase.Closing? && phase.stage != Began && phase.stage != Unlisted
    }

    predicate HasShut() {
      Is(Shut) || Is(Done)
    }

    predicate HasClosed() {
      Is(Done)
    }

    /** The parent's cancellation reaches this context; a context that has ended keeps its cause. */
    function Propagate(parent: Cause): Life {
      if ctx.None? then this.(ctx := Some(parent)) else this
    }

    /** closeOnce: only the first call's cause counts. */
    function Begin(cause: Cause): Life {
      if phase.Open? then this.(phase := Closing(cause, Began)) else this
    }

    /** The next line of closeWith's body; the last one cancels the context. */
    function Advance(): Life
      requires phase.Closing? && phase.stage != Done
    {
      match phase.stage
      case Began => this.(phase := phase.(stage := Unlisted))
      case Unlisted => this.(phase := phase.(stage := Released))
      case Released => this.(phase := phase.(stage := Shut))
      case Shut => this.(phase := phase.(stage := Done), ctx := if ctx.None? then Some(phase.cause) else ctx)
    }
  }

  const FRESH: Life := Life(None, Open)

  /** closeWith's body from its first line to its last. */
  function CloseAll(life: Life, cause: Cause): Life {
    if life.phase.Open? then life.Begin(cause).Advance().Advance().Advance().Advance() else life
  }

  /** What closing once leaves: the first cause, and a context that had already ended keeps its own. */
  lemma CloseAllOnce(life: Life, cause: Cause, later: Cause)
    requires life.phase.Closing? ==> life.HasClosed()
    ensures CloseAll(life, cause).HasClosed()
    ensures life.phase.Open? ==> CloseAll(life, cause).ctx == Some(if life.ctx.Some? then life.ctx.value else cause)
    ensures CloseAll(CloseAll(life, cause), later) == CloseAll(life, cause)
  {
  }

  /** The context ends with the parent's cause or at the last step of closing, with that call's cause. */
  predicate Ordered(parent: Option<Cause>, l: Life) {
    && (l.ctx.Some? ==> l.ctx == parent || (l.HasClosed() && l.ctx == Some(l.phase.cause)))
    && (l.HasClosed() ==> l.ctx.Some?)
  }
}
