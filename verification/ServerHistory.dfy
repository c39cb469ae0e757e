/** Why the server's contexts end and its sessions close, told by the steps of the run. */
module ServerHistory {
  import opened Bytes
  import opened Lifecycle
  import opened Server
  import opened ServerInvariants

  /** The cause with which this step closes session i, if it does: a returned handler, `stop` or somebody's call. */
  function ClosesWith(step: Step, i: nat): Option<Cause> {
    match step
    case OfConn(j, HandlerReturns) => if j == i then Some(SessionClosed) else None
    case OfConn(j, Close(cause)) => if j == i then Some(cause) else None
    case OfStopper(_, CloseSession(j)) => if j == i then Some(ServerStopped) else None
    case _ => None
  }

  lemma ClosingStep(cfg: Config, s: State, step: Step, i: nat)
    requires Enabled(cfg, s, step) && i < |s.conns| && HasSession(s.conns[i])
    ensures var s' := Server.Next(cfg, s, step);
            && i < |s'.conns| && HasSession(s'.conns[i])
            && var was, now := s.conns[i].life.phase, s'.conns[i].life.phase;
               && (was.Closing? ==> now.Closing? && now.cause == was.cause)
               && (was.Open? ==> now == match ClosesWith(step, i)
                                        case None => Open
                                        case Some(cause) => Closing(cause, Began))
  {
    hide LoopFree;
  }

  lemma {:induction false} StaysClosing(cfg: Config, s: State, steps: seq<Step>, i: nat)
    requires IsRun(cfg, s, steps) && i < |s.conns| && HasSession(s.conns[i]) && s.conns[i].life.phase.Closing?
    ensures i < |After(cfg, s, steps).conns|
    ensures var now := After(cfg, s, steps).conns[i].life.phase;
            now.Closing? && now.cause == s.conns[i].life.phase.cause
    decreases |steps|
  {
    hide Enabled, Server.Next, ClosesWith;
    if steps != [] {
      ClosingStep(cfg, s, steps[0], i);
      StaysClosing(cfg, Server.Next(cfg, s, steps[0]), steps[1..], i);
    }
  }

  /** An open session that is closing at the end of a run has the cause of the first step that closed it. */
  lemma {:induction false} FirstCloserWins(cfg: Config, s: State, steps: seq<Step>, i: nat) returns (k: Option<nat>)
    requires IsRun(cfg, s, steps) && i < |s.conns| && HasSession(s.conns[i]) && s.conns[i].life.phase.Open?
    ensures i < |After(cfg, s, steps).conns|
    ensures var now := After(cfg, s, steps).conns[i].life.phase;
            match k
            case None => now.Open? && forall j :: 0 <= j < |steps| ==> ClosesWith(steps[j], i).None?
            case Some(k) =>
              && k < |steps| && now.Closing? && ClosesWith(steps[k], i) == Some(now.cause)
              && forall j :: 0 <= j < k ==> ClosesWith(steps[j], i).None?
    decreases |steps|
  {
    hide Enabled, Server.Next, ClosesWith;
    if steps == [] { return None; }
    ClosingStep(cfg, s, steps[0], i);
    var s1 := Server.Next(cfg, s, steps[0]);
    if ClosesWith(steps[0], i).Some? {
      StaysClosing(cfg, s1, steps[1..], i);
      return Some(0);
    }
    var k' := FirstCloserWins(cfg, s1, steps[1..], i);
    k := if k'.None? then None else Some(k'.value + 1);
    assert forall j :: 0 < j < |steps| ==> steps[j] == steps[1..][j - 1];
  }

  /** Serve's own context ended, Serve returned, or the server's context ended and that got through. */
  ghost predicate CtxEnded(steps: seq<Step>, s: State, l: nat, cause: Cause) {
    || OfLoop(l, CtxEnds(cause)) in steps
    || (cause == Canceled && OfLoop(l, LoopLeave) in steps)
    || (s.ended == Some(cause) && OfLoop(l, CtxReaches) in steps)
  }

  ghost predicate Stopped(steps: seq<Step>) {
    exists k :: OfStopper(k, Cancel) in steps
  }

  ghost predicate ContextsMatch(steps: seq<Step>, s: State) {
    && (forall l :: 0 <= l < |s.loops| && s.loops[l].ctx.Some? ==> CtxEnded(steps, s, l, s.loops[l].ctx.value))
    && (s.ended.Some? ==> ServerEnds(s.ended.value) in steps || (s.ended == Some(ServerStopped) && Stopped(steps)))
  }

  lemma ContextStep(cfg: Config, steps: seq<Step>, s: State, step: Step)
    requires ContextsMatch(steps, s) && Enabled(cfg, s, step)
    ensures ContextsMatch(steps + [step], Server.Next(cfg, s, step))
  {
    hide LoopFree, CanConn, ConnNext;
    assert step in steps + [step];
    assert forall x <- steps :: x in steps + [step];
  }

  lemma {:induction false} RunMatches(cfg: Config, before: seq<Step>, s: State, steps: seq<Step>)
    requires ContextsMatch(before, s) && IsRun(cfg, s, steps)
    ensures ContextsMatch(before + steps, After(cfg, s, steps))
    decreases |steps|
  {
    hide ContextsMatch, Enabled, Server.Next;
    if steps == [] {
      assert before + steps == before;
    } else {
      ContextStep(cfg, before, s, steps[0]);
      RunMatches(cfg, before + [steps[0]], Server.Next(cfg, s, steps[0]), steps[1..]);
      assert before + [steps[0]] + steps[1..] == before + steps;
    }
  }

  /**
   Over any run: a Serve context has the cause of its own end, `Canceled` after Serve has returned or the
   server's cause; the server's is `ServerStopped` or that of the context it was given; and a session's
   is its Serve context's or the one it was closed with.
   */
  lemma ContextCauses(cfg: Config, loops: nat, stoppers: nat, steps: seq<Step>)
    requires IsRun(cfg, Server.Init(loops, stoppers), steps)
    ensures var s := After(cfg, Server.Init(loops, stoppers), steps);
            && ContextsMatch(steps, s)
            && forall c <- s.conns :: c.life.ctx.Some? ==>
                 || (c.loop < |s.loops| && c.life.ctx == s.loops[c.loop].ctx)
                 || (c.life.HasClosed() && c.life.ctx == Some(c.life.phase.cause))
  {
    hide IsRun, After, ContextsMatch;
    var s0 := Server.Init(loops, stoppers);
    NoContextYet(loops, stoppers);
    RunMatches(cfg, [], s0, steps);
    assert [] + steps == steps;
    InitInv(cfg, loops, stoppers);
    RunKeeps(cfg, s0, steps);
  }

  lemma NoContextYet(loops: nat, stoppers: nat)
    ensures ContextsMatch([], Server.Init(loops, stoppers))
  {
  }
}
