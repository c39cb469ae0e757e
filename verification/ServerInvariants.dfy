/** What every step of the server keeps. */
module ServerInvariants {
  import opened Bytes
  import opened Lifecycle
  import opened Server

  function Bit(b: bool): nat {
    if b then 1 else 0
  }

  function Count<T>(s: seq<T>, p: T -> bool): nat {
    if s == [] then 0 else Bit(p(s[0])) + Count(s[1..], p)
  }

  lemma {:induction false} CountUpdate<T>(s: seq<T>, p: T -> bool, i: nat, x: T)
    requires i < |s|
    ensures Count(s[i := x], p) + Bit(p(s[i])) == Count(s, p) + Bit(p(x))
  {
    if i > 0 {
      assert s[i := x][1..] == s[1..][i - 1 := x];
      CountUpdate(s[1..], p, i - 1, x);
    } else {
      assert s[i := x][1..] == s[1..];
    }
  }

  lemma {:induction false} CountAppend<T>(s: seq<T>, p: T -> bool, x: T)
    ensures Count(s + [x], p) == Count(s, p) + Bit(p(x))
  {
    if s == [] {
      assert s + [x] == [x] && [x][1..] == [];
    } else {
      assert (s + [x])[1..] == s[1..] + [x];
      CountAppend(s[1..], p, x);
    }
  }

  lemma {:induction false} CountZero<T>(s: seq<T>, p: T -> bool)
    ensures Count(s, p) == 0 <==> forall i :: 0 <= i < |s| ==> !p(s[i])
  {
    if s != [] {
      CountZero(s[1..], p);
      assert forall i :: 0 < i < |s| ==> s[i] == s[1..][i - 1];
      assert (forall i :: 0 <= i < |s| ==> !p(s[i])) <==>
          !p(s[0]) && forall i :: 0 <= i < |s[1..]| ==> !p(s[1..][i]);
    }
  }

  /**
   The counter is the slots held plus the failed attempts still to be undone; the
   slots never exceed the maximum; the wait group counts Serve loops and handlers.
   */
  ghost predicate Counted(cfg: Config, s: State) {
    && s.core.active == Count(s.conns, Holds) + Count(s.conns, IsOver)
    && Count(s.conns, Holds) <= cfg.maxConnections
    && s.core.wg == Count(s.loops, LoopWorks) + Count(s.conns, Works)
  }

  /** The slot has been given back. */
  predicate HasReturnedSlot(c: Conn) {
    c.pc in {Refused, Failed, Abandoned} || (HasSession(c) && c.life.HasReleased())
  }

  ghost predicate ConnSound(cfg: Config, parent: Option<Cause>, c: Conn) {
    && (!HasSession(c) ==> c.life == FRESH && !c.early)
    && Ordered(parent, c.life)
    && (c.pc == Exited ==> c.life.HasClosed())
    && (c.pc == Returning ==> c.life.phase.Closing?)
    && c.released == Bit(HasReturnedSlot(c))
    && (c.pc == Created && c.life.phase.Closing? && cfg.kind != Quic ==> parent.Some?)
    && (c.early ==> c.life.HasUnlisted())
    && (c.early && cfg.kind != Quic ==> parent.Some?)
    && (c.pc == Created && c.life.HasUnlisted() ==> c.early)
  }

  ghost predicate ConnsSound(cfg: Config, s: State) {
    forall i :: 0 <= i < |s.conns| ==>
      s.conns[i].loop < |s.loops| && ConnSound(cfg, s.loops[s.conns[i].loop].ctx, s.conns[i])
  }

  /** Each entry is a registered connection's, under its own address, and a closed one only if it was unlisted early. */
  ghost predicate RegistrySound(s: State) {
    forall a <- s.core.byAddr ::
      var i := s.core.byAddr[a];
      && i < |s.conns|
      && s.conns[i].addr == a
      && HasRegistered(s.conns[i])
      && (s.conns[i].life.HasUnlisted() ==> s.conns[i].early)
  }

  /** Connections in a Serve loop's hands belong to a loop that is serving; one that is done has ended its context. */
  ghost predicate LoopsSound(cfg: Config, s: State) {
    && (forall l <- s.loops :: l.pc == Draining || l.pc == Returned ==> l.ctx.Some?)
    && (forall i :: 0 <= i < |s.conns| && OnLoop(cfg.kind, s.conns[i]) ==>
          s.conns[i].loop < |s.loops| && s.loops[s.conns[i].loop].pc == Serving)
    && OnePerLoop(cfg.kind, s.conns)
  }

  /** A Serve loop has at most one connection in hand. */
  ghost predicate OnePerLoop(kind: Kind, conns: seq<Conn>) {
    forall i, j :: 0 <= i < j < |conns| && OnLoop(kind, conns[i]) && OnLoop(kind, conns[j]) ==>
      conns[i].loop != conns[j].loop
  }

  function Todo(st: Stopper): set<nat> {
    if st.Idle? || st.Finished? then {} else st.todo
  }

  ghost predicate StopperSound(s: State, st: Stopper) {
    && (forall i <- Todo(st) :: i < |s.conns| && HasRegistered(s.conns[i]))
    && (!st.Idle? ==> s.core.stopped)
    && (!st.Idle? && !st.Marked? ==> s.ended.Some?)
    && (st.Finished? ==> s.core.wg == 0)
  }

  ghost predicate StopSound(s: State) {
    forall st <- s.stoppers :: StopperSound(s, st)
  }

  ghost predicate Inv(cfg: Config, s: State) {
    Counted(cfg, s) && ConnsSound(cfg, s) && RegistrySound(s) && LoopsSound(cfg, s) && StopSound(s)
  }

  lemma InitInv(cfg: Config, loops: nat, stoppers: nat)
    ensures Inv(cfg, Server.Init(loops, stoppers))
  {
    CountZero(Server.Init(loops, stoppers).loops, LoopWorks);
  }

  // ---- One connection's step ----

  /** A step moves the counters exactly as it moves the connection between the counted classes. */
  lemma ConnMovesCounters(cfg: Config, core: Core, parent: Option<Cause>, i: nat, c: Conn, step: ConnStep)
    requires CanConn(cfg, parent, c, step)
    ensures var (core', c') := ConnNext(cfg, core, parent, i, c, step);
            && core'.active - core.active == Bit(Holds(c')) + Bit(IsOver(c')) - Bit(Holds(c)) - Bit(IsOver(c))
            && core'.wg - core.wg == Bit(Works(c')) - Bit(Works(c))
            && core'.stopped == core.stopped
            && (Holds(c') && !Holds(c) ==> core'.active <= cfg.maxConnections)
            && (core.stopped ==> core'.wg <= core.wg)
            && c'.loop == c.loop && c'.addr == c.addr
            && (OnLoop(cfg.kind, c') ==> OnLoop(cfg.kind, c))
            && (HasRegistered(c) ==> HasRegistered(c'))
  {
  }

  lemma ConnStaysSound(cfg: Config, core: Core, parent: Option<Cause>, i: nat, c: Conn, step: ConnStep)
    requires CanConn(cfg, parent, c, step) && ConnSound(cfg, parent, c)
    ensures ConnSound(cfg, parent, ConnNext(cfg, core, parent, i, c, step).1)
  {
  }

  lemma ConnKeepsCounted(cfg: Config, s: State, i: nat, step: ConnStep)
    requires Counted(cfg, s) && Enabled(cfg, s, OfConn(i, step))
    ensures Counted(cfg, Server.Next(cfg, s, OfConn(i, step)))
  {
    hide ConnNext, CanConn, Holds, IsOver, Works, Count;
    var c := s.conns[i];
    var parent := s.loops[c.loop].ctx;
    ConnMovesCounters(cfg, s.core, parent, i, c, step);
    var c' := ConnNext(cfg, s.core, parent, i, c, step).1;
    CountUpdate(s.conns, Holds, i, c');
    CountUpdate(s.conns, IsOver, i, c');
    CountUpdate(s.conns, Works, i, c');
  }

  lemma ConnKeepsRegistry(cfg: Config, s: State, i: nat, step: ConnStep)
    requires RegistrySound(s) && ConnsSound(cfg, s) && Enabled(cfg, s, OfConn(i, step))
    ensures RegistrySound(Server.Next(cfg, s, OfConn(i, step)))
  {
    var c := s.conns[i];
    var parent := s.loops[c.loop].ctx;
    ConnMovesRegistry(cfg, s.core, parent, i, c, step);
    hide ConnNext, CanConn, HasRegistered, ConnSound;
  }

  /** Only its own registration and unlisting change a connection's entry, and only the entry under its address. */
  lemma ConnMovesRegistry(cfg: Config, core: Core, parent: Option<Cause>, i: nat, c: Conn, step: ConnStep)
    requires CanConn(cfg, parent, c, step) && ConnSound(cfg, parent, c)
    ensures var (core', c') := ConnNext(cfg, core, parent, i, c, step);
            && c'.addr == c.addr
            && (HasRegistered(c) ==> HasRegistered(c'))
            && (if step.Register? then
                  && core'.byAddr == core.byAddr[c.addr := i] && HasRegistered(c')
                  && (c'.life.HasUnlisted() ==> c'.early)
                else if step.CloseLine? && c.life.Is(Began) then
                  core'.byAddr == core.Unlist(c.addr, i).byAddr
                else
                  core'.byAddr == core.byAddr
                  && (HasRegistered(c) && c'.life.HasUnlisted() ==> c.life.HasUnlisted() && c'.early == c.early))
  {
  }

  lemma ConnKeeps(cfg: Config, s: State, i: nat, step: ConnStep)
    requires Inv(cfg, s) && Enabled(cfg, s, OfConn(i, step))
    ensures Inv(cfg, Server.Next(cfg, s, OfConn(i, step)))
  {
    ConnKeepsCounted(cfg, s, i, step);
    ConnKeepsRegistry(cfg, s, i, step);
    hide Counted, RegistrySound, ConnSound, ConnNext, CanConn, OnLoop;
    var c := s.conns[i];
    var parent := s.loops[c.loop].ctx;
    ConnStaysSound(cfg, s.core, parent, i, c, step);
    ConnMovesCounters(cfg, s.core, parent, i, c, step);
    var s' := Server.Next(cfg, s, OfConn(i, step));
    assert forall j :: 0 <= j < |s.conns| && j != i ==> s'.conns[j] == s.conns[j];
    WorkingIsCounted(cfg, s);
    WorkingIsCounted(cfg, s');
    forall st <- s'.stoppers
      ensures StopperSound(s', st)
    {
      assert StopperSound(s, st);
    }
  }

  lemma WorkingIsCounted(cfg: Config, s: State)
    requires Counted(cfg, s)
    ensures s.core.wg >= 0
  {
  }

  // ---- Serve loops and StopListener ----

  lemma LoopKeepsCounted(cfg: Config, s: State, l: nat, step: LoopStep)
    requires Counted(cfg, s) && CanLoop(cfg, s, l, step)
    ensures Counted(cfg, LoopNext(cfg, s, l, step))
  {
    hide Count;
    var s' := LoopNext(cfg, s, l, step);
    match step
    case Accept(addr) =>
      var c := Conn(l, addr, Arrived, FRESH, false, 0);
      CountAppend(s.conns, Holds, c);
      CountAppend(s.conns, IsOver, c);
      CountAppend(s.conns, Works, c);
    case _ =>
      CountUpdate(s.loops, LoopWorks, l, s'.loops[l]);
  }

  /** A Serve loop's context, once ended, keeps its cause, so sessions stay in order with it. */
  lemma LoopKeepsConns(cfg: Config, s: State, l: nat, step: LoopStep)
    requires ConnsSound(cfg, s) && CanLoop(cfg, s, l, step)
    ensures ConnsSound(cfg, LoopNext(cfg, s, l, step))
  {
    hide LoopFree;
    var s' := LoopNext(cfg, s, l, step);
    assert forall j :: 0 <= j < |s.loops| && s.loops[j].ctx.Some? ==> s'.loops[j].ctx == s.loops[j].ctx;
    forall i | 0 <= i < |s'.conns|
      ensures s'.conns[i].loop < |s'.loops| && ConnSound(cfg, s'.loops[s'.conns[i].loop].ctx, s'.conns[i])
    {
      if i < |s.conns| {
        LaterParent(cfg, s.loops[s.conns[i].loop].ctx, s'.loops[s.conns[i].loop].ctx, s.conns[i]);
      }
    }
  }

  lemma LaterParent(cfg: Config, parent: Option<Cause>, parent': Option<Cause>, c: Conn)
    requires ConnSound(cfg, parent, c) && (parent.Some? ==> parent' == parent)
    ensures ConnSound(cfg, parent', c)
  {
  }

  lemma LoopKeepsRest(cfg: Config, s: State, l: nat, step: LoopStep)
    requires RegistrySound(s) && LoopsSound(cfg, s) && StopSound(s) && CanLoop(cfg, s, l, step)
    requires s.core.wg >= 0 && LoopNext(cfg, s, l, step).core.wg >= 0
    ensures var s' := LoopNext(cfg, s, l, step);
            RegistrySound(s') && LoopsSound(cfg, s') && StopSound(s')
  {
    var s' := LoopNext(cfg, s, l, step);
    assert RegistrySound(s');
    assert LoopsSound(cfg, s');
    assert s.core.stopped ==> s'.core.stopped && s'.core.wg <= s.core.wg;
    forall st <- s'.stoppers
      ensures StopperSound(s', st)
    {
      assert StopperSound(s, st);
    }
  }

  lemma LoopKeeps(cfg: Config, s: State, l: nat, step: LoopStep)
    requires Inv(cfg, s) && CanLoop(cfg, s, l, step)
    ensures Inv(cfg, LoopNext(cfg, s, l, step))
  {
    hide Counted, ConnsSound, RegistrySound, LoopsSound, StopSound, CanLoop, LoopNext;
    LoopKeepsCounted(cfg, s, l, step);
    LoopKeepsConns(cfg, s, l, step);
    WorkingIsCounted(cfg, s);
    WorkingIsCounted(cfg, LoopNext(cfg, s, l, step));
    LoopKeepsRest(cfg, s, l, step);
  }

  /** A session that `stop` begins to close is registered, so it still counts and still has its place. */
  lemma BeginStopKeeps(cfg: Config, s: State, i: nat)
    requires Counted(cfg, s) && ConnsSound(cfg, s) && RegistrySound(s) && LoopsSound(cfg, s)
    requires i < |s.conns| && HasRegistered(s.conns[i])
    ensures var s' := s.(conns := s.conns[i := s.conns[i].(life := s.conns[i].life.Begin(ServerStopped))]);
            Counted(cfg, s') && ConnsSound(cfg, s') && RegistrySound(s') && LoopsSound(cfg, s')
  {
    hide Count, CanConn;
    var c := s.conns[i];
    var c' := c.(life := c.life.Begin(ServerStopped));
    SameClass(cfg, s.loops[c.loop].ctx, c, c');
    CountUpdate(s.conns, Holds, i, c');
    CountUpdate(s.conns, IsOver, i, c');
    CountUpdate(s.conns, Works, i, c');
    hide Holds, IsOver, Works, ConnSound, OnLoop;
  }

  lemma SameClass(cfg: Config, parent: Option<Cause>, c: Conn, c': Conn)
    requires HasRegistered(c) && c' == c.(life := c.life.Begin(ServerStopped)) && ConnSound(cfg, parent, c)
    ensures ConnSound(cfg, parent, c') && Holds(c') == Holds(c) && IsOver(c') == IsOver(c) && Works(c') == Works(c)
    ensures c'.life.HasUnlisted() == c.life.HasUnlisted() && OnLoop(cfg.kind, c') == OnLoop(cfg.kind, c)
  {
  }

  lemma StopKeepsConns(cfg: Config, s: State, k: nat, step: StopStep)
    requires Counted(cfg, s) && ConnsSound(cfg, s) && RegistrySound(s) && LoopsSound(cfg, s)
    requires CanStop(s, k, step)
    requires step.CloseSession? && step.i < |s.conns| ==> HasRegistered(s.conns[step.i])
    ensures var s' := StopNext(s, k, step);
            Counted(cfg, s') && ConnsSound(cfg, s') && RegistrySound(s') && LoopsSound(cfg, s')
  {
    if step.CloseSession? {
      hide Counted, ConnsSound, RegistrySound, LoopsSound;
      BeginStopKeeps(cfg, s, step.i);
    } else {
      hide Count, Holds, IsOver, Works, LoopWorks, ConnSound, HasRegistered, OnLoop;
    }
  }

  lemma StopKeepsStoppers(s: State, k: nat, step: StopStep)
    requires StopSound(s) && RegistrySound(s) && CanStop(s, k, step)
    ensures StopSound(StopNext(s, k, step))
  {
    var s' := StopNext(s, k, step);
    assert StopperSound(s, s.stoppers[k]);
    assert s'.core.wg == s.core.wg;
    assert forall i :: 0 <= i < |s.conns| ==> HasRegistered(s'.conns[i]) == HasRegistered(s.conns[i]);
    if step.Mark? {
      forall i <- s.core.byAddr.Values
        ensures i < |s.conns| && HasRegistered(s.conns[i])
      {
        var a :| a in s.core.byAddr && s.core.byAddr[a] == i;
      }
    }
    forall st <- s'.stoppers
      ensures StopperSound(s', st)
    {
      assert st == s'.stoppers[k] || StopperSound(s, st);
    }
  }

  lemma StopKeeps(cfg: Config, s: State, k: nat, step: StopStep)
    requires Inv(cfg, s) && CanStop(s, k, step)
    ensures Inv(cfg, StopNext(s, k, step))
  {
    if step.CloseSession? {
      assert StopperSound(s, s.stoppers[k]);
      assert step.i in Todo(s.stoppers[k]);
    }
    hide Counted, ConnsSound, RegistrySound, LoopsSound, StopNext, HasRegistered;
    StopKeepsConns(cfg, s, k, step);
    StopKeepsStoppers(s, k, step);
  }

  lemma StepKeeps(cfg: Config, s: State, step: Step)
    requires Inv(cfg, s) && Enabled(cfg, s, step)
    ensures Inv(cfg, Server.Next(cfg, s, step))
  {
    match step
    case ServerEnds(_) => EndKeeps(cfg, s, Server.Next(cfg, s, step));
    case OfLoop(l, loop) =>
      hide Inv, CanLoop, LoopNext;
      LoopKeeps(cfg, s, l, loop);
    case OfConn(i, conn) =>
      hide Inv, Enabled, Server.Next;
      ConnKeeps(cfg, s, i, conn);
    case OfStopper(k, stop) =>
      hide Inv, CanStop, StopNext;
      StopKeeps(cfg, s, k, stop);
  }

  lemma EndKeeps(cfg: Config, s: State, s': State)
    requires Inv(cfg, s) && s' == s.(ended := s'.ended) && s'.ended.Some?
    ensures Inv(cfg, s')
  {
    hide Count, ConnSound, Holds, IsOver, Works, LoopWorks;
    forall st <- s'.stoppers
      ensures StopperSound(s', st)
    {
      assert StopperSound(s, st);
    }
  }

  lemma {:induction false} RunKeeps(cfg: Config, s: State, steps: seq<Step>)
    requires Inv(cfg, s) && IsRun(cfg, s, steps)
    ensures Inv(cfg, After(cfg, s, steps))
    decreases |steps|
  {
    hide Inv, Enabled, Server.Next;
    if steps != [] {
      StepKeeps(cfg, s, steps[0]);
      RunKeeps(cfg, Server.Next(cfg, s, steps[0]), steps[1..]);
    }
  }
}
