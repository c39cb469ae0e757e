/** What holds of every run of a server, and the runs that break the unconditional comments. */
module ServerTheorems {
  import opened Bytes
  import opened Lifecycle
  import opened Server
  import opened ServerInvariants

  /** Reached from a fresh server with any number of Serve and StopListener calls to come. */
  ghost predicate Reaches(cfg: Config, s: State) {
    exists loops: nat, stoppers: nat, steps ::
      IsRun(cfg, Server.Init(loops, stoppers), steps) && s == After(cfg, Server.Init(loops, stoppers), steps)
  }

  lemma ReachedInv(cfg: Config, s: State)
    requires Reaches(cfg, s)
    ensures Inv(cfg, s)
  {
    hide Inv, IsRun, After, Server.Init;
    var loops: nat, stoppers: nat, steps :|
      IsRun(cfg, Server.Init(loops, stoppers), steps) && s == After(cfg, Server.Init(loops, stoppers), steps);
    InitInv(cfg, loops, stoppers);
    RunKeeps(cfg, Server.Init(loops, stoppers), steps);
  }

  lemma {:induction false} RunConcat(cfg: Config, s: State, first: seq<Step>, more: seq<Step>)
    requires IsRun(cfg, s, first) && IsRun(cfg, After(cfg, s, first), more)
    ensures IsRun(cfg, s, first + more)
    ensures After(cfg, s, first + more) == After(cfg, After(cfg, s, first), more)
    decreases |first|
  {
    hide Enabled, Server.Next;
    if first == [] {
      assert first + more == more;
    } else {
      assert (first + more)[1..] == first[1..] + more;
      RunConcat(cfg, Server.Next(cfg, s, first[0]), first[1..], more);
    }
  }

  lemma RunExtend(cfg: Config, s: State, steps: seq<Step>, step: Step)
    requires IsRun(cfg, s, steps) && Enabled(cfg, After(cfg, s, steps), step)
    ensures IsRun(cfg, s, steps + [step])
    ensures After(cfg, s, steps + [step]) == Server.Next(cfg, After(cfg, s, steps), step)
  {
    hide Enabled, Server.Next;
    assert [step][1..] == [];
    RunConcat(cfg, s, steps, [step]);
  }

  lemma ReachInit(cfg: Config, loops: nat, stoppers: nat)
    ensures Reaches(cfg, Server.Init(loops, stoppers))
  {
    hide Server.Init;
    assert IsRun(cfg, Server.Init(loops, stoppers), []);
    assert After(cfg, Server.Init(loops, stoppers), []) == Server.Init(loops, stoppers);
  }

  lemma ReachStep(cfg: Config, s: State, step: Step)
    requires Reaches(cfg, s) && Enabled(cfg, s, step)
    ensures Reaches(cfg, Server.Next(cfg, s, step))
  {
    hide Enabled, Server.Next, Server.Init, IsRun, After;
    var loops: nat, stoppers: nat, steps :|
      IsRun(cfg, Server.Init(loops, stoppers), steps) && s == After(cfg, Server.Init(loops, stoppers), steps);
    RunExtend(cfg, Server.Init(loops, stoppers), steps, step);
  }

  // ---- Admission ----

  /**
   In every interleaving the slots held never exceed the maximum, the counter is
   the slots held plus the failed attempts not yet undone, and each slot is given
   back at most once, exactly once by the time its connection is finished.
   */
  lemma Admission(cfg: Config, s: State)
    requires Reaches(cfg, s)
    ensures Count(s.conns, Holds) <= cfg.maxConnections
    ensures s.core.active == Count(s.conns, Holds) + Count(s.conns, IsOver)
    ensures s.core.wg >= 0
    ensures forall c <- s.conns :: c.released <= 1 && (c.released == 1 <==> HasReturnedSlot(c))
    ensures forall c <- s.conns :: c.released == 1 ==> !Holds(c)
    ensures forall c <- s.conns :: c.pc in {Refused, Abandoned, Exited} ==> c.released == 1
    ensures forall c <- s.conns :: c.pc in {Arrived, Over, Rejected} ==> c.released == 0
  {
    hide Count;
    ReachedInv(cfg, s);
    forall c <- s.conns
      ensures ConnSound(cfg, s.loops[c.loop].ctx, c)
    {
    }
  }

  function LoopsOver(conns: seq<Conn>): set<nat> {
    set i | 0 <= i < |conns| && IsOver(conns[i]) :: conns[i].loop
  }

  lemma LoopsOverSplit(conns: seq<Conn>)
    requires conns != []
    ensures LoopsOver(conns) == (if IsOver(conns[0]) then {conns[0].loop} else {}) + LoopsOver(conns[1..])
  {
    var rest := conns[1..];
    forall l | l in LoopsOver(rest)
      ensures l in LoopsOver(conns)
    {
      var i :| 0 <= i < |rest| && IsOver(rest[i]) && rest[i].loop == l;
      assert rest[i] == conns[i + 1];
    }
    forall l | l in LoopsOver(conns)
      ensures (IsOver(conns[0]) && l == conns[0].loop) || l in LoopsOver(rest)
    {
      var i :| 0 <= i < |conns| && IsOver(conns[i]) && conns[i].loop == l;
      assert i > 0 ==> rest[i - 1] == conns[i];
    }
  }

  lemma FirstLoopIsNew(kind: Kind, conns: seq<Conn>)
    requires kind != WebSocket && conns != [] && OnePerLoop(kind, conns)
    ensures IsOver(conns[0]) ==> conns[0].loop !in LoopsOver(conns[1..])
    ensures OnePerLoop(kind, conns[1..])
  {
    assert forall i :: 0 <= i < |conns[1..]| ==> conns[1..][i] == conns[i + 1];
  }

  lemma {:induction false} OneOverPerLoop(kind: Kind, conns: seq<Conn>)
    requires kind != WebSocket && OnePerLoop(kind, conns)
    ensures Count(conns, IsOver) == |LoopsOver(conns)|
  {
    if conns != [] {
      FirstLoopIsNew(kind, conns);
      LoopsOverSplit(conns);
      hide OnePerLoop, LoopsOver, IsOver;
      OneOverPerLoop(kind, conns[1..]);
    }
  }

  lemma {:induction false} SmallSet(s: set<nat>, n: nat)
    requires forall x <- s :: x < n
    ensures |s| <= n
  {
    if n == 0 {
      assert s == {};
    } else {
      SmallSet(s - {n - 1}, n - 1);
      assert s <= (s - {n - 1}) + {n - 1};
    }
  }

  /** Outside WebSocket the counter overshoots by at most one attempt for each Serve call. */
  lemma OvershootIsBounded(cfg: Config, s: State)
    requires Reaches(cfg, s) && cfg.kind != WebSocket
    ensures s.core.active <= cfg.maxConnections + |s.loops|
  {
    hide Count, Reaches, ConnsSound, RegistrySound, StopSound;
    ReachedInv(cfg, s);
    OneOverPerLoop(cfg.kind, s.conns);
    SmallSet(LoopsOver(s.conns), |s.loops|);
  }

  /** A server with one running Serve loop and the given connections. */
  function Running(core: Core, conns: seq<Conn>): State {
    State(core, None, [Loop(Serving, None)], conns, [])
  }

  lemma ServeStarts(cfg: Config)
    ensures Reaches(cfg, Running(Core(map[], 0, false, 1), []))
  {
    hide Reaches;
    var s := Server.Init(1, 0);
    ReachInit(cfg, 1, 0);
    ReachStep(cfg, s, OfLoop(0, LoopEnter));
    assert Server.Next(cfg, s, OfLoop(0, LoopEnter)) == Running(Core(map[], 0, false, 1), []);
  }

  lemma ConnArrives(cfg: Config, core: Core, conns: seq<Conn>, addr: string)
    requires Reaches(cfg, Running(core, conns)) && (cfg.kind == WebSocket || conns == [])
    ensures Reaches(cfg, Running(core, conns + [Conn(0, addr, Arrived, FRESH, false, 0)]))
  {
    hide Reaches;
    ReachStep(cfg, Running(core, conns), OfLoop(0, Accept(addr)));
  }

  lemma ConnTakes(cfg: Config, core: Core, conns: seq<Conn>, i: nat, step: ConnStep) returns (core': Core, c: Conn)
    requires Reaches(cfg, Running(core, conns)) && i < |conns|
    requires conns[i].loop == 0 && CanConn(cfg, None, conns[i], step)
    ensures (core', c) == ConnNext(cfg, core, None, i, conns[i], step)
    ensures Reaches(cfg, Running(core', conns[i := c]))
  {
    hide Reaches, CanConn, ConnNext;
    ReachStep(cfg, Running(core, conns), OfConn(i, step));
    var (core1, c1) := ConnNext(cfg, core, None, i, conns[i], step);
    core', c := core1, c1;
  }

  lemma OnlyConnTakes(cfg: Config, core: Core, c: Conn, step: ConnStep) returns (core': Core, c': Conn)
    requires Reaches(cfg, Running(core, [c])) && c.loop == 0 && CanConn(cfg, None, c, step)
    ensures (core', c') == ConnNext(cfg, core, None, 0, c, step)
    ensures Reaches(cfg, Running(core', [c']))
  {
    hide Reaches, CanConn, ConnNext;
    core', c' := ConnTakes(cfg, core, [c], 0, step);
    assert [c][0 := c'] == [c'];
  }

  /** The counter itself may overshoot: two WebSocket upgrades at once on a server with one slot. */
  lemma CounterOvershoots() returns (s: State)
    ensures Reaches(Config(WebSocket, 1), s)
    ensures s.core.active > 1 && Count(s.conns, Holds) <= 1
  {
    hide Reaches, Count;
    var cfg := Config(WebSocket, 1);
    ServeStarts(cfg);
    var core := Core(map[], 0, false, 1);
    ConnArrives(cfg, core, [], "a");
    var a, b := Conn(0, "a", Arrived, FRESH, false, 0), Conn(0, "b", Arrived, FRESH, false, 0);
    assert [] + [a] == [a] && [a] + [b] == [a, b];
    ConnArrives(cfg, core, [a], "b");
    var core1, a1 := ConnTakes(cfg, core, [a, b], 0, AdmitAdd);
    assert [a, b][0 := a1] == [a1, b];
    var core2, b1 := ConnTakes(cfg, core1, [a1, b], 1, AdmitAdd);
    assert [a1, b][1 := b1] == [a1, b1];
    core, a, b := core2, a1, b1;
    s := Running(core, [a, b]);
    Admission(cfg, s);
  }

  // ---- Closing and the registry ----

  /**
   A session whose context is done while its parent's is not has been unlisted, has
   given its slot back and has closed its transport; whoever it is, it is in the
   registry only if `remove` ran before `add`.
   */
  lemma CloseOrdering(cfg: Config, s: State, i: nat)
    requires Reaches(cfg, s) && i < |s.conns| && s.conns[i].loop < |s.loops|
    requires s.conns[i].life.ctx.Some? && s.loops[s.conns[i].loop].ctx.None?
    ensures s.conns[i].life.HasUnlisted() && s.conns[i].released == 1 && s.conns[i].life.HasShut()
    ensures i in s.core.byAddr.Values ==> s.conns[i].early && cfg.kind == Quic
  {
    hide Count;
    ReachedInv(cfg, s);
    assert ConnSound(cfg, s.loops[s.conns[i].loop].ctx, s.conns[i]);
    if i in s.core.byAddr.Values {
      var a :| a in s.core.byAddr && s.core.byAddr[a] == i;
    }
  }

  /** A listed session is open, or its `remove` ran before its `add`: for TCP, UDP and WebSocket because Serve's context had ended. */
  lemma ListedIsOpen(cfg: Config, s: State, addr: string)
    requires Reaches(cfg, s) && addr in s.core.byAddr
    ensures s.core.byAddr[addr] < |s.conns|
    ensures var c := s.conns[s.core.byAddr[addr]];
            && c.addr == addr
            && HasRegistered(c)
            && c.loop < |s.loops|
            && (c.life.HasUnlisted() <==> c.early)
            && (c.early && cfg.kind != Quic ==> s.loops[c.loop].ctx.Some?)
  {
    hide Count;
    ReachedInv(cfg, s);
    var i := s.core.byAddr[addr];
    assert ConnSound(cfg, s.loops[s.conns[i].loop].ctx, s.conns[i]);
  }

  /** `remove` never takes another session's entry: an entry goes only by its own session's unlisting or a new `add` on its address. */
  lemma OnlyOwnRemoval(cfg: Config, s: State, step: Step, addr: string)
    requires Reaches(cfg, s) && Enabled(cfg, s, step) && addr in s.core.byAddr
    requires var j := s.core.byAddr[addr];
             && !(step == OfConn(j, CloseLine) && s.conns[j].life.Is(Began))
             && !(step.OfConn? && step.conn.Register? && s.conns[step.i].addr == addr)
    ensures var s' := Server.Next(cfg, s, step);
            addr in s'.core.byAddr && s'.core.byAddr[addr] == s.core.byAddr[addr]
  {
    if step.OfConn? {
      ConnIsSound(cfg, s, step.i);
      ConnMovesRegistry(cfg, s.core, s.loops[s.conns[step.i].loop].ctx, step.i, s.conns[step.i], step.conn);
      hide ConnNext, CanConn, ConnSound, Reaches, HasRegistered;
    } else {
      hide Reaches, LoopFree;
    }
  }

  lemma ConnIsSound(cfg: Config, s: State, i: nat)
    requires Reaches(cfg, s) && i < |s.conns|
    ensures s.conns[i].loop < |s.loops| && ConnSound(cfg, s.loops[s.conns[i].loop].ctx, s.conns[i])
  {
    hide Reaches, ConnSound, Counted, RegistrySound, LoopsSound, StopSound;
    ReachedInv(cfg, s);
  }

  /**
   The QUIC run in which `remove` goes first: the connection dies between the watch
   being armed and `add`. The session is closed and still listed, on a running server.
   */
  lemma StaleEntry() returns (s: State)
    ensures Reaches(Config(Quic, 1), s)
    ensures s.core.byAddr == map["a" := 0] && |s.conns| == 1 && |s.loops| == 1
    ensures s.conns[0].life.HasClosed() && s.conns[0].released == 1
    ensures s.ended.None? && s.loops[0] == Loop(Serving, None)
  {
    hide Reaches;
    var cfg := Config(Quic, 1);
    var core, c := RemoveBeforeAdd();
    core, c := OnlyConnTakes(cfg, core, c, Register);
    core, c := OnlyConnTakes(cfg, core, c, CloseLine);
    assert c == Conn(0, "a", Handling, Life(None, Closing(SessionClosed, Released)), true, 1);
    core, c := OnlyConnTakes(cfg, core, c, CloseLine);
    core, c := OnlyConnTakes(cfg, core, c, CloseLine);
    s := Running(core, [c]);
  }

  /** The entry of a session whose `remove` has already run. */
  predicate Stale(s: State, addr: string, j: nat) {
    j < |s.conns| && Listed(s, addr, j) && s.conns[j].life.HasUnlisted()
  }

  predicate Listed(s: State, addr: string, j: nat) {
    addr in s.core.byAddr && s.core.byAddr[addr] == j
  }

  predicate Registers(s: State, step: Step, addr: string) {
    step.OfConn? && step.conn.Register? && step.i < |s.conns| && s.conns[step.i].addr == addr
  }

  predicate NoneRegisters(cfg: Config, s: State, steps: seq<Step>, addr: string)
    requires IsRun(cfg, s, steps)
    decreases |steps|
  {
    steps == [] ||
    (!Registers(s, steps[0], addr) && NoneRegisters(cfg, Server.Next(cfg, s, steps[0]), steps[1..], addr))
  }

  /** A registered session does not register again, and one whose `remove` has run does not run it again. */
  lemma StaleStep(cfg: Config, s: State, step: Step, addr: string, j: nat)
    requires Reaches(cfg, s) && Enabled(cfg, s, step)
    requires j < |s.conns| && HasRegistered(s.conns[j]) && s.conns[j].life.HasUnlisted()
    ensures var s' := Server.Next(cfg, s, step);
            && j < |s'.conns| && HasRegistered(s'.conns[j]) && s'.conns[j].life.HasUnlisted()
            && (Listed(s', addr, j) <==> Listed(s, addr, j) && !Registers(s, step, addr))
  {
    if step.OfConn? {
      var i := step.i;
      ConnIsSound(cfg, s, i);
      var parent := s.loops[s.conns[i].loop].ctx;
      ConnMovesRegistry(cfg, s.core, parent, i, s.conns[i], step.conn);
      RegisteredStays(cfg, s.core, parent, i, s.conns[i], step.conn);
      hide ConnNext, CanConn, ConnSound, Reaches, HasRegistered;
    } else {
      hide Reaches, LoopFree;
    }
  }

  lemma RegisteredStays(cfg: Config, core: Core, parent: Option<Cause>, i: nat, c: Conn, step: ConnStep)
    requires CanConn(cfg, parent, c, step)
    ensures var c' := ConnNext(cfg, core, parent, i, c, step).1;
            HasRegistered(c) ==>
              && !step.Register? && HasRegistered(c')
              && (c.life.HasUnlisted() ==> c'.life.HasUnlisted())
  {
  }

  lemma {:induction false} GoneForGood(cfg: Config, s: State, steps: seq<Step>, addr: string, j: nat)
    requires Reaches(cfg, s) && IsRun(cfg, s, steps)
    requires j < |s.conns| && HasRegistered(s.conns[j]) && s.conns[j].life.HasUnlisted() && !Listed(s, addr, j)
    ensures !Listed(After(cfg, s, steps), addr, j)
    decreases |steps|
  {
    hide Enabled, Server.Next, Reaches, Listed, HasRegistered;
    if steps != [] {
      StaleStep(cfg, s, steps[0], addr, j);
      ReachStep(cfg, s, steps[0]);
      GoneForGood(cfg, Server.Next(cfg, s, steps[0]), steps[1..], addr, j);
    }
  }

  /** A stale entry outlasts a run exactly when no session registers on its address. */
  lemma {:induction false} StaleUntilReplaced(cfg: Config, s: State, steps: seq<Step>, addr: string, j: nat)
    requires Reaches(cfg, s) && IsRun(cfg, s, steps) && Stale(s, addr, j)
    ensures Stale(After(cfg, s, steps), addr, j) <==> NoneRegisters(cfg, s, steps, addr)
    decreases |steps|
  {
    ListedIsOpen(cfg, s, addr);
    hide Enabled, Server.Next, Reaches, Registers, HasRegistered;
    if steps != [] {
      var s1 := Server.Next(cfg, s, steps[0]);
      StaleStep(cfg, s, steps[0], addr, j);
      ReachStep(cfg, s, steps[0]);
      if Registers(s, steps[0], addr) {
        GoneForGood(cfg, s1, steps[1..], addr, j);
      } else {
        StaleUntilReplaced(cfg, s1, steps[1..], addr, j);
      }
    }
  }

  lemma QuicSessionCreated() returns (core: Core, c: Conn)
    ensures Reaches(Config(Quic, 1), Running(core, [c]))
    ensures core == Core(map[], 1, false, 2) && c == Conn(0, "a", Created, FRESH, false, 0)
  {
    hide Reaches, Running;
    var cfg := Config(Quic, 1);
    core, c := Core(map[], 0, false, 1), Conn(0, "a", Arrived, FRESH, false, 0);
    ServeStarts(cfg);
    ConnArrives(cfg, core, [], "a");
    assert [] + [c] == [c];
    core, c := OnlyConnTakes(cfg, core, c, AdmitAdd);
    assert core == Core(map[], 1, false, 1) && c == Conn(0, "a", Admitted, FRESH, false, 0);
    core, c := OnlyConnTakes(cfg, core, c, Enter);
    core, c := OnlyConnTakes(cfg, core, c, Create);
  }

  lemma RemoveBeforeAdd() returns (core: Core, c: Conn)
    ensures Reaches(Config(Quic, 1), Running(core, [c]))
    ensures core == Core(map[], 1, false, 2)
    ensures c == Conn(0, "a", Created, Life(None, Closing(SessionClosed, Unlisted)), true, 0)
  {
    hide Reaches, Running;
    var cfg := Config(Quic, 1);
    core, c := QuicSessionCreated();
    core, c := OnlyConnTakes(cfg, core, c, Close(SessionClosed));
    core, c := OnlyConnTakes(cfg, core, c, CloseLine);
  }

  // ---- Shutdown ----

  /** An admission attempt whose increment is not undone, outside the wait group. */
  predicate Attempting(c: Conn) {
    c.pc in {Over, Admitted, Refusing}
  }

  /**
   Nothing registered through `enter` runs: no Serve loop, no handler. Every session
   is closed and has given back its slot once. The counter is 0, except for
   WebSocket upgrades still being turned away.
   */
  ghost predicate Quiet(cfg: Config, s: State) {
    && (forall l <- s.loops :: !LoopWorks(l) && (l.pc == Returned ==> l.ctx.Some?))
    && (forall c <- s.conns :: !Works(c))
    && (forall c <- s.conns :: HasSession(c) ==> c.pc == Exited && c.life.HasClosed() && c.released == 1)
    && s.core.active == Count(s.conns, Attempting)
    && (cfg.kind != WebSocket ==> s.core.active == 0)
  }

  lemma {:induction false} HoldersAreAttempts(conns: seq<Conn>)
    requires forall c <- conns :: Holds(c) || IsOver(c) <==> Attempting(c)
    ensures Count(conns, Holds) + Count(conns, IsOver) == Count(conns, Attempting)
  {
    if conns != [] {
      assert conns[0] in conns;
      HoldersAreAttempts(conns[1..]);
    }
  }

  /** When `stop` has returned, the server is quiet and lists no session but stale ones. */
  lemma Shutdown(cfg: Config, s: State, k: nat)
    requires Reaches(cfg, s) && k < |s.stoppers| && s.stoppers[k].Finished?
    ensures Quiet(cfg, s)
    ensures forall addr <- s.core.byAddr ::
              Stale(s, addr, s.core.byAddr[addr]) && s.conns[s.core.byAddr[addr]].early
  {
    hide Count;
    ReachedInv(cfg, s);
    assert StopperSound(s, s.stoppers[k]);
    CountZero(s.loops, LoopWorks);
    CountZero(s.conns, Works);
    forall c <- s.conns
      ensures ConnSound(cfg, s.loops[c.loop].ctx, c) && !Works(c)
      ensures Holds(c) || IsOver(c) <==> Attempting(c)
    {
    }
    HoldersAreAttempts(s.conns);
    if cfg.kind != WebSocket {
      CountZero(s.conns, Attempting);
    }
    forall addr <- s.core.byAddr
      ensures Stale(s, addr, s.core.byAddr[addr]) && s.conns[s.core.byAddr[addr]].early
    {
      ListedIsOpen(cfg, s, addr);
      assert s.conns[s.core.byAddr[addr]] in s.conns;
    }
  }

  lemma StoppedStep(cfg: Config, s: State, step: Step)
    requires Enabled(cfg, s, step) && s.core.stopped
    ensures var s' := Server.Next(cfg, s, step);
            && s'.core.stopped
            && |s'.stoppers| == |s.stoppers|
            && (forall k :: 0 <= k < |s.stoppers| && s.stoppers[k].Finished? ==> s'.stoppers[k].Finished?)
            && |s'.conns| >= |s.conns|
            && forall i :: 0 <= i < |s'.conns| && HasEntered(s'.conns[i]) ==> i < |s.conns| && HasEntered(s.conns[i])
  {
    hide LoopFree;
  }

  /** And it stays quiet: whatever runs on, no handler and no Serve loop ever starts again. */
  lemma {:induction false} ShutdownIsFinal(cfg: Config, s: State, k: nat, steps: seq<Step>)
    requires Reaches(cfg, s) && k < |s.stoppers| && s.stoppers[k].Finished? && IsRun(cfg, s, steps)
    ensures var s' := After(cfg, s, steps);
            && Quiet(cfg, s')
            && forall i :: 0 <= i < |s'.conns| && HasEntered(s'.conns[i]) ==> i < |s.conns| && HasEntered(s.conns[i])
    decreases |steps|
  {
    hide Quiet, Enabled, Server.Next, Reaches, HasEntered;
    if steps == [] {
      Shutdown(cfg, s, k);
    } else {
      ReachStep(cfg, s, steps[0]);
      StoppedFlag(cfg, s, k);
      StoppedStep(cfg, s, steps[0]);
      ShutdownIsFinal(cfg, Server.Next(cfg, s, steps[0]), k, steps[1..]);
    }
  }

  lemma StoppedFlag(cfg: Config, s: State, k: nat)
    requires Reaches(cfg, s) && k < |s.stoppers| && s.stoppers[k].Finished?
    ensures s.core.stopped
  {
    ReachedInv(cfg, s);
    assert StopperSound(s, s.stoppers[k]);
  }

  /** Session i is closed, or still on stopper k's list. */
  ghost predicate Owed(s: State, k: nat, i: nat) {
    && i < |s.conns| && k < |s.stoppers|
    && (s.conns[i].life.HasClosed() || i in Todo(s.stoppers[k]))
  }

  lemma OwedStep(cfg: Config, s: State, step: Step, k: nat, i: nat)
    requires Owed(s, k, i) && Enabled(cfg, s, step) && !s.stoppers[k].Idle?
    requires HasSession(s.conns[i])
    ensures var s' := Server.Next(cfg, s, step);
            Owed(s', k, i) && !s'.stoppers[k].Idle? && HasSession(s'.conns[i])
  {
    hide LoopFree;
  }

  /** However the run goes on, when the stopper's list is empty every session listed at its `Mark` has been closed. */
  lemma {:induction false} SnapshotIsClosed(cfg: Config, s: State, steps: seq<Step>, k: nat, i: nat)
    requires IsRun(cfg, s, steps) && Owed(s, k, i) && !s.stoppers[k].Idle? && HasSession(s.conns[i])
    ensures var s' := After(cfg, s, steps);
            && Owed(s', k, i)
            && (Todo(s'.stoppers[k]) == {} ==> s'.conns[i].life.HasClosed())
    decreases |steps|
  {
    hide Enabled, Server.Next, HasSession;
    if steps != [] {
      OwedStep(cfg, s, steps[0], k, i);
      SnapshotIsClosed(cfg, Server.Next(cfg, s, steps[0]), steps[1..], k, i);
    }
  }

  lemma MarkOwesListed(cfg: Config, s: State, k: nat, addr: string)
    requires Reaches(cfg, s) && Enabled(cfg, s, OfStopper(k, Mark)) && addr in s.core.byAddr
    ensures var s' := Server.Next(cfg, s, OfStopper(k, Mark));
            var i := s.core.byAddr[addr];
            s'.core.stopped && Owed(s', k, i) && !s'.stoppers[k].Idle? && HasSession(s'.conns[i])
  {
    ListedIsOpen(cfg, s, addr);
  }
}
