/** The server object: its methods, each proved against the functions the machine's steps use. */
module ServerCode {
  import opened Bytes
  import opened Lifecycle
  import S = Server
  import T = ServerTheorems
  import opened ServerInvariants

  class Server {
    const kind: S.Kind
    const maxConnections: nat
    var byAddr: map<string, nat>
    var active: int
    var stopped: bool
    var wg: int

    constructor (kind: S.Kind, maxConnections: nat)
      ensures Core() == S.Core(map[], 0, false, 0)
      ensures this.kind == kind && this.maxConnections == maxConnections
    {
      this.kind, this.maxConnections := kind, maxConnections;
      byAddr, active, stopped, wg := map[], 0, false, 0;
    }

    ghost function Core(): S.Core
      reads this
    {
      S.Core(byAddr, active, stopped, wg)
    }

    method Enter() returns (ok: bool)
      modifies this
      ensures ok == !old(stopped) && Core() == old(Core()).Enter()
    {
      if stopped {
        return false;
      }
      wg := wg + 1;
      ok := true;
    }

    method WgDone()
      modifies this
      ensures Core() == old(Core()).Done()
    {
      wg := wg - 1;
    }

    /** Run alone: a full server is left as it was. */
    method TryAdmit() returns (ok: bool)
      modifies this
      ensures ok <==> old(active) < maxConnections
      ensures Core() == if ok then old(Core()).AddActive(1) else old(Core())
    {
      active := active + 1;
      if active > maxConnections {
        active := active - 1;
        return false;
      }
      ok := true;
    }

    method Release()
      modifies this
      ensures Core() == old(Core()).AddActive(-1)
    {
      active := active - 1;
    }

    method Add(addr: string, i: nat)
      modifies this
      ensures Core() == old(Core()).List(addr, i)
    {
      byAddr := byAddr[addr := i];
    }

    /** Every session's close callback. */
    method Remove(addr: string, i: nat)
      modifies this
      ensures Core() == old(Core()).Unlist(addr, i).AddActive(-1)
    {
      if addr in byAddr && byAddr[addr] == i {
        byAddr := byAddr - {addr};
      }
      Release();
    }

    /** The lock region of `stop`: the flag and the snapshot. */
    method MarkStopped() returns (sessions: set<nat>)
      modifies this
      ensures Core() == old(Core()).(stopped := true) && sessions == old(byAddr).Values
    {
      stopped := true;
      sessions := byAddr.Values;
    }

    /**
     A connection from accept to its handler, on its own: `opens` tells whether its
     stream or upgrade succeeds. Whatever way it fails, the slot and the wait-group
     place go back; only a listed session keeps both.
     */
    method Accept(addr: string, i: nat, opens: bool) returns (pc: S.ConnPc)
      requires !opens ==> kind == S.Quic || kind == S.WebSocket
      modifies this
      ensures pc == if old(active) >= maxConnections then S.Rejected
                    else if old(stopped) then S.Refused
                    else if !opens then S.Abandoned
                    else S.Handling
      ensures Core() == S.Core(if pc == S.Handling then old(byAddr)[addr := i] else old(byAddr),
                               old(active) + Bit(pc == S.Handling),
                               old(stopped),
                               old(wg) + Bit(pc == S.Handling))
    {
      var admitted := TryAdmit();
      if !admitted {
        return S.Rejected;
      }
      var entered := Enter();
      if !entered {
        Release();
        return S.Refused;
      }
      if !opens {
        Release();
        WgDone();
        return S.Abandoned;
      }
      Add(addr, i);
      pc := S.Handling;
    }
  }

  /** The steps the machine takes for the same connection when nothing else runs. */
  function Path(cfg: S.Config, core: S.Core, opens: bool): seq<S.ConnStep> {
    if core.active >= cfg.maxConnections then [S.AdmitAdd, S.AdmitUndo]
    else if core.stopped then [S.AdmitAdd, S.Enter, S.RefuseRelease]
    else if !opens then [S.AdmitAdd, S.Enter, S.SetupFails, S.FailRelease, S.FailDone]
    else [S.AdmitAdd, S.Enter, S.Create, S.Register]
  }

  /** One connection's steps in a row. */
  predicate CanTake(cfg: S.Config, parent: Option<Cause>, core: S.Core, i: nat, c: S.Conn, steps: seq<S.ConnStep>)
    decreases |steps|
  {
    steps == [] ||
    (S.CanConn(cfg, parent, c, steps[0]) &&
     var (core', c') := S.ConnNext(cfg, core, parent, i, c, steps[0]);
     CanTake(cfg, parent, core', i, c', steps[1..]))
  }

  function Taken(cfg: S.Config, parent: Option<Cause>, core: S.Core, i: nat, c: S.Conn, steps: seq<S.ConnStep>): (S.Core, S.Conn)
    requires CanTake(cfg, parent, core, i, c, steps)
    decreases |steps|
  {
    if steps == [] then (core, c)
    else
      var (core', c') := S.ConnNext(cfg, core, parent, i, c, steps[0]);
      Taken(cfg, parent, core', i, c', steps[1..])
  }

  lemma TakeFirst(cfg: S.Config, parent: Option<Cause>, core: S.Core, i: nat, c: S.Conn, step: S.ConnStep, rest: seq<S.ConnStep>)
    requires S.CanConn(cfg, parent, c, step)
    requires var (core', c') := S.ConnNext(cfg, core, parent, i, c, step); CanTake(cfg, parent, core', i, c', rest)
    ensures CanTake(cfg, parent, core, i, c, [step] + rest)
    ensures var (core', c') := S.ConnNext(cfg, core, parent, i, c, step);
            Taken(cfg, parent, core, i, c, [step] + rest) == Taken(cfg, parent, core', i, c', rest)
  {
    hide S.CanConn, S.ConnNext;
    assert ([step] + rest)[1..] == rest;
  }

  function OfConn(i: nat, steps: seq<S.ConnStep>): (r: seq<S.Step>)
    ensures |r| == |steps|
  {
    seq(|steps|, k requires 0 <= k < |steps| => S.OfConn(i, steps[k]))
  }

  /** One connection's steps are a run of the whole machine. */
  lemma {:induction false} PathIsRun(cfg: S.Config, s: S.State, i: nat, steps: seq<S.ConnStep>)
    requires i < |s.conns| && s.conns[i].loop < |s.loops|
    requires CanTake(cfg, s.loops[s.conns[i].loop].ctx, s.core, i, s.conns[i], steps)
    ensures S.IsRun(cfg, s, OfConn(i, steps))
    ensures var (core, c) := Taken(cfg, s.loops[s.conns[i].loop].ctx, s.core, i, s.conns[i], steps);
            S.After(cfg, s, OfConn(i, steps)) == s.(core := core, conns := s.conns[i := c])
    decreases |steps|
  {
    if steps == [] {
      assert s.conns[i := s.conns[i]] == s.conns;
    } else {
      var s1 := S.Next(cfg, s, S.OfConn(i, steps[0]));
      StepKeepsLoop(cfg, s, i, steps[0]);
      hide S.CanConn, S.ConnNext;
      PathIsRun(cfg, s1, i, steps[1..]);
      assert OfConn(i, steps)[1..] == OfConn(i, steps[1..]);
      var c := Taken(cfg, s.loops[s.conns[i].loop].ctx, s.core, i, s.conns[i], steps).1;
      assert s1.conns[i := c] == s.conns[i := c];
    }
  }

  lemma StepKeepsLoop(cfg: S.Config, s: S.State, i: nat, step: S.ConnStep)
    requires S.Enabled(cfg, s, S.OfConn(i, step))
    ensures var s1 := S.Next(cfg, s, S.OfConn(i, step));
            i < |s1.conns| && s1.conns[i].loop == s.conns[i].loop
  {
  }

  /** `Accept` is that path of the machine: same outcome, same shared fields. */
  lemma AcceptIsPath(cfg: S.Config, parent: Option<Cause>, core: S.Core, i: nat, loop: nat, addr: string, opens: bool)
    requires !opens ==> cfg.kind == S.Quic || cfg.kind == S.WebSocket
    ensures var c := S.Conn(loop, addr, S.Arrived, FRESH, false, 0);
            var steps := Path(cfg, core, opens);
            && CanTake(cfg, parent, core, i, c, steps)
            && var (core', c') := Taken(cfg, parent, core, i, c, steps);
               && c'.pc == (if core.active >= cfg.maxConnections then S.Rejected
                            else if core.stopped then S.Refused
                            else if !opens then S.Abandoned
                            else S.Handling)
               && core' == S.Core(if c'.pc == S.Handling then core.byAddr[addr := i] else core.byAddr,
                                  core.active + Bit(c'.pc == S.Handling),
                                  core.stopped,
                                  core.wg + Bit(c'.pc == S.Handling))
  {
    var c := S.Conn(loop, addr, S.Arrived, FRESH, false, 0);
    var (core1, c1) := S.ConnNext(cfg, core, parent, i, c, S.AdmitAdd);
    if core.active >= cfg.maxConnections {
      TakeLast(cfg, parent, core1, i, c1, S.AdmitUndo);
      TakeFirst(cfg, parent, core, i, c, S.AdmitAdd, [S.AdmitUndo]);
    } else {
      AdmittedPath(cfg, parent, core1, i, c1, opens);
      TakeFirst(cfg, parent, core, i, c, S.AdmitAdd, Path(cfg, core, opens)[1..]);
      assert [S.AdmitAdd] + Path(cfg, core, opens)[1..] == Path(cfg, core, opens);
    }
  }

  lemma TakeLast(cfg: S.Config, parent: Option<Cause>, core: S.Core, i: nat, c: S.Conn, step: S.ConnStep)
    requires S.CanConn(cfg, parent, c, step)
    ensures CanTake(cfg, parent, core, i, c, [step])
    ensures Taken(cfg, parent, core, i, c, [step]) == S.ConnNext(cfg, core, parent, i, c, step)
  {
    hide S.CanConn, S.ConnNext;
    assert [step][1..] == [];
  }

  lemma AdmittedPath(cfg: S.Config, parent: Option<Cause>, core: S.Core, i: nat, c: S.Conn, opens: bool)
    requires c.pc == S.Admitted && (!opens ==> cfg.kind == S.Quic || cfg.kind == S.WebSocket)
    ensures var steps := if core.stopped then [S.Enter, S.RefuseRelease]
                         else if !opens then [S.Enter, S.SetupFails, S.FailRelease, S.FailDone]
                         else [S.Enter, S.Create, S.Register];
            && CanTake(cfg, parent, core, i, c, steps)
            && var (core', c') := Taken(cfg, parent, core, i, c, steps);
               if core.stopped then c'.pc == S.Refused && core' == core.AddActive(-1)
               else if !opens then c'.pc == S.Abandoned && core' == core.AddActive(-1)
               else c'.pc == S.Handling && core' == core.Enter().List(c.addr, i)
  {
    var (core1, c1) := S.ConnNext(cfg, core, parent, i, c, S.Enter);
    if core.stopped {
      TakeLast(cfg, parent, core1, i, c1, S.RefuseRelease);
      TakeFirst(cfg, parent, core, i, c, S.Enter, [S.RefuseRelease]);
    } else if !opens {
      var (core2, c2) := S.ConnNext(cfg, core1, parent, i, c1, S.SetupFails);
      var (core3, c3) := S.ConnNext(cfg, core2, parent, i, c2, S.FailRelease);
      TakeLast(cfg, parent, core3, i, c3, S.FailDone);
      TakeFirst(cfg, parent, core2, i, c2, S.FailRelease, [S.FailDone]);
      TakeFirst(cfg, parent, core1, i, c1, S.SetupFails, [S.FailRelease, S.FailDone]);
      TakeFirst(cfg, parent, core, i, c, S.Enter, [S.SetupFails, S.FailRelease, S.FailDone]);
    } else {
      var (core2, c2) := S.ConnNext(cfg, core1, parent, i, c1, S.Create);
      TakeLast(cfg, parent, core2, i, c2, S.Register);
      TakeFirst(cfg, parent, core1, i, c1, S.Create, [S.Register]);
      TakeFirst(cfg, parent, core, i, c, S.Enter, [S.Create, S.Register]);
    }
  }

  const CLOSE_LINES: seq<S.ConnStep> := [S.CloseLine, S.CloseLine, S.CloseLine, S.CloseLine]

  /** What closing connection i with `cause` makes of the shared fields and of the connection. */
  function Closed(core: S.Core, i: nat, c: S.Conn, cause: Cause): (S.Core, S.Conn) {
    if c.life.phase.Open? then
      (core.Unlist(c.addr, i).AddActive(-1),
       c.(life := CloseAll(c.life, cause), released := c.released + 1, early := c.pc.Created?))
    else (core, c)
  }

  /** The four lines of closeWith's body, on the side of the server. */
  lemma CloseIsPath(cfg: S.Config, parent: Option<Cause>, core: S.Core, i: nat, c: S.Conn, cause: Cause)
    requires S.HasSession(c) && c.life.phase.Open?
    ensures var begun := c.(life := c.life.Begin(cause));
            && CanTake(cfg, parent, core, i, begun, CLOSE_LINES)
            && Taken(cfg, parent, core, i, begun, CLOSE_LINES) == Closed(core, i, c, cause)
  {
    var c0 := c.(life := c.life.Begin(cause));
    var (core1, c1) := S.ConnNext(cfg, core, parent, i, c0, S.CloseLine);
    var (core2, c2) := S.ConnNext(cfg, core1, parent, i, c1, S.CloseLine);
    var (core3, c3) := S.ConnNext(cfg, core2, parent, i, c2, S.CloseLine);
    TakeLast(cfg, parent, core3, i, c3, S.CloseLine);
    TakeFirst(cfg, parent, core2, i, c2, S.CloseLine, [S.CloseLine]);
    TakeFirst(cfg, parent, core1, i, c1, S.CloseLine, [S.CloseLine, S.CloseLine]);
    TakeFirst(cfg, parent, core, i, c0, S.CloseLine, [S.CloseLine, S.CloseLine, S.CloseLine]);
  }

  /** serveSession after its handler: closed as an ordinary close, entry and slot and wait-group place given back. */
  lemma ServeIsPath(cfg: S.Config, parent: Option<Cause>, core: S.Core, i: nat, c: S.Conn)
    requires c.pc == S.Handling && c.life.phase.Open?
    ensures var steps := [S.HandlerReturns] + (CLOSE_LINES + [S.ConnDone]);
            && CanTake(cfg, parent, core, i, c, steps)
            && var (core', c') := Taken(cfg, parent, core, i, c, steps);
               && core' == core.Unlist(c.addr, i).AddActive(-1).Done()
               && c'.pc == S.Exited && c'.life == CloseAll(c.life, SessionClosed) && c'.released == c.released + 1
  {
    hide CanTake, Taken;
    var c0 := c.(pc := S.Returning);
    CloseIsPath(cfg, parent, core, i, c0, SessionClosed);
    var (core1, c1) := Closed(core, i, c0, SessionClosed);
    TakeLast(cfg, parent, core1, i, c1, S.ConnDone);
    TakeThen(cfg, parent, core, i, c0.(life := c0.life.Begin(SessionClosed)), CLOSE_LINES, [S.ConnDone]);
    TakeFirst(cfg, parent, core, i, c, S.HandlerReturns, CLOSE_LINES + [S.ConnDone]);
  }

  lemma {:induction false} TakeThen(cfg: S.Config, parent: Option<Cause>, core: S.Core, i: nat, c: S.Conn,
                                    first: seq<S.ConnStep>, rest: seq<S.ConnStep>)
    requires CanTake(cfg, parent, core, i, c, first)
    requires var (core', c') := Taken(cfg, parent, core, i, c, first); CanTake(cfg, parent, core', i, c', rest)
    ensures CanTake(cfg, parent, core, i, c, first + rest)
    ensures var (core', c') := Taken(cfg, parent, core, i, c, first);
            Taken(cfg, parent, core, i, c, first + rest) == Taken(cfg, parent, core', i, c', rest)
    decreases |first|
  {
    hide S.CanConn, S.ConnNext;
    if first == [] {
      assert first + rest == rest;
    } else {
      var (core1, c1) := S.ConnNext(cfg, core, parent, i, c, first[0]);
      TakeThen(cfg, parent, core1, i, c1, first[1..], rest);
      assert (first + rest)[1..] == first[1..] + rest;
    }
  }

  /** The part of `stop` before its loop. */
  lemma StopBegins(cfg: S.Config, s: S.State, k: nat) returns (steps: seq<S.Step>)
    requires k < |s.stoppers| && s.stoppers[k].Idle?
    ensures S.IsRun(cfg, s, steps)
    ensures S.After(cfg, s, steps) ==
              s.(core := s.core.(stopped := true),
                 ended := if s.ended.None? then Some(ServerStopped) else s.ended,
                 stoppers := s.stoppers[k := S.ClosingAll(s.core.byAddr.Values)])
  {
    hide S.IsRun, S.After;
    var mark, cancel, listener := S.OfStopper(k, S.Mark), S.OfStopper(k, S.Cancel), S.OfStopper(k, S.CloseListener);
    var listed := s.core.byAddr.Values;
    OneStepRun(cfg, s, mark);
    T.RunExtend(cfg, s, [mark], cancel);
    T.RunExtend(cfg, s, [mark] + [cancel], listener);
    steps := [mark] + [cancel] + [listener];
    var marked := s.stoppers[k := S.Marked(listed)];
    var cancelled := s.stoppers[k := S.Cancelling(listed)];
    assert marked[k := S.Cancelling(listed)] == cancelled;
    assert cancelled[k := S.ClosingAll(listed)] == s.stoppers[k := S.ClosingAll(listed)];
  }

  /** Session i is on the list of a stopper that has come to closing, and nobody is in the middle of closing it. */
  predicate CanStopOne(s: S.State, k: nat, i: nat) {
    && k < |s.stoppers| && s.stoppers[k].ClosingAll? && i in s.stoppers[k].todo
    && i < |s.conns| && s.conns[i].loop < |s.loops| && S.HasSession(s.conns[i])
    && (s.conns[i].life.phase.Closing? ==> s.conns[i].life.HasClosed())
  }

  /** One turn of stop's loop over its snapshot. */
  lemma StopOneIsRun(cfg: S.Config, s: S.State, k: nat, i: nat) returns (steps: seq<S.Step>)
    requires CanStopOne(s, k, i)
    ensures S.IsRun(cfg, s, steps)
    ensures var (core, c) := Closed(s.core, i, s.conns[i], ServerStopped);
            S.After(cfg, s, steps) ==
              s.(core := core, conns := s.conns[i := c],
                 stoppers := s.stoppers[k := S.ClosingAll(s.stoppers[k].todo - {i})])
  {
    var begin, done := S.OfStopper(k, S.CloseSession(i)), S.OfStopper(k, S.SessionDone(i));
    var c := s.conns[i];
    assert s.conns[i := c] == s.conns;
    var s1 := S.Next(cfg, s, begin);
    OneStepRun(cfg, s, begin);
    steps := [begin];
    if c.life.phase.Open? {
      CloseIsPath(cfg, s.loops[c.loop].ctx, s.core, i, c, ServerStopped);
      PathIsRun(cfg, s1, i, CLOSE_LINES);
      T.RunConcat(cfg, s, steps, OfConn(i, CLOSE_LINES));
      steps := steps + OfConn(i, CLOSE_LINES);
    }
    hide S.IsRun, S.After;
    var (core', c') := Closed(s.core, i, c, ServerStopped);
    assert s1.conns[i := c'] == s.conns[i := c'];
    assert S.After(cfg, s, steps) == s.(core := core', conns := s.conns[i := c']);
    T.RunExtend(cfg, s, steps, done);
    steps := steps + [done];
  }

  lemma OneStepRun(cfg: S.Config, s: S.State, step: S.Step)
    requires S.Enabled(cfg, s, step)
    ensures S.IsRun(cfg, s, [step]) && S.After(cfg, s, [step]) == S.Next(cfg, s, step)
  {
    hide S.Enabled, S.Next;
    assert [step][1..] == [];
  }
}
