/**
 The server as a step machine: Serve loops, connections, the sessions they
 become and any number of `StopListener` calls share the registry, the admission
 counter, the wait group and the `stopped` flag. Every lock region, every atomic
 operation and every line of `closeWith` is one step.
 */
module Server {
  import opened Bytes
  import opened Lifecycle

  datatype Kind = Tcp | Udp | Quic | WebSocket

  datatype Config = Config(kind: Kind, maxConnections: nat)

  /** The shared fields; `byAddr` maps an address to a connection's number. */
  datatype Core = Core(byAddr: map<string, nat>, active: int, stopped: bool, wg: int) {

    /** enter. */
    function Enter(): Core {
      if stopped then this else this.(wg := wg + 1)
    }

    function Done(): Core {
      this.(wg := wg - 1)
    }

    function AddActive(n: int): Core {
      this.(active := active + n)
    }

    function List(addr: string, i: nat): Core {
      this.(byAddr := byAddr[addr := i])
    }

    /** The lock region of `remove`: only the session's own entry goes. */
    function Unlist(addr: string, i: nat): Core {
      if addr in byAddr && byAddr[addr] == i then this.(byAddr := byAddr - {addr}) else this
    }
  }

  /** Where the code that handles one connection is. */
  datatype ConnPc =
    | Arrived      // before tryAdmit's increment
    | Over         // incremented past the maximum, decrement to come
    | Rejected
    | Admitted     // slot held, before enter
    | Refusing     // enter said no, release to come
    | Refused
    | Entered      // slot and wait group held, no session yet
    | Failing      // no stream or no upgrade: release to come
    | Failed       // released, wg.Done to come
    | Abandoned
    | Created      // session exists and its close callbacks are armed, before add
    | Handling     // listed, handler running
    | Returning    // handler returned, in closeWith
    | Exited

  /** `early` records that the session was unlisted before it was listed, `released` counts releases of its slot. */
  datatype Conn = Conn(loop: nat, addr: string, pc: ConnPc, life: Life, early: bool, released: nat)

  predicate HasSession(c: Conn) {
    c.pc in {Created, Handling, Returning, Exited}
  }

  predicate HasRegistered(c: Conn) {
    c.pc in {Handling, Returning, Exited}
  }

  /** Holds a connection slot. */
  predicate Holds(c: Conn) {
    c.pc in {Admitted, Refusing, Entered, Failing} || (HasSession(c) && !c.life.HasReleased())
  }

  /** A failed attempt whose increment is not undone yet. */
  predicate IsOver(c: Conn) {
    c.pc == Over
  }

  /** Counted by the wait group. */
  predicate Works(c: Conn) {
    c.pc in {Entered, Failing, Failed, Created, Handling, Returning}
  }

  predicate HasEntered(c: Conn) {
    Works(c) || c.pc == Abandoned || c.pc == Exited
  }

  /** The part of a connection's life that its Serve loop runs itself, one connection at a time. */
  predicate OnLoop(kind: Kind, c: Conn) {
    match kind
    case WebSocket => false
    case Quic => c.pc in {Arrived, Over, Admitted, Refusing}
    case _ => c.pc in {Arrived, Over, Admitted, Refusing, Entered, Created}
  }

  datatype LoopPc = NotEntered | Serving | Draining | Returned | TurnedAway

  /** A Serve call and the context it gives its sessions. */
  datatype Loop = Loop(pc: LoopPc, ctx: Option<Cause>)

  predicate LoopWorks(l: Loop) {
    l.pc == Serving || l.pc == Draining
  }

  /** A `StopListener` call, with the sessions of its snapshot still to close. */
  datatype Stopper =
    | Idle
    | Marked(todo: set<nat>)
    | Cancelling(todo: set<nat>)
    | ClosingAll(todo: set<nat>)
    | Finished

  datatype State = State(core: Core, ended: Option<Cause>, loops: seq<Loop>, conns: seq<Conn>, stoppers: seq<Stopper>)

  function Init(loops: nat, stoppers: nat): State {
    State(Core(map[], 0, false, 0), None, seq(loops, _ => Loop(NotEntered, None)), [], seq(stoppers, _ => Idle))
  }

  datatype LoopStep = LoopEnter | CtxEnds(cause: Cause) | CtxReaches | Accept(addr: string) | LoopLeave | LoopDone

  datatype ConnStep =
    | AdmitAdd
    | AdmitUndo
    | Enter
    | RefuseRelease
    | SetupFails
    | FailRelease
    | FailDone
    | Create
    | Register
    | HandlerReturns
    | ConnDone
    | ParentReaches
    | Close(cause: Cause)
    | CloseLine

  datatype StopStep = Mark | Cancel | CloseListener | CloseSession(i: nat) | SessionDone(i: nat) | Wait

  datatype Step =
    | ServerEnds(cause: Cause)
    | OfLoop(l: nat, loop: LoopStep)
    | OfConn(i: nat, conn: ConnStep)
    | OfStopper(k: nat, stop: StopStep)

  // ---- Connections ----

  /**
   Who may call closeWith: after `add` anyone; before it only the callback on the
   session's ended context and, for QUIC, the watch on the connection.
   */
  predicate MayClose(kind: Kind, c: Conn, cause: Cause) {
    && HasSession(c)
    && (c.pc.Created? ==> c.life.ctx == Some(cause) || (kind == Quic && cause == SessionClosed))
  }

  predicate CanConn(cfg: Config, parent: Option<Cause>, c: Conn, step: ConnStep) {
    match step
    case AdmitAdd => c.pc.Arrived?
    case AdmitUndo => c.pc.Over?
    case Enter => c.pc.Admitted?
    case RefuseRelease => c.pc.Refusing?
    case SetupFails => c.pc.Entered? && (cfg.kind == Quic || cfg.kind == WebSocket)
    case FailRelease => c.pc.Failing?
    case FailDone => c.pc.Failed?
    case Create => c.pc.Entered?
    case Register => c.pc.Created?
    case HandlerReturns => c.pc.Handling?
    case ConnDone => c.pc.Returning? && c.life.HasClosed()
    case ParentReaches => HasSession(c) && parent.Some?
    case Close(cause) => MayClose(cfg.kind, c, cause)
    case CloseLine => HasSession(c) && c.life.phase.Closing? && c.life.phase.stage != Done
  }

  function ConnNext(cfg: Config, core: Core, parent: Option<Cause>, i: nat, c: Conn, step: ConnStep): (Core, Conn)
    requires CanConn(cfg, parent, c, step)
  {
    match step
    case AdmitAdd =>
      var core' := core.AddActive(1);
      (core', c.(pc := if core'.active > cfg.maxConnections then Over else Admitted))
    case AdmitUndo => (core.AddActive(-1), c.(pc := Rejected))
    case Enter => (core.Enter(), c.(pc := if core.stopped then Refusing else Entered))
    case RefuseRelease => (core.AddActive(-1), c.(pc := Refused, released := c.released + 1))
    case SetupFails => (core, c.(pc := Failing))
    case FailRelease => (core.AddActive(-1), c.(pc := Failed, released := c.released + 1))
    case FailDone => (core.Done(), c.(pc := Abandoned))
    case Create => (core, c.(pc := Created, life := FRESH))
    case Register => (core.List(c.addr, i), c.(pc := Handling))
    case HandlerReturns => (core, c.(pc := Returning, life := c.life.Begin(SessionClosed)))
    case ConnDone => (core.Done(), c.(pc := Exited))
    case ParentReaches => (core, c.(life := c.life.Propagate(parent.value)))
    case Close(cause) => (core, c.(life := c.life.Begin(cause)))
    case CloseLine =>
      var c' := c.(life := c.life.Advance());
      if c.life.Is(Began) then (core.Unlist(c.addr, i), c'.(early := c.pc.Created?))
      else if c.life.Is(Unlisted) then (core.AddActive(-1), c'.(released := c.released + 1))
      else (core, c')
  }

  // ---- Serve loops ----

  predicate LoopFree(kind: Kind, conns: seq<Conn>, l: nat) {
    forall i :: 0 <= i < |conns| && conns[i].loop == l ==> !OnLoop(kind, conns[i])
  }

  predicate CanLoop(cfg: Config, s: State, l: nat, step: LoopStep) {
    && l < |s.loops|
    && var pc := s.loops[l].pc;
       match step
       case LoopEnter => pc == NotEntered
       case CtxEnds(_) => s.loops[l].ctx.None?
       case CtxReaches => s.loops[l].ctx.None? && s.ended.Some?
       case Accept(_) =>
         // the HTTP server's handlers may outlive Serve
         if cfg.kind == WebSocket then pc != NotEntered && pc != TurnedAway
         else pc == Serving && LoopFree(cfg.kind, s.conns, l)
       case LoopLeave => pc == Serving && LoopFree(cfg.kind, s.conns, l)
       case LoopDone => pc == Draining
  }

  function LoopNext(cfg: Config, s: State, l: nat, step: LoopStep): State
    requires CanLoop(cfg, s, l, step)
  {
    var loop := s.loops[l];
    match step
    case LoopEnter =>
      s.(core := s.core.Enter(), loops := s.loops[l := loop.(pc := if s.core.stopped then TurnedAway else Serving)])
    case CtxEnds(c) => s.(loops := s.loops[l := loop.(ctx := Some(c))])
    case CtxReaches => s.(loops := s.loops[l := loop.(ctx := s.ended)])
    case Accept(addr) => s.(conns := s.conns + [Conn(l, addr, Arrived, FRESH, false, 0)])
    case LoopLeave =>
      s.(loops := s.loops[l := Loop(Draining, if loop.ctx.None? then Some(Canceled) else loop.ctx)])
    case LoopDone => s.(core := s.core.Done(), loops := s.loops[l := loop.(pc := Returned)])
  }

  // ---- StopListener ----

  predicate CanStop(s: State, k: nat, step: StopStep) {
    && k < |s.stoppers|
    && var st := s.stoppers[k];
       match step
       case Mark => st.Idle?
       case Cancel => st.Marked?
       case CloseListener => st.Cancelling?
       case CloseSession(i) => st.ClosingAll? && i in st.todo && i < |s.conns|
       case SessionDone(i) => st.ClosingAll? && i in st.todo && i < |s.conns| && s.conns[i].life.HasClosed()
       case Wait => st.ClosingAll? && st.todo == {} && s.core.wg == 0
  }

  function StopNext(s: State, k: nat, step: StopStep): State
    requires CanStop(s, k, step)
  {
    var st := s.stoppers[k];
    match step
    case Mark =>
      s.(core := s.core.(stopped := true), stoppers := s.stoppers[k := Marked(s.core.byAddr.Values)])
    case Cancel =>
      s.(ended := if s.ended.None? then Some(ServerStopped) else s.ended,
         stoppers := s.stoppers[k := Cancelling(st.todo)])
    case CloseListener => s.(stoppers := s.stoppers[k := ClosingAll(st.todo)])
    case CloseSession(i) => s.(conns := s.conns[i := s.conns[i].(life := s.conns[i].life.Begin(ServerStopped))])
    case SessionDone(i) => s.(stoppers := s.stoppers[k := ClosingAll(st.todo - {i})])
    case Wait => s.(stoppers := s.stoppers[k := Finished])
  }

  // ---- The whole server ----

  predicate Enabled(cfg: Config, s: State, step: Step) {
    match step
    case ServerEnds(_) => s.ended.None?
    case OfLoop(l, loop) => CanLoop(cfg, s, l, loop)
    case OfConn(i, conn) =>
      && i < |s.conns|
      && s.conns[i].loop < |s.loops|
      && CanConn(cfg, s.loops[s.conns[i].loop].ctx, s.conns[i], conn)
    case OfStopper(k, stop) => CanStop(s, k, stop)
  }

  function Next(cfg: Config, s: State, step: Step): State
    requires Enabled(cfg, s, step)
  {
    match step
    case ServerEnds(c) => s.(ended := Some(c))
    case OfLoop(l, loop) => LoopNext(cfg, s, l, loop)
    case OfConn(i, conn) =>
      var (core, c) := ConnNext(cfg, s.core, s.loops[s.conns[i].loop].ctx, i, s.conns[i], conn);
      s.(core := core, conns := s.conns[i := c])
    case OfStopper(k, stop) => StopNext(s, k, stop)
  }

  predicate IsRun(cfg: Config, s: State, steps: seq<Step>)
    decreases |steps|
  {
    steps == [] || (Enabled(cfg, s, steps[0]) && IsRun(cfg, Next(cfg, s, steps[0]), steps[1..]))
  }

  function After(cfg: Config, s: State, steps: seq<Step>): State
    requires IsRun(cfg, s, steps)
    decreases |steps|
  {
    if steps == [] then s else After(cfg, Next(cfg, s, steps[0]), steps[1..])
  }
}
