/** The session object: its methods run on their own, proved against the machine's steps. */
module SessionCode {
  import opened Bytes
  import opened Bufio
  import opened Lifecycle
  import opened Streams
  import opened Transport
  import opened SessionRuns
  import ServerCode
  import M = Session
  import S = Server
  import ServerTheorems

  datatype SendResult = Sent | QueueFull | TooLarge | Closed(cause: Cause)

  class Session {
    const cfg: M.Config
    const addr: string
    const id: nat
    const server: ServerCode.Server
    const t: StreamTransport
    var life: Life
    var out: seq<M.Call>
    var connected: bool

    constructor (cfg: M.Config, addr: string, id: nat, server: ServerCode.Server, t: StreamTransport)
      ensures this.cfg == cfg && this.addr == addr && this.id == id && this.server == server && this.t == t
      ensures life == FRESH && out == [] && connected
    {
      this.cfg, this.addr, this.id, this.server, this.t := cfg, addr, id, server, t;
      life, out, connected := FRESH, [], true;
    }

    /** The callback, the transport, then the context: once. */
    method CloseWith(cause: Cause)
      requires life.phase.Closing? ==> life.HasClosed()
      modifies this`life, this`connected, server
      ensures life == CloseAll(old(life), cause)
      ensures old(life).phase.Open? ==>
                !connected && server.Core() == old(server.Core()).Unlist(addr, id).AddActive(-1)
      ensures old(life).phase.Closing? ==>
                connected == old(connected) && server.Core() == old(server.Core())
    {
      if life.phase.Open? {
        life := life.Begin(cause);
        server.Remove(addr, id);
        life := life.Advance().Advance();
        connected := false;
        life := life.Advance();
        life := life.Advance();
      }
    }

    /** What the object shows of a state of the machine. */
    ghost predicate Shows(s: M.State)
      reads this
    {
      s.life == life && s.tx.out == out
    }

    /** SendToClient up to the point where it would have to wait: sender and machine go the same steps. */
    method TrySend(call: M.Call, ghost s: M.State) returns (r: SendResult, ghost steps: seq<M.Step>)
      requires Shows(s)
      requires call.sender < |s.tx.senders| && s.tx.senders[call.sender] == M.Sender(call.index, M.Free)
      modifies this`out
      ensures steps <= [M.Send(call.sender, M.Start(call.payload)),
                        M.Send(call.sender, M.CheckOpen),
                        M.Send(call.sender, M.TryQueue)]
      ensures M.IsRun(cfg, s, steps) && Shows(M.After(cfg, s, steps))
      ensures M.After(cfg, s, steps).tx ==
                match r
                case Sent => M.Accept(s.tx, call.sender, call.payload)
                case QueueFull => M.At(s.tx, call.sender, M.Waiting(call.payload))
                case _ => M.Refuse(s.tx, call.sender)
      ensures r.TooLarge? <==> |call.payload| > cfg.maxLength
      ensures r.Closed? ==> life.ctx == Some(r.cause)
    {
      hide M.IsRun, M.After;
      SendIsRun(cfg, s, call.sender, call.payload);
      steps := SendSteps(cfg, s, call.sender, call.payload);
      if |call.payload| > cfg.maxLength {
        return TooLarge, steps;
      }
      if life.ctx.Some? {
        return Closed(life.ctx.value), steps;
      }
      if |out| < cfg.queue {
        out := out + [call];
        return Sent, steps;
      }
      r := QueueFull;
    }

    /** Moves as much of the queue into the batch as still fits. */
    method FillBatch(batch: seq<M.Call>) returns (filled: seq<M.Call>)
      requires |batch| <= 128
      modifies this`out
      ensures var n := Min(128 - |batch|, |old(out)|);
              filled == batch + old(out)[..n] && out == old(out)[n..]
    {
      filled := batch;
      ghost var n := 0;
      while |filled| < M.MAX_BATCH && out != []
        invariant n <= |old(out)| && |filled| == |batch| + n <= M.MAX_BATCH
        invariant filled == batch + old(out)[..n] && out == old(out)[n..]
        decreases |out|
      {
        assert old(out)[..n + 1] == old(out)[..n] + [old(out)[n]];
        filled := filled + [out[0]];
        out := out[1..];
        n := n + 1;
      }
    }

    /**
     Messages over a connection whose deadlines never fail; the consumer breaks off after
     message number `last`, if there is one. It gets what the transport decodes: up to that
     message, with the rest still to be read, or all of it, and then the session is closed
     with why the stream ended.
     */
    method Messages(last: Option<nat>) returns (yielded: seq<Bytes>)
      requires life.phase.Closing? ==> life.HasClosed()
      modifies this`life, this`connected, server, t.r`rest
      ensures var (messages, e) := DecodeAll(t.codec, old(t.r.rest), t.max, t.r.size, t.r.terminal);
              if last.Some? && last.value < |messages| then
                && yielded == messages[..last.value + 1]
                && DecodeAll(t.codec, t.r.rest, t.max, t.r.size, t.r.terminal) == (messages[last.value + 1..], e)
                && life == old(life) && connected == old(connected) && server.Core() == old(server.Core())
              else
                yielded == messages && life == CloseAll(old(life), M.ReadCause(e))
    {
      hide Next, DecodeAll;
      ghost var (messages, e) := DecodeAll(t.codec, t.r.rest, t.max, t.r.size, t.r.terminal);
      yielded := [];
      while true
        invariant life == old(life) && connected == old(connected) && server.Core() == old(server.Core())
        invariant last.Some? ==> |yielded| <= last.value
        invariant var (more, e') := DecodeAll(t.codec, t.r.rest, t.max, t.r.size, t.r.terminal);
                  messages == yielded + more && e == e'
        decreases |t.r.rest|
      {
        DecodeAllStep(t.codec, t.r.rest, t.max, t.r.size, t.r.terminal);
        var m := t.ReadMessage(None);
        if m.Err? {
          CloseWith(M.ReadCause(m.error));
          return;
        }
        yielded := yielded + [m.value];
        if last == Some(|yielded| - 1) {
          assert messages[..|yielded|] == yielded;
          assert messages[|yielded|..] == DecodeAll(t.codec, t.r.rest, t.max, t.r.size, t.r.terminal).0;
          return;
        }
      }
    }

    /** One turn of writeLoop with something queued: one batch, one write. */
    method WriteRound(outcome: WriteOutcome) returns (error: Option<Error>)
      requires out != [] && t.retained <= MAX_RETAINED
      requires t.codec.UvarintCodec? ==> M.CallsEncodable(t.codec, out)
      requires life.phase.Closing? ==> life.HasClosed()
      modifies this, t, server
      ensures var batch := old(out)[..Min(128, |old(out)|)];
              && out == old(out)[|batch|..]
              && error == WriteError(t.codec, M.Payloads(batch), outcome)
              && t.wire == old(t.wire) + OnWire(t.codec, M.Payloads(batch), outcome)
      ensures error == None ==> life == old(life)
      ensures error.Some? ==> life == CloseAll(old(life), Failure(error.value))
      ensures t.retained <= MAX_RETAINED
    {
      hide Encodable, EncodeAll;
      var first := out[0];
      out := out[1..];
      var batch := FillBatch([first]);
      var n := Min(M.MAX_BATCH, |old(out)|);
      assert batch == old(out)[..n];
      assert out == old(out)[n..];
      error := t.WriteMessages(M.Payloads(batch), outcome);
      if error.Some? {
        CloseWith(Failure(error.value));
      }
    }
  }

  /** The objects are the machine's sessions, and nobody is in the middle of closing one. */
  ghost predicate Shown(server: ServerCode.Server, objects: map<nat, Session>, s: S.State)
    reads server, objects.Values
  {
    && server.Core() == s.core
    && forall i <- objects ::
         && i < |s.conns| && s.conns[i].loop < |s.loops| && S.HasSession(s.conns[i])
         && objects[i].server == server && objects[i].id == i
         && objects[i].addr == s.conns[i].addr && objects[i].life == s.conns[i].life
         && (objects[i].life.phase.Closing? ==> objects[i].life.HasClosed())
  }

  ghost function Lives(objects: map<nat, Session>): (r: map<nat, Life>)
    reads objects.Values
    ensures r.Keys == objects.Keys
  {
    map i <- objects :: objects[i].life
  }

  /** Each of these sessions closed by `stop`, if it was not closed before; the others as they were. */
  function CloseThese(lives: map<nat, Life>, ids: set<nat>): (r: map<nat, Life>)
    ensures r.Keys == lives.Keys
  {
    map i <- lives :: if i in ids then CloseAll(lives[i], ServerStopped) else lives[i]
  }

  lemma CloseNone(lives: map<nat, Life>)
    ensures CloseThese(lives, {}) == lives
  {
  }

  lemma CloseOneMore(lives: map<nat, Life>, ids: set<nat>, i: nat)
    requires i in lives && i !in ids
    ensures CloseThese(lives, ids)[i := CloseAll(CloseThese(lives, ids)[i], ServerStopped)] == CloseThese(lives, ids + {i})
  {
  }

  /** The run has set the flag, ended the server's context and left the stopper these sessions to close. */
  predicate Stopping(cfg: S.Config, s: S.State, k: nat, steps: seq<S.Step>, todo: set<nat>) {
    && S.IsRun(cfg, s, steps)
    && var now := S.After(cfg, s, steps);
       && now.core.stopped && now.ended.Some?
       && k < |now.stoppers| && now.stoppers[k] == S.ClosingAll(todo)
  }

  /** One turn of its loop. */
  method StopOne(server: ServerCode.Server, objects: map<nat, Session>, i: nat, ghost cfg: S.Config, ghost s: S.State,
                 ghost k: nat, ghost before: seq<S.Step>, ghost todo: set<nat>)
    returns (ghost steps: seq<S.Step>)
    requires Stopping(cfg, s, k, before, todo) && Shown(server, objects, S.After(cfg, s, before))
    requires i in objects && i in todo
    modifies server, objects[i]
    ensures Stopping(cfg, s, k, steps, todo - {i}) && Shown(server, objects, S.After(cfg, s, steps))
    ensures Lives(objects) == old(Lives(objects))[i := CloseAll(old(Lives(objects))[i], ServerStopped)]
  {
    hide S.IsRun, S.After, Stopping;
    assert ServerCode.CanStopOne(S.After(cfg, s, before), k, i) by { ListIs(cfg, s, k, before, todo); }
    steps := MachineTurn(cfg, s, k, before, todo, i);
    CloseAllOnce(objects[i].life, ServerStopped, ServerStopped);
    objects[i].CloseWith(ServerStopped);
    assert forall j <- objects :: j != i ==> objects[j] != objects[i];
  }

  lemma ListIs(cfg: S.Config, s: S.State, k: nat, steps: seq<S.Step>, todo: set<nat>)
    requires Stopping(cfg, s, k, steps, todo)
    ensures S.IsRun(cfg, s, steps)
    ensures k < |S.After(cfg, s, steps).stoppers| && S.After(cfg, s, steps).stoppers[k] == S.ClosingAll(todo)
  {
    hide S.IsRun, S.After;
  }

  lemma MachineTurn(cfg: S.Config, s: S.State, k: nat, before: seq<S.Step>, todo: set<nat>, i: nat)
    returns (steps: seq<S.Step>)
    requires Stopping(cfg, s, k, before, todo)
    requires ServerCode.CanStopOne(S.After(cfg, s, before), k, i)
    ensures Stopping(cfg, s, k, steps, todo - {i})
    ensures var s1, s2 := S.After(cfg, s, before), S.After(cfg, s, steps);
            && s2.loops == s1.loops
            && var (core, c) := ServerCode.Closed(s1.core, i, s1.conns[i], ServerStopped);
               s2.core == core && s2.conns == s1.conns[i := c]
  {
    hide S.IsRun, S.After;
    var s1 := S.After(cfg, s, before);
    var turn := ServerCode.StopOneIsRun(cfg, s1, k, i);
    ServerTheorems.RunConcat(cfg, s, before, turn);
    steps := before + turn;
  }

  /** The lock region of `stop`, then the server's context and the listener. */
  method BeginStop(server: ServerCode.Server, objects: map<nat, Session>,
                   ghost cfg: S.Config, ghost s: S.State, ghost k: nat)
    returns (listed: set<nat>, ghost steps: seq<S.Step>)
    requires Shown(server, objects, s) && k < |s.stoppers| && s.stoppers[k].Idle?
    modifies server
    ensures listed == old(server.byAddr).Values && Lives(objects) == old(Lives(objects))
    ensures Stopping(cfg, s, k, steps, listed) && Shown(server, objects, S.After(cfg, s, steps))
  {
    hide S.IsRun, S.After;
    steps := ServerCode.StopBegins(cfg, s, k);
    listed := server.MarkStopped();
  }

  /**
   `stop` up to `wg.Wait`: the flag and the snapshot, the server's context, the listener,
   then every session of the snapshot closed, in any order. It is a run of the machine,
   at whose end the stopper has nothing left to close.
   */
  method Stop(server: ServerCode.Server, objects: map<nat, Session>, ghost cfg: S.Config, ghost s: S.State, ghost k: nat)
    returns (ghost steps: seq<S.Step>)
    requires Shown(server, objects, s) && server.byAddr.Values <= objects.Keys
    requires k < |s.stoppers| && s.stoppers[k].Idle?
    modifies server, objects.Values
    ensures Stopping(cfg, s, k, steps, {}) && Shown(server, objects, S.After(cfg, s, steps))
    ensures Lives(objects) == CloseThese(old(Lives(objects)), old(server.byAddr).Values)
  {
    hide S.IsRun, S.After, Shown, Lives, CloseThese, CloseAll;
    ghost var lives, closed := Lives(objects), {};
    CloseNone(lives);
    var todo: set<nat>;
    todo, steps := BeginStop(server, objects, cfg, s, k);
    while todo != {}
      invariant todo !! closed && todo + closed == old(server.byAddr).Values
      invariant Stopping(cfg, s, k, steps, todo) && Shown(server, objects, S.After(cfg, s, steps))
      invariant Lives(objects) == CloseThese(lives, closed)
    {
      var i :| i in todo;
      CloseOneMore(lives, closed, i);
      steps := StopOne(server, objects, i, cfg, s, k, steps, todo);
      todo, closed := todo - {i}, closed + {i};
    }
    assert closed == old(server.byAddr).Values;
  }
}
