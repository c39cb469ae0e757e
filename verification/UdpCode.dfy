/** The UDP server object: Serve's reused buffer and size filter, and `deliver`. */
module UdpCode {
  import opened Bytes
  import U = Udp

  class Server {
    const cfg: U.Config
    const buf: array<byte>
    var sessions: seq<U.Session>
    var byAddr: map<string, nat>

    ghost predicate Valid()
      reads this
    {
      && buf.Length == U.BufferLength(cfg)
      && forall a <- byAddr :: byAddr[a] < |sessions|
    }

    constructor (cfg: U.Config)
      ensures Valid() && this.cfg == cfg && sessions == [] && byAddr == map[]
    {
      this.cfg := cfg;
      buf := new byte[U.BufferLength(cfg)](_ => 0);
      sessions, byAddr := [], map[];
    }

    /** ReadFromUDP into the shared buffer, the size filter, and the copy handed on. */
    method ReadFiltered(payload: Bytes) returns (message: Option<Bytes>)
      requires Valid()
      modifies buf
      ensures message == U.Filtered(cfg, payload)
    {
      var n := if |payload| < buf.Length then |payload| else buf.Length;
      for i := 0 to n
        invariant buf[..i] == payload[..i]
      {
        buf[i] := payload[i];
      }
      if n == 0 {
        return None;
      }
      if n > cfg.maxLength {
        return None;
      }
      message := Some(buf[..n]);
    }

    /** deliver and open; `admits` tells whether tryAdmit and enter both said yes. */
    method Deliver(addr: string, entry: U.Entry, admits: bool)
      requires Valid()
      modifies this
      ensures Valid()
      ensures HandedOn(cfg, old(sessions), old(byAddr), addr, entry, admits, sessions, byAddr)
    {
      if addr !in byAddr {
        if !admits {
          return;
        }
        sessions := sessions + [U.Session(addr, [], [])];
        byAddr := byAddr[addr := |sessions| - 1];
      }
      var i := byAddr[addr];
      if |sessions[i].queue| < cfg.buffer {
        sessions := sessions[i := sessions[i].(queue := sessions[i].queue + [entry])];
      }
    }
  }

  /**
   What a datagram's delivery changes. A known address keeps its session, an admitted new one gets
   the next session with an empty channel, and a refused one nothing. The session's channel takes
   the message at its end if it has room; every other session and entry is as before.
   */
  ghost predicate HandedOn(cfg: U.Config, sessions: seq<U.Session>, byAddr: map<string, nat>,
                           addr: string, entry: U.Entry, admits: bool,
                           sessions': seq<U.Session>, byAddr': map<string, nat>)
  {
    if addr !in byAddr && !admits then sessions' == sessions && byAddr' == byAddr
    else
      && addr in byAddr'
      && (forall a :: a != addr ==> (a in byAddr' <==> a in byAddr) && (a in byAddr ==> byAddr'[a] == byAddr[a]))
      && (if addr in byAddr then byAddr'[addr] == byAddr[addr] && |sessions'| == |sessions|
          else byAddr'[addr] == |sessions| && |sessions'| == |sessions| + 1)
      && (forall j :: 0 <= j < |sessions| && j != byAddr'[addr] ==> sessions'[j] == sessions[j])
      && byAddr'[addr] < |sessions'|
      && var now := sessions'[byAddr'[addr]];
         var was := if byAddr'[addr] < |sessions| then sessions[byAddr'[addr]] else U.Session(addr, [], []);
         && now.addr == was.addr && now.got == was.got
         && (|was.queue| < cfg.buffer ==> now.queue == was.queue + [entry])
         && (|was.queue| >= cfg.buffer ==> now.queue == was.queue)
  }

  /** The machine's steps for one datagram when nothing comes between. */
  function DeliverSteps(listed: bool, admits: bool): seq<U.Step> {
    if listed then [U.Lookup, U.Send]
    else if !admits then [U.Lookup, U.Refuse]
    else [U.Lookup, U.Create, U.Add, U.Send]
  }

  /** `Deliver` is the machine's run of the same datagram: refused only if not admitted, and handed on alike. */
  lemma DeliverIsRun(cfg: U.Config, s: U.State, admits: bool)
    requires s.serve.Looking? && forall a <- s.byAddr :: s.byAddr[a] < |s.sessions|
    ensures var steps := DeliverSteps(s.serve.addr in s.byAddr, admits);
            && U.IsRun(cfg, s, steps)
            && var s' := U.After(cfg, s, steps);
               && s' == s.(serve := U.Reading, sessions := s'.sessions, byAddr := s'.byAddr)
               && HandedOn(cfg, s.sessions, s.byAddr, s.serve.addr, s.serve.entry, admits, s'.sessions, s'.byAddr)
  {
    var s1 := U.Next(cfg, s, U.Lookup);
    if s.serve.addr in s.byAddr {
      RunOne(cfg, s1, U.Send);
      RunFirst(cfg, s, U.Lookup, [U.Send]);
    } else if !admits {
      RunOne(cfg, s1, U.Refuse);
      RunFirst(cfg, s, U.Lookup, [U.Refuse]);
    } else {
      var s2 := U.Next(cfg, s1, U.Create);
      var s3 := U.Next(cfg, s2, U.Add);
      RunOne(cfg, s3, U.Send);
      RunFirst(cfg, s2, U.Add, [U.Send]);
      RunFirst(cfg, s1, U.Create, [U.Add, U.Send]);
      RunFirst(cfg, s, U.Lookup, [U.Create, U.Add, U.Send]);
    }
  }

  lemma RunOne(cfg: U.Config, s: U.State, step: U.Step)
    requires U.Enabled(cfg, s, step)
    ensures U.IsRun(cfg, s, [step]) && U.After(cfg, s, [step]) == U.Next(cfg, s, step)
  {
    hide U.Enabled, U.Next;
    assert [step][1..] == [];
  }

  lemma RunFirst(cfg: U.Config, s: U.State, step: U.Step, rest: seq<U.Step>)
    requires U.Enabled(cfg, s, step) && U.IsRun(cfg, U.Next(cfg, s, step), rest)
    ensures U.IsRun(cfg, s, [step] + rest)
    ensures U.After(cfg, s, [step] + rest) == U.After(cfg, U.Next(cfg, s, step), rest)
  {
    hide U.Enabled, U.Next;
    assert ([step] + rest)[1..] == rest;
  }
}
