/** What the sessions of a UDP address receive over a whole run. */
module UdpTheorems {
  import opened Bytes
  import opened Udp

  /** What all sessions of an address have received, in the order the sessions were created. */
  function Received(sessions: seq<Session>, addr: string): seq<Entry> {
    if sessions == [] then []
    else
      var last := sessions[|sessions| - 1];
      Received(sessions[..|sessions| - 1], addr) + if last.addr == addr then last.got else []
  }

  /** The datagrams of an address, in the order they arrived. */
  function FromAddr(net: seq<Datagram>, addr: string): seq<Bytes> {
    if net == [] then []
    else
      var last := net[|net| - 1];
      FromAddr(net[..|net| - 1], addr) + if last.addr == addr then [last.payload] else []
  }

  function Messages(es: seq<Entry>): (ms: seq<Bytes>)
    ensures |ms| == |es| && forall i :: 0 <= i < |es| ==> ms[i] == es[i].message
  {
    seq(|es|, i requires 0 <= i < |es| => es[i].message)
  }

  /** xs is ys with some elements left out. */
  predicate IsSubsequence(xs: seq<Bytes>, ys: seq<Bytes>) {
    if xs == [] then true
    else if ys == [] then false
    else
      || (xs[|xs| - 1] == ys[|ys| - 1] && IsSubsequence(xs[..|xs| - 1], ys[..|ys| - 1]))
      || IsSubsequence(xs, ys[..|ys| - 1])
  }

  /** Each entry received at an address is in the log of one of its sessions. */
  lemma {:induction false} ReceivedIsLogged(sessions: seq<Session>, addr: string)
    ensures forall e <- Received(sessions, addr) ::
              exists i :: 0 <= i < |sessions| && sessions[i].addr == addr && e in Log(sessions[i])
  {
    if sessions != [] {
      var front, last := sessions[..|sessions| - 1], sessions[|sessions| - 1];
      ReceivedIsLogged(front, addr);
      forall e <- Received(sessions, addr)
        ensures exists i :: 0 <= i < |sessions| && sessions[i].addr == addr && e in Log(sessions[i])
      {
        if e in Received(front, addr) {
          var i :| 0 <= i < |front| && front[i].addr == addr && e in Log(front[i]);
          assert sessions[i] == front[i];
        } else {
          assert sessions[|front|] == last && e in Log(last);
        }
      }
    }
  }

  lemma ReceivedIsGenuine(cfg: Config, net: seq<Datagram>, sessions: seq<Session>, addr: string)
    requires SessionsSound(cfg, net, sessions)
    ensures forall e <- Received(sessions, addr) :: Genuine(cfg, net, addr, e)
  {
    hide Received, Log, Genuine, InOrder;
    ReceivedIsLogged(sessions, addr);
    forall e <- Received(sessions, addr)
      ensures Genuine(cfg, net, addr, e)
    {
      var i :| 0 <= i < |sessions| && sessions[i].addr == addr && e in Log(sessions[i]);
      assert sessions[i] in sessions && SessionSound(cfg, net, sessions[i]);
    }
  }

  lemma {:induction false} ReceivedInOrder(cfg: Config, net: seq<Datagram>, sessions: seq<Session>, addr: string)
    requires SessionsSound(cfg, net, sessions) && SessionsInOrder(sessions)
    ensures InOrder(Received(sessions, addr))
  {
    if sessions != [] {
      var front, last := sessions[..|sessions| - 1], sessions[|sessions| - 1];
      assert forall x <- front :: x in sessions;
      assert last in sessions && SessionSound(cfg, net, last);
      GotInOrder(last);
      hide SessionSound, InOrder;
      ReceivedInOrder(cfg, net, front, addr);
      EarlierSessionsEarlier(sessions, addr);
      JoinInOrder(Received(front, addr), if last.addr == addr then last.got else []);
    }
  }

  lemma GotInOrder(sess: Session)
    requires InOrder(Log(sess))
    ensures InOrder(sess.got) && InOrder([])
  {
    assert sess.got == Log(sess)[..|sess.got|];
  }

  lemma EarlierSessionsEarlier(sessions: seq<Session>, addr: string)
    requires sessions != [] && SessionsInOrder(sessions)
    ensures var front, last := sessions[..|sessions| - 1], sessions[|sessions| - 1];
            last.addr == addr ==> forall e <- Received(front, addr), f <- last.got :: e.at < f.at
  {
    var front, last := sessions[..|sessions| - 1], sessions[|sessions| - 1];
    ReceivedIsLogged(front, addr);
    hide Received;
    assert forall f <- last.got :: f in Log(last);
    forall e <- Received(front, addr), f <- last.got | last.addr == addr
      ensures e.at < f.at
    {
      var i :| 0 <= i < |front| && front[i].addr == addr && e in Log(front[i]);
      assert sessions[i] == front[i] && sessions[|front|] == last;
    }
  }

  lemma JoinInOrder(a: seq<Entry>, b: seq<Entry>)
    requires InOrder(a) && InOrder(b) && forall e <- a, f <- b :: e.at < f.at
    ensures InOrder(a + b)
  {
  }

  lemma SubsequenceGrows(xs: seq<Bytes>, ys: seq<Bytes>, z: Bytes)
    requires IsSubsequence(xs, ys)
    ensures IsSubsequence(xs + [z], ys + [z]) && IsSubsequence(xs, ys + [z])
  {
    assert (xs + [z])[..|xs|] == xs && (ys + [z])[..|ys|] == ys;
  }

  ghost predicate AllGenuine(cfg: Config, net: seq<Datagram>, addr: string, es: seq<Entry>) {
    InOrder(es) && forall i :: 0 <= i < |es| ==> Genuine(cfg, net, addr, es[i])
  }

  /** Without the newest datagram, and without its entry if there is one, the rest is still genuine. */
  lemma WithoutNewest(cfg: Config, net: seq<Datagram>, addr: string, es: seq<Entry>)
    requires es != [] && AllGenuine(cfg, net, addr, es)
    ensures net != []
    ensures var front, newest := net[..|net| - 1], es[|es| - 1];
            if newest.at == |front| then
              net[|front|] == Datagram(addr, newest.message) && AllGenuine(cfg, front, addr, es[..|es| - 1])
            else AllGenuine(cfg, front, addr, es)
  {
    assert Genuine(cfg, net, addr, es[|es| - 1]);
    var front, newest := net[..|net| - 1], es[|es| - 1];
    forall i | 0 <= i < |es| && es[i].at < |front|
      ensures Genuine(cfg, front, addr, es[i])
    {
      assert front[es[i].at] == net[es[i].at];
    }
    assert forall i :: 0 <= i < |es| - 1 ==> es[i].at < newest.at;
  }

  lemma FromAddrLast(net: seq<Datagram>, addr: string)
    requires net != []
    ensures var front, last := net[..|net| - 1], net[|net| - 1];
            FromAddr(net, addr) == if last.addr == addr then FromAddr(front, addr) + [last.payload] else FromAddr(front, addr)
  {
    assert FromAddr(net[..|net| - 1], addr) + [] == FromAddr(net[..|net| - 1], addr);
  }

  lemma MessagesLast(es: seq<Entry>)
    requires es != []
    ensures Messages(es) == Messages(es[..|es| - 1]) + [es[|es| - 1].message]
  {
  }

  lemma {:induction false} GenuineIsSubsequence(cfg: Config, net: seq<Datagram>, addr: string, es: seq<Entry>)
    requires AllGenuine(cfg, net, addr, es)
    ensures IsSubsequence(Messages(es), FromAddr(net, addr))
    decreases |net|
  {
    if es != [] {
      WithoutNewest(cfg, net, addr, es);
      hide AllGenuine, Genuine, InOrder, IsSubsequence, Messages, FromAddr;
      var front, last := net[..|net| - 1], net[|net| - 1];
      var es' := if es[|es| - 1].at == |front| then es[..|es| - 1] else es;
      GenuineIsSubsequence(cfg, front, addr, es');
      SubsequenceGrows(Messages(es'), FromAddr(front, addr), last.payload);
      FromAddrLast(net, addr);
      MessagesLast(es);
    } else {
      assert Messages(es) == [];
    }
  }

  /**
   Isolation over any run: what an address's sessions receive, taken in creation
   order, is a subsequence of that address's datagrams in arrival order, each whole
   and of an allowed length; no channel ever exceeds its capacity.
   */
  lemma Isolation(cfg: Config, net: seq<Datagram>, steps: seq<Step>, addr: string)
    requires NetSound(net) && IsRun(cfg, Init(net), steps)
    ensures var s := After(cfg, Init(net), steps);
            && IsSubsequence(Messages(Received(s.sessions, addr)), FromAddr(net, addr))
            && (forall m <- Messages(Received(s.sessions, addr)) :: 1 <= |m| <= cfg.maxLength)
            && (forall sess <- s.sessions :: |sess.queue| <= cfg.buffer)
  {
    hide After, IsRun, Init, IsSubsequence;
    InitInv(cfg, net);
    InitNet(net);
    RunKeeps(cfg, Init(net), steps);
    var s := After(cfg, Init(net), steps);
    ReceivedInOrder(cfg, net, s.sessions, addr);
    ReceivedIsGenuine(cfg, net, s.sessions, addr);
    var es := Received(s.sessions, addr);
    GenuineIsSubsequence(cfg, net, addr, es);
    forall m <- Messages(es)
      ensures 1 <= |m| <= cfg.maxLength
    {
      var i :| 0 <= i < |es| && Messages(es)[i] == m;
      assert es[i] in es;
    }
    forall sess <- s.sessions
      ensures |sess.queue| <= cfg.buffer
    {
      assert SessionSound(cfg, net, sess);
    }
  }

  lemma InitNet(net: seq<Datagram>)
    ensures Init(net).net == net
  {
  }

  // ---- What becomes of every datagram

  /** The datagram that Serve has in hand. */
  function InHand(serve: Serve): Option<nat> {
    if serve.Reading? then None else Some(serve.entry.at)
  }

  /** Datagram k went onto some session's channel. */
  ghost predicate Logged(sessions: seq<Session>, k: nat) {
    exists i, e :: 0 <= i < |sessions| && e in Log(sessions[i]) && e.at == k
  }

  /** The datagrams lost because their address was not admitted or their channel was full. */
  function Dropped(cfg: Config, s: State, steps: seq<Step>): set<nat>
    requires IsRun(cfg, s, steps)
    decreases |steps|
  {
    if steps == [] then {} else DroppedBy(cfg, s, steps[0]) + Dropped(cfg, Udp.Next(cfg, s, steps[0]), steps[1..])
  }

  function DroppedBy(cfg: Config, s: State, step: Step): set<nat>
    requires Enabled(cfg, s, step)
  {
    match step
    case Refuse => {s.serve.entry.at}
    case Send => if |s.sessions[s.serve.i].queue| >= cfg.buffer then {s.serve.entry.at} else {}
    case _ => {}
  }

  /** Each datagram read so far, of an allowed length, is delivered, dropped or in hand, and only one of these. */
  ghost predicate Accounted(cfg: Config, s: State, dropped: set<nat>) {
    forall k: nat ::
      var logged, held := Logged(s.sessions, k), InHand(s.serve) == Some(k);
      && (logged || k in dropped || held <==> k < s.read && k < |s.net| && 1 <= |s.net[k].payload| <= cfg.maxLength)
      && !(logged && k in dropped) && !(held && logged) && !(held && k in dropped)
  }

  lemma SameLogged(sessions: seq<Session>, sessions': seq<Session>)
    requires |sessions| <= |sessions'|
    requires forall i :: 0 <= i < |sessions| ==> Log(sessions'[i]) == Log(sessions[i])
    requires forall i :: |sessions| <= i < |sessions'| ==> Log(sessions'[i]) == []
    ensures forall k: nat :: Logged(sessions', k) <==> Logged(sessions, k)
  {
    hide Log;
    forall k: nat
      ensures Logged(sessions', k) <==> Logged(sessions, k)
    {
      if Logged(sessions, k) {
        var i, e :| 0 <= i < |sessions| && e in Log(sessions[i]) && e.at == k;
        assert e in Log(sessions'[i]);
      }
    }
  }

  lemma OneMoreLogged(sessions: seq<Session>, i: nat, sess': Session, e: Entry)
    requires i < |sessions| && Log(sess') == Log(sessions[i]) + [e]
    ensures forall k: nat :: Logged(sessions[i := sess'], k) <==> Logged(sessions, k) || k == e.at
  {
    hide Log;
    var sessions' := sessions[i := sess'];
    forall k: nat
      ensures Logged(sessions', k) <==> Logged(sessions, k) || k == e.at
    {
      if Logged(sessions, k) {
        var j, f :| 0 <= j < |sessions| && f in Log(sessions[j]) && f.at == k;
        assert f in Log(sessions'[j]);
      }
      if Logged(sessions', k) {
        var j, f :| 0 <= j < |sessions'| && f in Log(sessions'[j]) && f.at == k;
        assert f in Log(sessions[j]) || f == e;
      }
      assert e in Log(sessions'[i]);
    }
  }

  lemma SendAccounted(cfg: Config, s: State, dropped: set<nat>)
    requires Accounted(cfg, s, dropped) && Enabled(cfg, s, Send)
    ensures Accounted(cfg, Udp.Next(cfg, s, Send), dropped + DroppedBy(cfg, s, Send))
  {
    hide Logged;
    var i, e := s.serve.i, s.serve.entry;
    var sess := s.sessions[i];
    if |sess.queue| < cfg.buffer {
      var sess' := sess.(queue := sess.queue + [e]);
      assert Log(sess') == Log(sess) + [e];
      OneMoreLogged(s.sessions, i, sess', e);
    }
  }

  lemma AccountedStep(cfg: Config, s: State, step: Step, dropped: set<nat>)
    requires Inv(cfg, s) && Accounted(cfg, s, dropped) && Enabled(cfg, s, step)
    ensures Accounted(cfg, Udp.Next(cfg, s, step), dropped + DroppedBy(cfg, s, step))
  {
    hide Logged, SessionsSound, SessionsInOrder, RegistrySound, Below, Genuine;
    var sessions' := Udp.Next(cfg, s, step).sessions;
    match step
    case Send => SendAccounted(cfg, s, dropped);
    case Receive =>
      assert s.net[s.read] in s.net;
      FilterIsWhole(cfg, s.net[s.read].payload);
      hide Filtered;
    case Create => SameLogged(s.sessions, sessions');
    case ReadMessage(i) =>
      assert Log(sessions'[i]) == Log(s.sessions[i]);
      SameLogged(s.sessions, sessions');
    case _ =>
  }

  lemma {:induction false} StaysAccounted(cfg: Config, s: State, steps: seq<Step>, dropped: set<nat>)
    requires Inv(cfg, s) && Accounted(cfg, s, dropped) && IsRun(cfg, s, steps)
    ensures Accounted(cfg, After(cfg, s, steps), dropped + Dropped(cfg, s, steps))
    decreases |steps|
  {
    hide Inv, Accounted, Enabled, Udp.Next, DroppedBy;
    if steps == [] {
      assert dropped + {} == dropped;
    } else {
      var s1, more := Udp.Next(cfg, s, steps[0]), DroppedBy(cfg, s, steps[0]);
      AccountedStep(cfg, s, steps[0], dropped);
      OneStepInv(cfg, s, steps[0]);
      StaysAccounted(cfg, s1, steps[1..], dropped + more);
      assert dropped + (more + Dropped(cfg, s1, steps[1..])) == dropped + more + Dropped(cfg, s1, steps[1..]);
    }
  }

  lemma OneStepInv(cfg: Config, s: State, step: Step)
    requires Inv(cfg, s) && Enabled(cfg, s, step)
    ensures Inv(cfg, Udp.Next(cfg, s, step))
  {
    hide Inv, Enabled, Udp.Next;
    assert [step][1..] == [];
    RunKeeps(cfg, s, [step]);
    assert After(cfg, s, [step]) == Udp.Next(cfg, s, step);
  }

  /**
   Over any run every datagram of an allowed length is accounted for: it is on a channel of its own
   address, whole, and only there, or it was refused or met a full channel, or it is in hand.
   */
  lemma Conservation(cfg: Config, net: seq<Datagram>, steps: seq<Step>)
    requires NetSound(net) && IsRun(cfg, Init(net), steps)
    ensures var s := After(cfg, Init(net), steps);
            && s.net == net
            && Accounted(cfg, s, Dropped(cfg, Init(net), steps))
            && (forall i :: 0 <= i < |s.sessions| ==>
                  forall e <- Log(s.sessions[i]) :: e.at < |net| && net[e.at] == Datagram(s.sessions[i].addr, e.message))
            && OnceOnly(s.sessions)
  {
    InitInv(cfg, net);
    assert forall k: nat :: !Logged([], k);
    assert Accounted(cfg, Init(net), {});
    hide After, IsRun, Logged, Dropped;
    RunKeeps(cfg, Init(net), steps);
    StaysAccounted(cfg, Init(net), steps, {});
    var s := After(cfg, Init(net), steps);
    assert {} + Dropped(cfg, Init(net), steps) == Dropped(cfg, Init(net), steps);
    assert forall i :: 0 <= i < |s.sessions| ==> s.sessions[i] in s.sessions;
    InOneLog(cfg, s);
  }

  /** No datagram is on two channels, or twice on one. */
  ghost predicate OnceOnly(sessions: seq<Session>) {
    forall i, j, x, y |
        && 0 <= i < |sessions| && 0 <= j < |sessions|
        && 0 <= x < |Log(sessions[i])| && 0 <= y < |Log(sessions[j])| ::
      Log(sessions[i])[x].at == Log(sessions[j])[y].at ==> i == j && x == y
  }

  lemma InOneLog(cfg: Config, s: State)
    requires Inv(cfg, s)
    ensures OnceOnly(s.sessions)
  {
    hide Log;
    forall i, j, x, y |
        && 0 <= i < |s.sessions| && 0 <= j < |s.sessions|
        && 0 <= x < |Log(s.sessions[i])| && 0 <= y < |Log(s.sessions[j])|
        && Log(s.sessions[i])[x].at == Log(s.sessions[j])[y].at
      ensures i == j && x == y
    {
      var a, b := s.sessions[i], s.sessions[j];
      assert a in s.sessions && b in s.sessions;
      assert Log(a)[x] in Log(a) && Log(b)[y] in Log(b);
      assert SessionSound(cfg, s.net, a) && SessionSound(cfg, s.net, b);
      assert a.addr == b.addr;
    }
  }

  /** The registry changes only by `add` and by a session's own unlisting, and those do change it. */
  lemma RegistryChanges(cfg: Config, s: State, step: Step, addr: string)
    requires Inv(cfg, s) && Enabled(cfg, s, step)
    ensures var s' := Udp.Next(cfg, s, step);
            var listed := addr in s.byAddr;
            if step.Add? && s.sessions[s.serve.i].addr == addr then
              addr in s'.byAddr && s'.byAddr[addr] == s.serve.i
            else if step.Unlist? && listed && s.byAddr[addr] == step.i then
              addr !in s'.byAddr
            else
              (addr in s'.byAddr <==> listed) && (listed ==> s'.byAddr[addr] == s.byAddr[addr])
  {
    hide SessionsSound, SessionsInOrder, ServeSound, Filtered;
  }
}
