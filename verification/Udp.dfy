/**
 UDP: one Serve loop turns datagrams into sessions' messages. The registry lookup,
 the creation of a session, `add` and the send on the session's channel are steps of
 their own, interleaved with sessions being unlisted and read.
 */
module Udp {
  import opened Bytes

  /** The largest UDP payload. */
  const MAX_UDP_PAYLOAD: nat := 65507

  datatype Config = Config(maxLength: nat, buffer: nat)

  datatype Datagram = Datagram(addr: string, payload: Bytes)

  /** A delivered message and the number of the datagram it came from. */
  datatype Entry = Entry(at: nat, message: Bytes)

  /** `queue` is the channel `in`; `got` is what readMessage has returned from it. */
  datatype Session = Session(addr: string, queue: seq<Entry>, got: seq<Entry>)

  datatype Serve =
    | Reading
    | Looking(addr: string, entry: Entry)
    | Opening(addr: string, entry: Entry)
    | Adding(i: nat, entry: Entry)
    | Sending(i: nat, entry: Entry)

  /** `read` datagrams of `net` have been read; sessions are numbered in the order they were created. */
  datatype State = State(net: seq<Datagram>, read: nat, serve: Serve, sessions: seq<Session>, byAddr: map<string, nat>)

  function Init(net: seq<Datagram>): State {
    State(net, 0, Reading, [], map[])
  }

  datatype Step =
    | Receive
    | Lookup
    | Refuse
    | Create
    | Add
    | Send
    | Unlist(i: nat)
    | ReadMessage(i: nat)

  /** With a byte to spare, a read that fills the buffer can only be of a datagram that is too long. */
  function BufferLength(cfg: Config): (n: nat)
    ensures n <= cfg.maxLength + 1 && n <= 65508
    ensures n == cfg.maxLength + 1 || n == 65508
  {
    (if cfg.maxLength < MAX_UDP_PAYLOAD then cfg.maxLength else MAX_UDP_PAYLOAD) + 1
  }

  /** What Serve's read and size filter leave of a datagram: the socket drops what does not fit the buffer. */
  function Filtered(cfg: Config, payload: Bytes): Option<Bytes> {
    var n := if |payload| < BufferLength(cfg) then |payload| else BufferLength(cfg);
    if n == 0 || n > cfg.maxLength then None else Some(payload[..n])
  }

  predicate Enabled(cfg: Config, s: State, step: Step) {
    match step
    case Receive => s.serve.Reading? && s.read < |s.net|
    case Lookup => s.serve.Looking?
    case Refuse => s.serve.Opening?
    case Create => s.serve.Opening?
    case Add => s.serve.Adding? && s.serve.i < |s.sessions|
    case Send => s.serve.Sending? && s.serve.i < |s.sessions|
    case Unlist(i) => i < |s.sessions|
    case ReadMessage(i) => i < |s.sessions| && s.sessions[i].queue != []
  }

  function Next(cfg: Config, s: State, step: Step): State
    requires Enabled(cfg, s, step)
  {
    match step
    case Receive =>
      var d := s.net[s.read];
      var message := Filtered(cfg, d.payload);
      s.(read := s.read + 1,
         serve := if message.None? then Reading else Looking(d.addr, Entry(s.read, message.value)))
    case Lookup =>
      var a := s.serve.addr;
      s.(serve := if a in s.byAddr then Sending(s.byAddr[a], s.serve.entry) else Opening(a, s.serve.entry))
    case Refuse => s.(serve := Reading)
    case Create =>
      s.(sessions := s.sessions + [Session(s.serve.addr, [], [])], serve := Adding(|s.sessions|, s.serve.entry))
    case Add =>
      s.(byAddr := s.byAddr[s.sessions[s.serve.i].addr := s.serve.i], serve := Sending(s.serve.i, s.serve.entry))
    case Send =>
      var i := s.serve.i;
      var sess := s.sessions[i];
      s.(serve := Reading,
         sessions := if |sess.queue| < cfg.buffer
                     then s.sessions[i := sess.(queue := sess.queue + [s.serve.entry])]
                     else s.sessions)
    case Unlist(i) =>
      var a := s.sessions[i].addr;
      if a in s.byAddr && s.byAddr[a] == i then s.(byAddr := s.byAddr - {a}) else s
    case ReadMessage(i) =>
      var sess := s.sessions[i];
      s.(sessions := s.sessions[i := sess.(queue := sess.queue[1..], got := sess.got + [sess.queue[0]])])
  }

  predicate IsRun(cfg: Config, s: State, steps: seq<Step>)
    decreases |steps|
  {
    steps == [] || (Enabled(cfg, s, steps[0]) && IsRun(cfg, Next(cfg, s, steps[0]), steps[1..]))
  }

  function After(cfg: Config, s: State, steps: seq<Step>): State
    requires IsRun(cfg, s, steps)
    decreases |steps|
  {
    if steps == [] then s else After(cfg, Next(cfg, s, steps[0]), steps[1..])
  }

  /** Everything ever put on the session's channel. */
  function Log(sess: Session): seq<Entry> {
    sess.got + sess.queue
  }

  /** The entry is a whole datagram from this address, of an allowed length. */
  predicate Genuine(cfg: Config, net: seq<Datagram>, addr: string, e: Entry) {
    && e.at < |net|
    && net[e.at] == Datagram(addr, e.message)
    && 1 <= |e.message| <= cfg.maxLength
  }

  ghost predicate InOrder(log: seq<Entry>) {
    forall j, k :: 0 <= j < k < |log| ==> log[j].at < log[k].at
  }

  ghost predicate SessionSound(cfg: Config, net: seq<Datagram>, sess: Session) {
    && |sess.queue| <= cfg.buffer
    && InOrder(Log(sess))
    && forall e <- Log(sess) :: Genuine(cfg, net, sess.addr, e)
  }

  ghost predicate SessionsSound(cfg: Config, net: seq<Datagram>, sessions: seq<Session>) {
    forall sess <- sessions :: SessionSound(cfg, net, sess)
  }

  /** Of two sessions of one address the later got only later datagrams. */
  ghost predicate SessionsInOrder(sessions: seq<Session>) {
    forall i, j :: 0 <= i < j < |sessions| && sessions[i].addr == sessions[j].addr ==>
      forall e <- Log(sessions[i]), f <- Log(sessions[j]) :: e.at < f.at
  }

  /** No later session has this one's address. */
  ghost predicate IsLatest(sessions: seq<Session>, i: nat) {
    && i < |sessions|
    && forall j :: i < j < |sessions| ==> sessions[j].addr != sessions[i].addr
  }

  ghost predicate RegistrySound(byAddr: map<string, nat>, sessions: seq<Session>) {
    forall a <- byAddr :: IsLatest(sessions, byAddr[a]) && sessions[byAddr[a]].addr == a
  }

  /** All logged entries came from datagrams numbered below `bound`. */
  ghost predicate Below(sessions: seq<Session>, bound: nat) {
    forall sess <- sessions :: forall e <- Log(sess) :: e.at < bound
  }

  ghost predicate ServeSound(cfg: Config, s: State) {
    && s.read <= |s.net|
    && match s.serve
       case Reading => Below(s.sessions, s.read)
       case Looking(a, e) => Genuine(cfg, s.net, a, e) && e.at + 1 == s.read && Below(s.sessions, e.at)
       case Opening(a, e) => a !in s.byAddr && Genuine(cfg, s.net, a, e) && e.at + 1 == s.read && Below(s.sessions, e.at)
       case Adding(i, e) =>
         IsLatest(s.sessions, i) && Genuine(cfg, s.net, s.sessions[i].addr, e) && e.at + 1 == s.read && Below(s.sessions, e.at)
       case Sending(i, e) =>
         IsLatest(s.sessions, i) && Genuine(cfg, s.net, s.sessions[i].addr, e) && e.at + 1 == s.read && Below(s.sessions, e.at)
  }

  /** No datagram is larger than UDP allows. */
  ghost predicate NetSound(net: seq<Datagram>) {
    forall d <- net :: |d.payload| <= MAX_UDP_PAYLOAD
  }

  ghost predicate Inv(cfg: Config, s: State) {
    NetSound(s.net) && SessionsSound(cfg, s.net, s.sessions) && SessionsInOrder(s.sessions) && RegistrySound(s.byAddr, s.sessions) && ServeSound(cfg, s)
  }

  /** The filter passes whole datagrams only: what the buffer would cut is dropped as too long. */
  lemma FilterIsWhole(cfg: Config, payload: Bytes)
    requires |payload| <= 65507
    ensures Filtered(cfg, payload) == if 1 <= |payload| <= cfg.maxLength then Some(payload) else None
  {
    assert payload[..|payload|] == payload;
  }

  lemma InitInv(cfg: Config, net: seq<Datagram>)
    requires NetSound(net)
    ensures Inv(cfg, Init(net))
  {
  }

  lemma ServeKeeps(cfg: Config, s: State, step: Step)
    requires Inv(cfg, s) && Enabled(cfg, s, step) && (step.Receive? || step.Lookup? || step.Refuse? || step.Add?)
    ensures Inv(cfg, Next(cfg, s, step))
  {
    hide SessionSound, SessionsInOrder, Log;
    if step.Receive? {
      var d := s.net[s.read];
      assert d in s.net;
      FilterIsWhole(cfg, d.payload);
      hide Filtered;
      assert d == Datagram(d.addr, d.payload);
      assert Below(s.sessions, s.read + 1);
    }
  }

  lemma AppendSession(cfg: Config, net: seq<Datagram>, sessions: seq<Session>, addr: string, bound: nat)
    requires SessionsSound(cfg, net, sessions) && SessionsInOrder(sessions) && Below(sessions, bound)
    ensures var sessions' := sessions + [Session(addr, [], [])];
            SessionsSound(cfg, net, sessions') && SessionsInOrder(sessions') && Below(sessions', bound)
  {
    var added := Session(addr, [], []);
    assert Log(added) == [];
    assert SessionSound(cfg, net, added);
    hide SessionSound, Log, Genuine;
    assert forall sess <- sessions + [added] :: sess in sessions || sess == added;
  }

  lemma CreateKeeps(cfg: Config, s: State)
    requires Inv(cfg, s) && Enabled(cfg, s, Create)
    ensures Inv(cfg, Next(cfg, s, Create))
  {
    AppendSession(cfg, s.net, s.sessions, s.serve.addr, s.serve.entry.at);
    hide SessionsSound, SessionsInOrder, Below, Genuine;
  }

  /** The channel takes the entry or the datagram is dropped; either way order holds. */
  lemma SendKeeps(cfg: Config, s: State)
    requires Inv(cfg, s) && Enabled(cfg, s, Send)
    ensures Inv(cfg, Next(cfg, s, Send))
  {
    var i, e := s.serve.i, s.serve.entry;
    var sess := s.sessions[i];
    var s' := Next(cfg, s, Send);
    if |sess.queue| < cfg.buffer {
      var sess' := sess.(queue := sess.queue + [e]);
      assert Log(sess') == Log(sess) + [e];
      assert sess in s.sessions;
      assert SessionSound(cfg, s.net, sess');
      SwapSession(cfg, s, i, sess', e);
    } else {
      hide SessionSound, SessionsInOrder, Log;
    }
  }

  /** One more entry, later than all, at the end of the latest session of its address. */
  lemma SwapSession(cfg: Config, s: State, i: nat, sess': Session, e: Entry)
    requires Inv(cfg, s) && IsLatest(s.sessions, i) && Below(s.sessions, e.at) && e.at < s.read && s.serve.Sending?
    requires sess'.addr == s.sessions[i].addr && SessionSound(cfg, s.net, sess')
    requires Log(sess') == Log(s.sessions[i]) + [e]
    ensures Inv(cfg, s.(serve := Reading, sessions := s.sessions[i := sess']))
  {
    hide SessionSound, Log, Genuine;
    var s' := s.(serve := Reading, sessions := s.sessions[i := sess']);
    assert forall x <- s'.sessions :: x in s.sessions || x == sess';
    assert s.sessions[i] in s.sessions;
    assert forall f <- Log(sess') :: f in Log(s.sessions[i]) || f == e;
    assert forall x <- s.sessions :: forall f <- Log(x) :: f.at < e.at;
    assert SessionsInOrder(s'.sessions);
    assert Below(s'.sessions, s.read);
  }

  lemma SameLogs(cfg: Config, s: State, i: nat, sess': Session)
    requires Inv(cfg, s) && i < |s.sessions| && sess'.addr == s.sessions[i].addr
    requires Log(sess') == Log(s.sessions[i]) && |sess'.queue| <= cfg.buffer
    ensures Inv(cfg, s.(sessions := s.sessions[i := sess']))
  {
    var sessions' := s.sessions[i := sess'];
    assert s.sessions[i] in s.sessions;
    assert SessionSound(cfg, s.net, sess');
    hide SessionSound, Log, Genuine;
    assert forall x <- sessions' :: x in s.sessions || x == sess';
    assert SessionsSound(cfg, s.net, sessions') && SessionsInOrder(sessions');
    assert forall j :: IsLatest(s.sessions, j) ==> IsLatest(sessions', j);
    assert forall b :: Below(s.sessions, b) ==> Below(sessions', b);
    hide SessionsSound, SessionsInOrder, IsLatest, Below;
  }

  lemma OthersKeep(cfg: Config, s: State, step: Step)
    requires Inv(cfg, s) && Enabled(cfg, s, step) && (step.Unlist? || step.ReadMessage?)
    ensures Inv(cfg, Next(cfg, s, step))
  {
    if step.Unlist? {
      hide SessionSound, SessionsInOrder, Log, Genuine;
    } else {
      var sess := s.sessions[step.i];
      assert sess in s.sessions && SessionSound(cfg, s.net, sess);
      var sess' := sess.(queue := sess.queue[1..], got := sess.got + [sess.queue[0]]);
      assert Log(sess') == Log(sess);
      hide Inv;
      SameLogs(cfg, s, step.i, sess');
    }
  }

  lemma {:induction false} RunKeeps(cfg: Config, s: State, steps: seq<Step>)
    requires Inv(cfg, s) && IsRun(cfg, s, steps)
    ensures Inv(cfg, After(cfg, s, steps)) && After(cfg, s, steps).net == s.net
    decreases |steps|
  {
    if steps != [] {
      assert Next(cfg, s, steps[0]).net == s.net;
      hide Inv, Next;
      match steps[0] {
        case Create => CreateKeeps(cfg, s);
        case Send => SendKeeps(cfg, s);
        case Unlist(_) => OthersKeep(cfg, s, steps[0]);
        case ReadMessage(_) => OthersKeep(cfg, s, steps[0]);
        case _ => ServeKeeps(cfg, s, steps[0]);
      }
      RunKeeps(cfg, Next(cfg, s, steps[0]), steps[1..]);
    }
  }
}
