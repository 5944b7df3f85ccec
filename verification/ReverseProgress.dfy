// Success of a reverse-forwarded connection stays within reach: as long as both loops run
// and route it, and its bridges are in their loops, it can go on to end on both sides with
// everything delivered both ways, whatever the other connections do; and a new connection
// can always be joined.
module ReverseProgress {
  import opened Common
  import opened Channel
  import B = Bridge
  import opened ReverseForward

  // ---- nothing unexpected is ever put on the stream ----

  predicate Speaks(m: Message) {
    m.body.Conn? && (m.body.event.Data? || m.body.event.Close?)
  }

  ghost predicate Talk(s: State) {
    && (forall i :: 0 <= i < |s.client.sent| ==> Speaks(s.client.sent[i]))
    && (forall i :: 0 <= i < |s.agent.sent| ==> s.agent.sent[i].body.Connected? || Speaks(s.agent.sent[i]))
  }

  lemma EmitsDataOrClose(b: B.Bridge, data: Bytes, head: Option<Event>, hung: bool, step: B.Step, m: Move<B.Bridge>)
    requires B.Sent(b, data) && B.BridgeMove(b, head, hung, step) == Some(m)
    ensures m.emits.Some? ==> m.emits.value.Data? || m.emits.value.Close?
  {}

  lemma {:induction false} MoveSpeaks(d: Side, id: nat, move: B.Step, t: Side)
    requires SideInv(d) && MovedBridge(d, id, move) == Some(t)
    ensures t.got == d.got && t.routes == d.routes && t.running == d.running
    ensures t.sent == d.sent || (|t.sent| == |d.sent| + 1 && d.sent <= t.sent && Speaks(t.sent[|d.sent|]))
  {
    hide B.BridgeMove, B.Got, Shape;
    EndAt(d, id);
    var e := d.ends[id];
    var hung := !d.running || id !in d.routes;
    var m := B.BridgeMove(e.bridge, Head(e.given, e.got), hung, move).value;
    EmitsDataOrClose(e.bridge, DataOf(e.sent), Head(e.given, e.got), hung, move, m);
    assert t == WithMove(d, id, m);
  }

  lemma {:induction false} StepKeepsTalk(s: State, step: Step, t: State)
    requires Inv(s) && Talk(s) && Next(s, step) == Some(t)
    ensures Talk(t)
  {
    hide SideInv, MovedBridge;
    match step
    case AgentBridge(id, move) => MoveSpeaks(s.agent, id, move, t.agent);
    case ClientBridge(id, move) => MoveSpeaks(s.client, id, move, t.client);
    case AgentTakes => LoopFrames(s.agent, s.client.sent[|s.agent.got|]);
    case ClientTakes => LoopFrames(s.client, s.agent.sent[|s.client.got|]);
    case _ =>
  }

  ghost predicate Good(s: State) {
    Inv(s) && Talk(s)
  }

  lemma {:induction false} StepKeepsGood(s: State, step: Step, t: State)
    requires Good(s) && Next(s, step) == Some(t)
    ensures Good(t)
  {
    hide Inv, Talk, Next;
    StepKeepsInv(s, step, t);
    StepKeepsTalk(s, step, t);
  }

  lemma {:induction false} RunsAreGood(steps: seq<Step>, s: State)
    requires Runs(INIT, steps, s)
    ensures Good(s)
    decreases |steps|
  {
    hide Inv, Talk, Next;
    if steps == [] {
      RunsKeepInv([], INIT);
      InitTalks();
    } else {
      var front := |steps| - 1;
      var m :| Runs(INIT, steps[..front], m) && Next(m, steps[front]) == Some(s);
      RunsAreGood(steps[..front], m);
      StepKeepsGood(m, steps[front], s);
    }
  }

  lemma InitTalks()
    ensures Talk(INIT)
  {}

  // ---- runs that go on ----

  ghost predicate Reaches(s: State, t: State) {
    exists steps :: Runs(s, steps, t)
  }

  lemma ReachesSelf(s: State)
    ensures Reaches(s, s)
  {
    assert Runs(s, [], s);
  }

  lemma {:induction false} ReachesOn(s: State, m: State, step: Step, t: State)
    requires Reaches(s, m) && Next(m, step) == Some(t)
    ensures Reaches(s, t)
  {
    hide Next;
    var steps :| Runs(s, steps, m);
    var all := steps + [step];
    assert all[..|all| - 1] == steps;
    assert Runs(s, all, t);
  }

  lemma {:induction false} RunsOn(s: State, a: seq<Step>, m: State, b: seq<Step>, t: State)
    requires Runs(s, a, m) && Runs(m, b, t)
    ensures Runs(s, a + b, t)
    decreases |b|
  {
    hide Next;
    if b == [] {
      assert a + b == a;
    } else {
      var front := |b| - 1;
      var n :| Runs(m, b[..front], n) && Next(n, b[front]) == Some(t);
      RunsOn(s, a, m, b[..front], n);
      assert (a + b)[..|a + b| - 1] == a + b[..front];
    }
  }

  // ---- one bridge ----

  predicate Ready(b: B.Bridge) {
    B.Live(b) || b.phase.BConnecting?
  }

  // What a bridge can do next by itself; None when it waits for its partner.
  function BridgeTodo(e: End): Option<B.Step> {
    match e.bridge.phase
    case BConnecting => Some(B.Connect(true))
    case BSending(_) => Some(B.Send(true))
    case BWriting(rest) => Some(B.Writes(|rest|))
    case BIdle =>
      if Head(e.given, e.got).Some? then Some(B.Takes(true))
      else if !e.bridge.readClosed then Some(B.ReadEof)
      else None
    case _ => None
  }

  function BridgeWork(b: B.Bridge): nat {
    (match b.phase case BConnecting => 1 case BSending(_) => 4 case BWriting(_) => 1 case _ => 0)
    + (if b.readClosed then 0 else 5)
  }

  function Gap(all: nat, done: nat): nat {
    if done <= all then all - done else 0
  }

  function EndWork(e: End): nat {
    BridgeWork(e.bridge) + 2 * Gap(|e.given|, |e.got|)
  }

  // The bridge is in its loop and what it takes next is data or the half-close.
  predicate EndReady(e: End) {
    && Ready(e.bridge) && |e.got| <= |e.given|
    && (e.bridge.phase.BSending? ==> e.bridge.phase.event.Data? || e.bridge.phase.event == HALF)
    && (|e.got| < |e.given| ==>
          !e.bridge.writeClosed && (e.given[|e.got|].Data? || e.given[|e.got|] == HALF))
  }

  lemma {:induction false} BridgeGoesOn(e: End, hung: bool)
    requires EndReady(e) && BridgeTodo(e).Some?
    ensures BridgeCan(e, hung, BridgeTodo(e).value)
  {
    hide BridgeCan;
    match e.bridge.phase
    case BWriting(rest) => WritesGoOn(e, hung);
    case BIdle => if Head(e.given, e.got).Some? { TakesGoOn(e, hung); } else { ReadsGoOn(e, hung); }
    case _ => SendsGoOn(e, hung);
  }

  // The bridge can take the step, stays ready and has less to do.
  ghost predicate BridgeCan(e: End, hung: bool, move: B.Step) {
    var m := B.BridgeMove(e.bridge, Head(e.given, e.got), hung, move);
    && m.Some? && Ready(m.value.peer) && m.value.peer.read == e.bridge.read
    && Moved(e, m.value).given == e.given && |Moved(e, m.value).got| <= |e.given|
    && EndWork(Moved(e, m.value)) + (if m.value.emits.Some? then 3 else 0) < EndWork(e)
  }

  lemma TakesGoOn(e: End, hung: bool)
    requires EndReady(e) && e.bridge.phase.BIdle? && Head(e.given, e.got).Some?
    ensures BridgeCan(e, hung, B.Takes(true))
  {}

  lemma ReadsGoOn(e: End, hung: bool)
    requires EndReady(e) && e.bridge.phase.BIdle? && !e.bridge.readClosed
    ensures BridgeCan(e, hung, B.ReadEof)
  {}

  lemma WritesGoOn(e: End, hung: bool)
    requires EndReady(e) && e.bridge.phase.BWriting?
    ensures BridgeCan(e, hung, B.Writes(|e.bridge.phase.rest|))
  {
    assert e.bridge.phase.rest[|e.bridge.phase.rest|..] == [];
  }

  lemma SendsGoOn(e: End, hung: bool)
    requires EndReady(e) && (e.bridge.phase.BSending? || e.bridge.phase.BConnecting?)
    ensures BridgeCan(e, hung, if e.bridge.phase.BSending? then B.Send(true) else B.Connect(true))
  {}

  // ---- one connection ----

  predicate Joined(s: State, id: nat) {
    && s.agent.running && id in s.agent.routes && id in s.agent.ends && Ready(s.agent.ends[id].bridge)
    && s.client.running && id in s.client.routes && id in s.client.ends && Ready(s.client.ends[id].bridge)
  }

  // What is on the stream and not yet taken by the loops.
  function Pending(s: State): nat {
    Gap(|s.agent.sent|, |s.client.got|) + Gap(|s.client.sent|, |s.agent.got|)
  }

  function Work(s: State, id: nat): nat
    requires id in s.agent.ends && id in s.client.ends
  {
    EndWork(s.agent.ends[id]) + EndWork(s.client.ends[id]) + 3 * Pending(s)
  }

  function Todo(s: State, id: nat): Option<Step>
    requires id in s.agent.ends && id in s.client.ends
  {
    if |s.client.got| < |s.agent.sent| then Some(ClientTakes)
    else if |s.agent.got| < |s.client.sent| then Some(AgentTakes)
    else
      match BridgeTodo(s.agent.ends[id])
      case Some(move) => Some(AgentBridge(id, move))
      case None =>
        match BridgeTodo(s.client.ends[id])
        case Some(move) => Some(ClientBridge(id, move))
        case None => None
  }

  // The inbox of one end against the stream of its partner.
  lemma {:induction false} EndFacts(d: Side, peer: Side, id: nat)
    requires SideInv(d) && SideInv(peer) && d.got <= peer.sent
    requires id in d.ends && id in d.routes && id in peer.ends
    requires Ready(d.ends[id].bridge) && Ready(peer.ends[id].bridge)
    ensures EndReady(d.ends[id])
    ensures d.ends[id].bridge.phase.BIdle? ==> d.ends[id].bridge.readClosed == d.ends[id].bridge.halfSent
    ensures d.ends[id].given == ForId(d.got, id) && ForId(peer.sent, id) == peer.ends[id].sent
    ensures Shape(peer.ends[id].sent, peer.ends[id].bridge.halfSent, None)
    ensures d.ends[id].got == d.ends[id].given == peer.ends[id].sent ==>
              d.ends[id].bridge.writeClosed == peer.ends[id].bridge.halfSent
  {
    hide SideInv, Shape, DataOf;
    EndAt(d, id);
    EndAt(peer, id);
    SentOf(peer, id);
    ForIdPrefix(d.got, peer.sent, id);
    var e, p := d.ends[id], peer.ends[id];
    NextInShape(p.sent, p.bridge.halfSent, e.got, e.bridge.writeClosed);
  }

  lemma SentOf(d: Side, id: nat)
    requires SideInv(d) && id in d.ends
    ensures ForId(d.sent, id) == d.ends[id].sent
  {}

  // What the client's loop takes next for a joined connection is no final close.
  lemma {:induction false} NextForId(d: Side, peer: Side, id: nat)
    requires SideInv(d) && SideInv(peer) && d.got < peer.sent
    requires id in d.ends && id in d.routes && id in peer.ends
    requires Ready(d.ends[id].bridge) && Ready(peer.ends[id].bridge)
    ensures var m := peer.sent[|d.got|]; m.id == id && m.body.Conn? ==> m.body.event.Data? || m.body.event == HALF
  {
    hide SideInv, DataOf;
    EndFacts(d, peer, id);
    var m := peer.sent[|d.got|];
    ForIdSnoc(d.got, m, id);
    assert d.got + [m] <= peer.sent;
    ForIdPrefix(d.got + [m], peer.sent, id);
    var given, sent, half := d.ends[id].given, peer.ends[id].sent, peer.ends[id].bridge.halfSent;
    if m.id == id && m.body.Conn? {
      assert sent[|given|] == m.body.event;
      ShapeAt(sent, half, |given|);
    }
  }

  lemma ShapeAt(h: seq<Event>, half: bool, i: nat)
    requires Shape(h, half, None) && i < |h|
    ensures h[i].Data? || h[i] == HALF
  {
    var n := |h| - (if half then 1 else 0);
    assert forall k :: 0 <= k < n ==> h[..n][k] == h[k];
  }

  // A loop that takes a message goes on, and a joined connection stays joined: its inbox
  // gets the event, if the message is for it.
  lemma {:induction false} AgentLoopGoesOn(d: Side, m: Message, id: nat)
    requires d.running && Speaks(m) && id in d.ends && id in d.routes && Ready(d.ends[id].bridge)
    ensures var t := AgentLoop(d, m);
            && t.running && id in t.routes && id in t.ends
            && t.ends[id].bridge == d.ends[id].bridge && t.ends[id].got == d.ends[id].got
            && |t.ends[id].given| <= |d.ends[id].given| + 1 && d.ends[id].given <= t.ends[id].given
  {}

  lemma {:induction false} ClientLoopGoesOn(d: Side, m: Message, id: nat)
    requires d.running && id in d.ends && id in d.routes && Ready(d.ends[id].bridge)
    requires Speaks(m) || (m.body == Connected(true) && m.id != 0 && m.id !in d.ends)
    requires m.id == id && m.body.Conn? ==> m.body.event.Data? || m.body.event == HALF
    ensures var t := ClientLoop(d, m);
            && t.running && id in t.routes && id in t.ends
            && t.ends[id].bridge == d.ends[id].bridge && t.ends[id].got == d.ends[id].got
            && |t.ends[id].given| <= |d.ends[id].given| + 1 && d.ends[id].given <= t.ends[id].given
  {}

  // What the client takes next is something it goes on after.
  lemma {:induction false} NextForClient(s: State)
    requires Good(s) && |s.client.got| < |s.agent.sent|
    ensures var m := s.agent.sent[|s.client.got|];
            Speaks(m) || (m.body == Connected(true) && m.id != 0 && m.id !in s.client.ends)
  {
    hide SideInv, ForId;
    NextIsOrdered(s.client.got, s.agent.sent);
  }

  // The step can be taken, keeps the connection joined and leaves less to be done.
  ghost predicate GoesOn(s: State, id: nat, step: Step)
    requires Joined(s, id)
  {
    var next := Next(s, step);
    && next.Some? && Joined(next.value, id)
    && var t := next.value;
       && Work(t, id) < Work(s, id)
       && t.agent.ends[id].bridge.read == s.agent.ends[id].bridge.read
       && t.client.ends[id].bridge.read == s.client.ends[id].bridge.read
  }

  lemma InvOrders(s: State, id: nat)
    requires Inv(s) && Joined(s, id)
    ensures |s.client.got| <= |s.agent.sent| && |s.agent.got| <= |s.client.sent|
    ensures |s.agent.ends[id].got| <= |s.agent.ends[id].given|
    ensures |s.client.ends[id].got| <= |s.client.ends[id].given|
  {
    hide B.Inv;
    EndAt(s.agent, id);
    EndAt(s.client, id);
  }

  lemma {:induction false} TakeGoesOn(s: State, id: nat)
    requires Good(s) && Joined(s, id)
    ensures |s.client.got| < |s.agent.sent| ==> GoesOn(s, id, ClientTakes)
    ensures |s.agent.got| < |s.client.sent| ==> GoesOn(s, id, AgentTakes)
  {
    hide SideInv, AgentLoop, ClientLoop, Ordered, Announced;
    InvOrders(s, id);
    if |s.client.got| < |s.agent.sent| {
      var m := s.agent.sent[|s.client.got|];
      NextForClient(s);
      NextForId(s.client, s.agent, id);
      ClientLoopGoesOn(s.client, m, id);
      LoopFrames(s.client, m);
    }
    if |s.agent.got| < |s.client.sent| {
      var m := s.client.sent[|s.agent.got|];
      AgentLoopGoesOn(s.agent, m, id);
      LoopFrames(s.agent, m);
    }
  }

  lemma {:induction false} BridgesGoOn(s: State, id: nat)
    requires Good(s) && Joined(s, id)
    ensures BridgeTodo(s.agent.ends[id]).Some? ==> GoesOn(s, id, AgentBridge(id, BridgeTodo(s.agent.ends[id]).value))
    ensures BridgeTodo(s.client.ends[id]).Some? ==> GoesOn(s, id, ClientBridge(id, BridgeTodo(s.client.ends[id]).value))
  {
    hide SideInv, B.BridgeMove, Ordered, Announced, BridgeTodo, EndWork, EndReady;
    InvOrders(s, id);
    EndFacts(s.agent, s.client, id);
    EndFacts(s.client, s.agent, id);
    if BridgeTodo(s.agent.ends[id]).Some? {
      var step := AgentBridge(id, BridgeTodo(s.agent.ends[id]).value);
      BridgeGoesOn(s.agent.ends[id], false);
    }
    if BridgeTodo(s.client.ends[id]).Some? {
      var step := ClientBridge(id, BridgeTodo(s.client.ends[id]).value);
      BridgeGoesOn(s.client.ends[id], false);
    }
  }

  lemma {:induction false} TodoGoesOn(s: State, id: nat)
    requires Good(s) && Joined(s, id) && Todo(s, id).Some?
    ensures GoesOn(s, id, Todo(s, id).value)
  {
    hide GoesOn, BridgeTodo, Inv, Talk;
    TakeGoesOn(s, id);
    BridgesGoOn(s, id);
    InvOrders(s, id);
  }

  // Nothing is left to do but to end: both sockets have ended and both know it of the other.
  predicate Settled(s: State, id: nat)
    requires id in s.agent.ends && id in s.client.ends
  {
    var a, c := s.agent.ends[id].bridge, s.client.ends[id].bridge;
    && a.phase.BIdle? && a.readClosed && a.writeClosed
    && c.phase.BIdle? && c.readClosed && c.writeClosed
  }

  lemma {:induction false} NothingTodo(s: State, id: nat)
    requires Good(s) && Joined(s, id) && Todo(s, id).None?
    ensures Settled(s, id)
  {
    hide SideInv;
    InvOrders(s, id);
    EndFacts(s.agent, s.client, id);
    EndFacts(s.client, s.agent, id);
    assert s.client.got == s.agent.sent && s.agent.got == s.client.sent;
    Drained(s.agent.ends[id]);
    Drained(s.client.ends[id]);
    EndAt(s.agent, id);
    EndAt(s.client, id);
  }

  lemma Drained(e: End)
    requires EndReady(e) && BridgeTodo(e).None?
    ensures |e.got| == |e.given| && e.bridge.phase.BIdle? && e.bridge.readClosed
  {}

  predicate Over(b: B.Bridge) {
    b.phase.BDone? && b.writeClosed && b.readClosed
  }

  // The last two steps of a bridge.
  lemma BridgeEnds(e: End, hung: bool)
    requires e.bridge.phase.BIdle? && e.bridge.readClosed && e.bridge.writeClosed
    ensures var m := B.BridgeMove(e.bridge, Head(e.given, e.got), hung, B.BothClosed);
            && m.Some?
            && var mid := Moved(e, m.value);
               var n := B.BridgeMove(mid.bridge, Head(mid.given, mid.got), hung, B.SendLast(true));
               && n.Some? && Over(n.value.peer) && n.value.peer.read == e.bridge.read
               && n.value.emits == Some(FULL)
  {}

  lemma {:induction false} AgentEnds(s0: State, s: State, id: nat) returns (t: State)
    requires Reaches(s0, s) && id in s.agent.ends
    requires s.agent.ends[id].bridge.phase.BIdle? && s.agent.ends[id].bridge.readClosed
    requires s.agent.ends[id].bridge.writeClosed
    ensures Reaches(s0, t) && t.client == s.client && id in t.agent.ends
    ensures Over(t.agent.ends[id].bridge) && t.agent.ends[id].bridge.read == s.agent.ends[id].bridge.read
  {
    hide B.BridgeMove, Reaches;
    BridgeEnds(s.agent.ends[id], !s.agent.running || id !in s.agent.routes);
    var m := Next(s, AgentBridge(id, B.BothClosed)).value;
    ReachesOn(s0, s, AgentBridge(id, B.BothClosed), m);
    t := Next(m, AgentBridge(id, B.SendLast(true))).value;
    ReachesOn(s0, m, AgentBridge(id, B.SendLast(true)), t);
  }

  lemma {:induction false} ClientEnds(s0: State, s: State, id: nat) returns (t: State)
    requires Reaches(s0, s) && id in s.client.ends
    requires s.client.ends[id].bridge.phase.BIdle? && s.client.ends[id].bridge.readClosed
    requires s.client.ends[id].bridge.writeClosed
    ensures Reaches(s0, t) && t.agent == s.agent && id in t.client.ends
    ensures Over(t.client.ends[id].bridge) && t.client.ends[id].bridge.read == s.client.ends[id].bridge.read
  {
    hide B.BridgeMove, Reaches;
    BridgeEnds(s.client.ends[id], !s.client.running || id !in s.client.routes);
    var m := Next(s, ClientBridge(id, B.BothClosed)).value;
    ReachesOn(s0, s, ClientBridge(id, B.BothClosed), m);
    t := Next(m, ClientBridge(id, B.SendLast(true))).value;
    ReachesOn(s0, m, ClientBridge(id, B.SendLast(true)), t);
  }

  lemma {:induction false} CanFinish(s0: State, s: State, id: nat) returns (t: State)
    requires Reaches(s0, s) && Good(s) && Joined(s, id)
    ensures Reaches(s0, t) && id in t.agent.ends && id in t.client.ends
    ensures Over(t.agent.ends[id].bridge) && Over(t.client.ends[id].bridge)
    ensures t.agent.ends[id].bridge.read == s.agent.ends[id].bridge.read
    ensures t.client.ends[id].bridge.read == s.client.ends[id].bridge.read
    decreases Work(s, id)
  {
    hide Inv, Talk, Reaches, Next, Todo, BridgeTodo, Work;
    InvOrders(s, id);
    var step := Todo(s, id);
    if step.None? {
      NothingTodo(s, id);
      var m := AgentEnds(s0, s, id);
      t := ClientEnds(s0, m, id);
    } else {
      TodoGoesOn(s, id);
      var m := Next(s, step.value).value;
      ReachesOn(s0, s, step.value, m);
      StepKeepsGood(s, step.value, m);
      t := CanFinish(s0, m, id);
    }
  }

  // In every run: as long as both loops run and the connection is joined, it can still end
  // on both sides with everything that was read delivered to the other side, whatever the
  // other connections have put on the stream.
  lemma {:induction false} SuccessStaysPossible(steps: seq<Step>, s: State, id: nat) returns (all: seq<Step>, t: State)
    requires Runs(INIT, steps, s) && Joined(s, id)
    ensures Runs(INIT, all, t) && id in t.agent.ends && id in t.client.ends
    ensures Over(t.agent.ends[id].bridge) && Over(t.client.ends[id].bridge)
    ensures t.agent.ends[id].bridge.read == s.agent.ends[id].bridge.read == t.client.ends[id].bridge.written
    ensures t.client.ends[id].bridge.read == s.client.ends[id].bridge.read == t.agent.ends[id].bridge.written
  {
    hide Runs, Inv, Talk;
    RunsAreGood(steps, s);
    ReachesSelf(s);
    t := CanFinish(s, s, id);
    var more :| Runs(s, more, t);
    RunsOn(INIT, steps, s, more, t);
    all := steps + more;
    NoCrossTalk(all, t, id);
  }

  // ---- new connections ----

  // Whatever is still on its way, the loops can take it all.
  lemma {:induction false} ClientCatchesUp(s0: State, s: State) returns (t: State)
    requires Reaches(s0, s) && Good(s) && s.client.running
    ensures Reaches(s0, t) && Good(t) && t.client.running && t.client.got == t.agent.sent
    ensures t.agent == s.agent && t.nextId == s.nextId
    decreases |s.agent.sent| - |s.client.got|
  {
    hide Inv, Talk, Reaches, ClientLoop;
    if |s.client.got| < |s.agent.sent| {
      NextForClient(s);
      TakeKeepsRunning(s.client, s.agent.sent[|s.client.got|]);
      var m := Next(s, ClientTakes).value;
      LoopFrames(s.client, s.agent.sent[|s.client.got|]);
      ReachesOn(s0, s, ClientTakes, m);
      StepKeepsGood(s, ClientTakes, m);
      t := ClientCatchesUp(s0, m);
    } else {
      t := s;
      InvPrefix(s);
    }
  }

  lemma InvPrefix(s: State)
    requires Inv(s)
    ensures s.client.got <= s.agent.sent
  {}

  lemma TakeKeepsRunning(d: Side, m: Message)
    requires d.running && (Speaks(m) || (m.body == Connected(true) && m.id != 0))
    ensures ClientLoop(d, m).running
    ensures m.body == Connected(true) ==>
              && m.id in ClientLoop(d, m).routes && m.id in ClientLoop(d, m).ends
              && ClientLoop(d, m).ends[m.id] == End(B.CONNECTING, [], [], [])
  {}

  // While both loops run the agent can accept another connection, and the client joins it
  // once it has taken its announcement: both bridges start with nothing read or written.
  lemma {:induction false} CanBeJoined(s0: State, s: State) returns (t: State)
    requires Reaches(s0, s) && Good(s) && s.agent.running && s.client.running
    ensures Reaches(s0, t) && Good(t) && Joined(t, s.nextId + 1)
    ensures t.agent.ends[s.nextId + 1] == End(B.ACCEPTED, [], [], [])
    ensures t.client.ends[s.nextId + 1] == End(B.CONNECTING, [], [], [])
    ensures t.agent.sent == s.agent.sent + [Message(s.nextId + 1, Connected(true))]
  {
    hide Inv, Talk, Reaches;
    var id := s.nextId + 1;
    var m := ClientCatchesUp(s0, s);
    var n := Next(m, Accept(true, true)).value;
    ReachesOn(s0, m, Accept(true, true), n);
    StepKeepsGood(m, Accept(true, true), n);
    assert n.agent.sent[|n.client.got|] == Message(id, Connected(true));
    TakeKeepsRunning(n.client, n.agent.sent[|n.client.got|]);
    t := Next(n, ClientTakes).value;
    ReachesOn(s0, n, ClientTakes, t);
    StepKeepsGood(n, ClientTakes, t);
  }

  // Both sockets of a connection can still be read.
  predicate Reading(s: State, id: nat) {
    && Joined(s, id)
    && s.agent.ends[id].bridge.phase.BIdle? && !s.agent.ends[id].bridge.readClosed
    && s.client.ends[id].bridge.phase.BIdle? && !s.client.ends[id].bridge.readClosed
  }

  // A read of any size up to the buffer's goes onto the stream.
  lemma {:induction false} AgentReads(s0: State, s: State, id: nat, bytes: Bytes) returns (t: State)
    requires Reaches(s0, s) && Reading(s, id) && 1 <= |bytes| <= 8192
    ensures Reaches(s0, t) && Reading(t, id) && t.client == s.client
    ensures t.agent.ends[id].bridge.read == s.agent.ends[id].bridge.read + bytes
    ensures t.agent.sent == s.agent.sent + [Message(id, Conn(Data(bytes)))]
  {
    hide Reaches;
    var m := Next(s, AgentBridge(id, B.Read(bytes))).value;
    ReachesOn(s0, s, AgentBridge(id, B.Read(bytes)), m);
    t := Next(m, AgentBridge(id, B.Send(true))).value;
    ReachesOn(s0, m, AgentBridge(id, B.Send(true)), t);
  }

  lemma {:induction false} ClientReads(s0: State, s: State, id: nat, bytes: Bytes) returns (t: State)
    requires Reaches(s0, s) && Reading(s, id) && 1 <= |bytes| <= 8192
    ensures Reaches(s0, t) && Reading(t, id) && t.agent == s.agent
    ensures t.client.ends[id].bridge.read == s.client.ends[id].bridge.read + bytes
    ensures t.client.sent == s.client.sent + [Message(id, Conn(Data(bytes)))]
  {
    hide Reaches;
    var m := Next(s, ClientBridge(id, B.Read(bytes))).value;
    ReachesOn(s0, s, ClientBridge(id, B.Read(bytes)), m);
    t := Next(m, ClientBridge(id, B.Send(true))).value;
    ReachesOn(s0, m, ClientBridge(id, B.Send(true)), t);
  }

  lemma {:induction false} BothRead(s0: State, s: State, id: nat, guest: Bytes, target: Bytes) returns (t: State)
    requires Reaches(s0, s) && Reading(s, id)
    ensures Reaches(s0, t) && Reading(t, id)
    ensures t.agent.ends[id].bridge.read == s.agent.ends[id].bridge.read + guest
    ensures t.client.ends[id].bridge.read == s.client.ends[id].bridge.read + target
    decreases |guest| + |target|
  {
    hide Reaches;
    if guest != [] {
      var m := AgentReads(s0, s, id, guest[..1]);
      t := BothRead(s0, m, id, guest[1..], target);
      assert guest == guest[..1] + guest[1..];
    } else if target != [] {
      var m := ClientReads(s0, s, id, target[..1]);
      t := BothRead(s0, m, id, guest, target[1..]);
      assert target == target[..1] + target[1..];
    } else {
      t := s;
    }
  }

  // In every run, while both loops run, one more connection can be accepted, joined and
  // carry any data both ways to a clean end.
  lemma {:induction false} AnythingCanBeForwarded(steps: seq<Step>, s: State, guest: Bytes, target: Bytes)
    returns (all: seq<Step>, t: State, id: nat)
    requires Runs(INIT, steps, s) && s.agent.running && s.client.running
    ensures Runs(INIT, all, t) && id !in s.agent.ends && id in t.agent.ends && id in t.client.ends
    ensures Over(t.agent.ends[id].bridge) && Over(t.client.ends[id].bridge)
    ensures t.agent.ends[id].bridge.read == guest == t.client.ends[id].bridge.written
    ensures t.client.ends[id].bridge.read == target == t.agent.ends[id].bridge.written
  {
    hide Runs, Next;
    id := s.nextId + 1;
    RunsAreGood(steps, s);
    assert Reaches(INIT, s);
    var m := CanBeJoined(INIT, s);
    var n := ClientConnects(m, id);
    var r := BothRead(INIT, n, id, guest, target);
    var first :| Runs(INIT, first, r);
    all, t := SuccessStaysPossible(first, r, id);
  }

  lemma {:induction false} ClientConnects(m: State, id: nat) returns (n: State)
    requires Reaches(INIT, m) && Joined(m, id)
    requires m.agent.ends[id] == End(B.ACCEPTED, [], [], []) && m.client.ends[id] == End(B.CONNECTING, [], [], [])
    ensures Reaches(INIT, n) && Reading(n, id)
    ensures n.agent.ends[id].bridge.read == n.client.ends[id].bridge.read == []
  {
    hide Reaches;
    n := Next(m, ClientBridge(id, B.Connect(true))).value;
    ReachesOn(INIT, m, ClientBridge(id, B.Connect(true)), n);
  }

  // ---- connections that fail ----

  // A target that cannot be reached is reported with code 1, and that ends the guest's side
  // too.
  lemma {:induction false} RefusalIsReported(e: End, hung: bool)
    requires e.bridge == B.CONNECTING
    ensures var m := B.BridgeMove(e.bridge, Head(e.given, e.got), hung, B.Connect(false));
            && m.Some? && m.value.emits.None?
            && var mid := Moved(e, m.value);
               var n := B.BridgeMove(mid.bridge, Head(mid.given, mid.got), hung, B.SendLast(true));
               n.Some? && n.value.emits == Some(Close(1, false)) && n.value.peer.phase.BDone?
  {}

  // A bridge that takes a close with a code or without half-close gives up and answers
  // with a full close of its own.
  lemma {:induction false} CloseEndsBridge(e: End, hung: bool, ok: bool, code: nat, half: bool)
    requires e.bridge.phase.BIdle? && !e.bridge.writeClosed
    requires Head(e.given, e.got) == Some(Close(code, half)) && (code != 0 || !half)
    ensures var m := B.BridgeMove(e.bridge, Head(e.given, e.got), hung, B.Takes(ok));
            && m.Some? && m.value.emits.None? && m.value.peer.phase == B.BLeaving(FULL)
            && var mid := Moved(e, m.value);
               var n := B.BridgeMove(mid.bridge, Head(mid.given, mid.got), hung, B.SendLast(true));
               n.Some? && n.value.emits == Some(FULL) && n.value.peer.phase.BDone?
  {}

  // A socket that fails in either direction ends the bridge with a full close.
  lemma FaultsAreReported(e: End, hung: bool, fault: B.Step)
    requires fault.ReadFails? || fault.WriteFails? || fault == B.Takes(false)
    requires B.BridgeMove(e.bridge, Head(e.given, e.got), hung, fault).Some?
    requires fault.Takes? ==> Head(e.given, e.got) == Some(HALF)
    ensures var m := B.BridgeMove(e.bridge, Head(e.given, e.got), hung, fault).value;
            && m.emits.None?
            && var mid := Moved(e, m);
               var n := B.BridgeMove(mid.bridge, Head(mid.given, mid.got), hung, B.SendLast(true));
               n.Some? && n.value.emits == Some(FULL) && n.value.peer.phase.BDone?
  {}

  // After every turn of a loop only connections whose bridge has not ended are routed.
  lemma LoopsForgetEnded(d: Side, m: Message, id: nat)
    ensures id in AgentLoop(d, m).routes ==>
              id in AgentLoop(d, m).ends && !AgentLoop(d, m).ends[id].bridge.phase.BDone?
    ensures id in ClientLoop(d, m).routes ==>
              id in ClientLoop(d, m).ends && !ClientLoop(d, m).ends[id].bridge.phase.BDone?
  {}

  // The client's loop forgets a connection whose other side has closed for good.
  lemma {:induction false} FullCloseForgets(s: State, id: nat, code: nat)
    requires s.client.running && |s.client.got| < |s.agent.sent|
    requires s.agent.sent[|s.client.got|] == Message(id, Conn(Close(code, false)))
    ensures var t := Next(s, ClientTakes);
            t.Some? && t.value.client.running && id !in t.value.client.routes
  {}

  // A bridge that its loop has forgotten, or whose loop has stopped, ends when its inbox
  // has run dry.
  lemma {:induction false} ForgottenBridgeEnds(d: Side, id: nat)
    requires id in d.ends && (!d.running || id !in d.routes)
    requires d.ends[id].bridge.phase.BIdle? && !d.ends[id].bridge.writeClosed && |d.ends[id].given| == |d.ends[id].got|
    ensures var m := MovedBridge(d, id, B.InboxEnds);
            && m.Some? && m.value.ends[id].bridge.phase == B.BLeaving(FULL)
            && var t := MovedBridge(m.value, id, B.SendLast(true));
               && t.Some? && t.value.ends[id].bridge.phase.BDone?
               && t.value.sent == d.sent + [Message(id, Conn(FULL))]
  {}
}
