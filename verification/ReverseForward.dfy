// The end of one reverse-forwarded connection: a socket on one side and the
// multiplexed stream on the other.  Agent and client run the same loop; the
// client's first has to connect to its target.
module Bridge {
  import opened Common
  import opened Channel

  datatype Phase =
    | BConnecting
    | BIdle
    | BSending(event: Event)
    | BWriting(rest: Bytes)
    | BLeaving(last: Event) // the loop is left; the last close is being sent
    | BDone

  datatype Bridge = Bridge(
    phase: Phase, readClosed: bool, writeClosed: bool,
    read: Bytes, eof: bool, written: Bytes, shut: bool,
    halfSent: bool, endSent: Option<nat>)

  const ACCEPTED := Bridge(BIdle, false, false, [], false, [], false, false, None)
  const CONNECTING := ACCEPTED.(phase := BConnecting)

  datatype Step =
    | Connect(ok: bool)
    | Read(bytes: Bytes) | ReadEof | ReadFails
    | Send(ok: bool)
    | Takes(shutdownOk: bool) | InboxEnds
    | Writes(n: nat) | WriteFails
    | BothClosed
    | SendLast(ok: bool)

  function On(b: Bridge, e: Event, shutdownOk: bool): Bridge {
    match e
    case Data(d) => b.(phase := BWriting(d))
    case Close(0, true) =>
      if shutdownOk then b.(shut := true, writeClosed := true) else b.(phase := BLeaving(FULL))
    case _ => b.(phase := BLeaving(FULL))
  }

  // head is the next event of this bridge's inbox; hung says nobody will add more.
  function BridgeMove(b: Bridge, head: Option<Event>, hung: bool, step: Step): Option<Move<Bridge>> {
    match step
    case Connect(ok) =>
      if b.phase.BConnecting? then Local(b.(phase := if ok then BIdle else BLeaving(Close(1, false)))) else None
    case Read(bytes) =>
      if b.phase.BIdle? && !b.readClosed && 0 < |bytes| <= 8192 then
        Local(b.(read := b.read + bytes, phase := BSending(Data(bytes))))
      else None
    case ReadEof =>
      if b.phase.BIdle? && !b.readClosed then Local(b.(eof := true, readClosed := true, phase := BSending(HALF))) else None
    case ReadFails =>
      if b.phase.BIdle? && !b.readClosed then Local(b.(phase := BLeaving(FULL))) else None
    case Send(ok) =>
      if !b.phase.BSending? then None
      else if !ok then Local(b.(phase := BLeaving(FULL)))
      else Some(Move(b.(phase := BIdle, halfSent := b.halfSent || b.phase.event == HALF), Some(b.phase.event), false))
    case Takes(shutdownOk) =>
      if b.phase.BIdle? && !b.writeClosed && head.Some? then
        Some(Move(On(b, head.value, shutdownOk), None, true))
      else None
    case InboxEnds =>
      if b.phase.BIdle? && !b.writeClosed && head.None? && hung then Local(b.(phase := BLeaving(FULL))) else None
    case Writes(n) =>
      if b.phase.BWriting? && n <= |b.phase.rest| then
        var rest := b.phase.rest[n..];
        Local(b.(written := b.written + b.phase.rest[..n], phase := if rest == [] then BIdle else BWriting(rest)))
      else None
    case WriteFails =>
      if b.phase.BWriting? then Local(b.(phase := BLeaving(FULL))) else None
    case BothClosed =>
      if b.phase.BIdle? && b.readClosed && b.writeClosed then
        Local(b.(phase := BLeaving(FULL)))
      else None
    case SendLast(ok) =>
      if !b.phase.BLeaving? || !b.phase.last.Close? then None
      else if !ok then Local(b.(phase := BDone))
      else Some(Move(b.(phase := BDone, endSent := Some(b.phase.last.code)), Some(b.phase.last), false))
  }

  predicate Live(b: Bridge) {
    b.phase.BIdle? || b.phase.BSending? || b.phase.BWriting?
  }

  ghost predicate Sent(b: Bridge, data: Bytes) {
    && (b.endSent.Some? ==> b.phase.BDone?)
    && (b.halfSent ==> b.readClosed && b.eof && data == b.read)
    && (match b.phase
        case BSending(e) =>
          && !b.halfSent && Carry(data, Some(e)) == b.read
          && if b.readClosed then e == HALF && b.eof else e.Data?
        case BLeaving(e) => data <= b.read && e.Close? && !e.half
        case BDone => data <= b.read
        case _ => data == b.read && b.readClosed == b.halfSent)
  }

  // Once the half-close was taken nothing more is taken, so everything taken stays
  // written, however the bridge ends.
  ghost predicate Got(b: Bridge, data: Bytes) {
    && (b.writeClosed ==> b.shut && b.written == data)
    && (match b.phase
        case BWriting(rest) => !b.writeClosed && b.written + rest == data
        case BLeaving(_) => b.written <= data
        case BDone => b.written <= data
        case _ => b.written == data)
  }

  // sent is what the bridge put on the stream, got what it took from its inbox.
  ghost predicate SentInv(b: Bridge, sent: seq<Event>) {
    Shape(sent, b.halfSent, b.endSent) && Sent(b, DataOf(sent))
  }

  ghost predicate GotInv(b: Bridge, got: seq<Event>) {
    && Got(b, DataOf(got))
    && (Live(b) || b.phase.BConnecting? || b.writeClosed ==> Shape(got, b.writeClosed, None))
  }

  ghost predicate Inv(b: Bridge, sent: seq<Event>, got: seq<Event>) {
    SentInv(b, sent) && GotInv(b, got)
  }

  // The steps that read the socket and put events on the stream, and those that take
  // events and write the socket.
  predicate Sends(step: Step) {
    step.Read? || step.ReadEof? || step.ReadFails? || step.Send? || step.SendLast?
  }

  lemma MoveSends(b: Bridge, data: Bytes, head: Option<Event>, hung: bool, step: Step, m: Move<Bridge>)
    requires Sent(b, data) && BridgeMove(b, head, hung, step) == Some(m) && Sends(step)
    ensures Sent(m.peer, Carry(data, m.emits))
  {}

  lemma MoveSendsNothing(b: Bridge, data: Bytes, head: Option<Event>, hung: bool, step: Step, m: Move<Bridge>)
    requires Sent(b, data) && BridgeMove(b, head, hung, step) == Some(m) && !Sends(step)
    ensures Sent(m.peer, data) && m.emits.None?
    ensures m.peer.halfSent == b.halfSent && m.peer.endSent == b.endSent
  {}

  lemma MoveContinues(b: Bridge, data: Bytes, head: Option<Event>, hung: bool, step: Step, m: Move<Bridge>)
    requires Sent(b, data) && BridgeMove(b, head, hung, step) == Some(m) && Sends(step)
    ensures Continues(b.halfSent, b.endSent, m.emits, m.peer.halfSent, m.peer.endSent)
  {}

  lemma {:induction false} MoveKeepsSent(b: Bridge, sent: seq<Event>, head: Option<Event>, hung: bool, step: Step,
                                         m: Move<Bridge>)
    requires SentInv(b, sent) && BridgeMove(b, head, hung, step) == Some(m)
    ensures SentInv(m.peer, Add(sent, m.emits))
  {
    hide BridgeMove, Sent, Shape, DataOf, Continues;
    if Sends(step) {
      DataOfAdd(sent, m.emits);
      MoveSends(b, DataOf(sent), head, hung, step, m);
      MoveContinues(b, DataOf(sent), head, hung, step, m);
      ShapeContinues(sent, b.halfSent, b.endSent, m.emits, m.peer.halfSent, m.peer.endSent);
    } else {
      MoveSendsNothing(b, DataOf(sent), head, hung, step, m);
    }
  }

  lemma MoveGetsNothing(b: Bridge, data: Bytes, head: Option<Event>, hung: bool, step: Step, m: Move<Bridge>)
    requires Got(b, data) && BridgeMove(b, head, hung, step) == Some(m) && !step.Takes? && !step.Writes?
    ensures Got(m.peer, data)
  {}

  lemma MoveWrites(b: Bridge, data: Bytes, head: Option<Event>, hung: bool, n: nat, m: Move<Bridge>)
    requires Got(b, data) && BridgeMove(b, head, hung, Writes(n)) == Some(m)
    ensures Got(m.peer, data)
  {
    WriteSome(b.written, b.phase.rest, n, data);
  }

  lemma MoveTakesOn(b: Bridge, head: Option<Event>, hung: bool, ok: bool, m: Move<Bridge>)
    requires BridgeMove(b, head, hung, Takes(ok)) == Some(m)
    ensures head.Some? && b.phase.BIdle? && !b.writeClosed && m.peer == On(b, head.value, ok)
  {}

  lemma OnGets(b: Bridge, data: Bytes, e: Event, ok: bool)
    requires Got(b, data) && b.phase.BIdle? && !b.writeClosed
    ensures Got(On(b, e, ok), Carry(data, Some(e)))
  {}

  lemma OnContinues(b: Bridge, e: Event, ok: bool)
    requires b.phase.BIdle? && !b.writeClosed
    ensures var t := On(b, e, ok);
            if Live(t) then Continues(false, None, Some(e), t.writeClosed, None)
            else !t.writeClosed && !t.phase.BConnecting?
  {}

  lemma MoveFlags(b: Bridge, head: Option<Event>, hung: bool, step: Step, m: Move<Bridge>)
    requires BridgeMove(b, head, hung, step) == Some(m)
    ensures m.takes <==> step.Takes?
    ensures !m.takes ==> m.peer.writeClosed == b.writeClosed
    ensures !m.takes && (Live(m.peer) || m.peer.phase.BConnecting?) ==> Live(b) || b.phase.BConnecting?
  {}

  lemma {:induction false} MoveKeepsGot(b: Bridge, got: seq<Event>, head: Option<Event>, hung: bool, step: Step,
                                        m: Move<Bridge>)
    requires GotInv(b, got) && BridgeMove(b, head, hung, step) == Some(m)
    ensures m.takes ==> head.Some?
    ensures GotInv(m.peer, Add(got, Taken(m, head)))
  {
    hide BridgeMove, On, Got, Shape, DataOf, Continues;
    MoveFlags(b, head, hung, step, m);
    if step.Takes? {
      MoveTakesOn(b, head, hung, step.shutdownOk, m);
      OnGets(b, DataOf(got), head.value, step.shutdownOk);
      OnContinues(b, head.value, step.shutdownOk);
      DataOfAdd(got, head);
      if Live(m.peer) {
        ShapeContinues(got, false, None, head, m.peer.writeClosed, None);
      }
    } else if step.Writes? {
      MoveWrites(b, DataOf(got), head, hung, step.n, m);
    } else {
      MoveGetsNothing(b, DataOf(got), head, hung, step, m);
    }
  }

  lemma {:induction false} MoveKeepsInv(b: Bridge, sent: seq<Event>, got: seq<Event>, head: Option<Event>, hung: bool, step: Step,
                     m: Move<Bridge>)
    requires Inv(b, sent, got) && BridgeMove(b, head, hung, step) == Some(m)
    ensures m.takes ==> head.Some?
    ensures Inv(m.peer, Add(sent, m.emits), Add(got, Taken(m, head)))
  {
    hide BridgeMove, SentInv, GotInv;
    MoveKeepsSent(b, sent, head, hung, step, m);
    MoveKeepsGot(b, got, head, hung, step, m);
  }
}

// Reverse forwarding: one authenticated stream carries every connection accepted
// by a listener in the guest.  The agent numbers connections and announces them;
// each side routes the events it takes from the stream to per-connection bridges.
//
// The run starts after the listen/ready handshake.  Either loop may stop at any
// time (its peer is gone, accept fails, a protocol violation); its bridges go on
// until their inbox runs dry or their sends fail.
module ReverseForward {
  import opened Common
  import opened Channel
  import opened B = Bridge

  datatype Body = Connected(ok: bool) | Conn(event: Event) | Other

  datatype Message = Message(id: nat, body: Body)

  // A bridge, everything it put on the stream, what its inbox was given and what it took.
  datatype End = End(bridge: Bridge, sent: seq<Event>, given: seq<Event>, got: seq<Event>)

  // One side: whether its loop runs, the connections it still routes to, all
  // bridges it ever spawned, what the side put on the stream and what its loop took.
  datatype Side = Side(
    running: bool, routes: set<nat>, ends: map<nat, End>,
    sent: seq<Message>, got: seq<Message>)

  datatype State = State(nextId: nat, agent: Side, client: Side)

  const INIT := State(0, Side(true, {}, map[], [], []), Side(true, {}, map[], [], []))

  datatype Step =
    | Accept(permit: bool, sent: bool)
    | AgentTakes | AgentStops
    | ClientTakes | ClientStops
    | AgentBridge(id: nat, move: B.Step)
    | ClientBridge(id: nat, move: B.Step)

  function Stopped(d: Side): Side {
    d.(running := false, routes := {})
  }

  // Each turn of a loop ends by forgetting connections whose bridge has ended.
  function Retained(d: Side): Side {
    d.(routes := set id | id in d.routes && id in d.ends && !d.ends[id].bridge.phase.BDone?)
  }

  function Spawned(d: Side, id: nat, b: Bridge): Side {
    d.(routes := d.routes + {id}, ends := d.ends[id := End(b, [], [], [])])
  }

  // Hand an event to the connection's inbox; a connection whose bridge has ended is forgotten.
  function Routed(d: Side, id: nat, e: Event): Side {
    if id !in d.routes || id !in d.ends then d
    else if d.ends[id].bridge.phase.BDone? then d.(routes := d.routes - {id})
    else d.(ends := d.ends[id := d.ends[id].(given := d.ends[id].given + [e])])
  }

  function AgentLoop(d: Side, m: Message): Side {
    var t := d.(got := d.got + [m]);
    if m.body.Conn? && (m.body.event.Data? || m.body.event.Close?) then Retained(Routed(t, m.id, m.body.event))
    else Stopped(t)
  }

  function ClientLoop(d: Side, m: Message): Side {
    var t := d.(got := d.got + [m]);
    match m.body
    case Connected(ok) => if ok && m.id != 0 then Retained(Spawned(t, m.id, CONNECTING)) else Stopped(t)
    case Conn(e) =>
      if !e.Data? && !e.Close? then Stopped(t)
      else
        var r := Routed(t, m.id, e);
        Retained(if e.Close? && !e.half then r.(routes := r.routes - {m.id}) else r)
    case Other => Stopped(t)
  }

  function Moved(e: End, m: Move<Bridge>): End {
    End(m.peer, Add(e.sent, m.emits), e.given, Add(e.got, Taken(m, Head(e.given, e.got))))
  }

  function WithMove(d: Side, id: nat, m: Move<Bridge>): Side
    requires id in d.ends
  {
    var out := if m.emits.Some? then [Message(id, Conn(m.emits.value))] else [];
    d.(ends := d.ends[id := Moved(d.ends[id], m)], sent := d.sent + out)
  }

  function MovedBridge(d: Side, id: nat, move: B.Step): Option<Side> {
    if id !in d.ends then None
    else
      var e := d.ends[id];
      var hung := !d.running || id !in d.routes;
      match BridgeMove(e.bridge, Head(e.given, e.got), hung, move)
      case None => None
      case Some(m) => Some(WithMove(d, id, m))
  }

  function Next(s: State, step: Step): Option<State> {
    match step
    case Accept(permit, sent) =>
      if !s.agent.running then None
      else if !permit then Some(s)
      else
        var id := s.nextId + 1;
        if sent then
          var a := s.agent.(sent := s.agent.sent + [Message(id, Connected(true))]);
          Some(s.(nextId := id, agent := Retained(Spawned(a, id, ACCEPTED))))
        else Some(s.(nextId := id, agent := Stopped(s.agent)))
    case AgentTakes =>
      if s.agent.running && |s.agent.got| < |s.client.sent| then
        Some(s.(agent := AgentLoop(s.agent, s.client.sent[|s.agent.got|])))
      else None
    case AgentStops => if s.agent.running then Some(s.(agent := Stopped(s.agent))) else None
    case ClientTakes =>
      if s.client.running && |s.client.got| < |s.agent.sent| then
        Some(s.(client := ClientLoop(s.client, s.agent.sent[|s.client.got|])))
      else None
    case ClientStops => if s.client.running then Some(s.(client := Stopped(s.client))) else None
    case AgentBridge(id, move) =>
      var d := MovedBridge(s.agent, id, move);
      if d.Some? then Some(s.(agent := d.value)) else None
    case ClientBridge(id, move) =>
      var d := MovedBridge(s.client, id, move);
      if d.Some? then Some(s.(client := d.value)) else None
  }

  ghost predicate Runs(s: State, steps: seq<Step>, t: State)
    decreases |steps|
  {
    if steps == [] then s == t
    else
      var front := |steps| - 1;
      exists m :: Runs(s, steps[..front], m) && Next(m, steps[front]) == Some(t)
  }

  // ---- the stream seen by one connection ----

  function ForId(ms: seq<Message>, id: nat): seq<Event> {
    if ms == [] then []
    else
      var front, last := ForId(ms[..|ms| - 1], id), ms[|ms| - 1];
      if last.id == id && last.body.Conn? then front + [last.body.event] else front
  }

  function Announced(ms: seq<Message>): set<nat> {
    if ms == [] then {}
    else
      var front, last := Announced(ms[..|ms| - 1]), ms[|ms| - 1];
      if last.body.Connected? then front + {last.id} else front
  }

  // Every connection is announced once, with a positive id, before its other events.
  ghost predicate Ordered(ms: seq<Message>) {
    ms == [] ||
    var front, last := ms[..|ms| - 1], ms[|ms| - 1];
    && Ordered(front)
    && (match last.body
        case Connected(ok) => ok && last.id > 0 && last.id !in Announced(front)
        case Conn(_) => last.id in Announced(front)
        case Other => false)
  }

  lemma Snoc(ms: seq<Message>, m: Message)
    ensures (ms + [m])[..|ms|] == ms
  {}

  lemma {:induction false} ForIdPrefix(g: seq<Message>, h: seq<Message>, id: nat)
    requires g <= h
    ensures ForId(g, id) <= ForId(h, id)
    decreases |h|
  {
    if |g| == |h| {
      assert g == h;
    } else {
      ForIdPrefix(g, h[..|h| - 1], id);
    }
  }

  lemma {:induction false} OrderedPrefix(g: seq<Message>, h: seq<Message>)
    requires g <= h && Ordered(h)
    ensures Ordered(g) && Announced(g) <= Announced(h)
    decreases |h|
  {
    if |g| == |h| {
      assert g == h;
    } else {
      OrderedPrefix(g, h[..|h| - 1]);
    }
  }

  lemma {:induction false} UnannouncedIsSilent(ms: seq<Message>, id: nat)
    requires Ordered(ms) && id !in Announced(ms)
    ensures ForId(ms, id) == []
  {
    if ms != [] {
      UnannouncedIsSilent(ms[..|ms| - 1], id);
    }
  }

  // ---- the invariant ----

  ghost predicate EndOk(e: End, stream: seq<Event>, routed: bool) {
    && e.got <= e.given <= stream
    && (routed ==> e.given == stream)
    && B.Inv(e.bridge, e.sent, e.got)
  }

  // What one side keeps by itself: the events a connection put on the stream are
  // its bridge's, in order, and its inbox was given a prefix of the events taken
  // for it, all of them while it is routed.
  ghost predicate SideInv(d: Side) {
    && d.routes <= d.ends.Keys
    && (forall id :: id !in d.ends ==> ForId(d.sent, id) == [])
    && (forall id :: id in d.ends ==> ForId(d.sent, id) == d.ends[id].sent)
    && (forall id :: id in d.ends ==> EndOk(d.ends[id], ForId(d.got, id), id in d.routes))
  }

  ghost predicate Inv(s: State) {
    && SideInv(s.agent) && SideInv(s.client)
    && s.agent.got <= s.client.sent && s.client.got <= s.agent.sent
    && Ordered(s.agent.sent) && Announced(s.agent.sent) == s.agent.ends.Keys
    && (forall id :: id in s.agent.ends ==> 0 < id <= s.nextId)
    && Announced(s.client.got) == s.client.ends.Keys
  }

  lemma ForIdSnoc(ms: seq<Message>, m: Message, id: nat)
    ensures ForId(ms + [m], id) == if m.id == id && m.body.Conn? then ForId(ms, id) + [m.body.event] else ForId(ms, id)
  {
    Snoc(ms, m);
  }

  lemma {:induction false} MovedEnd(e: End, stream: seq<Event>, routed: bool, hung: bool, move: B.Step, m: Move<Bridge>)
    requires EndOk(e, stream, routed) && BridgeMove(e.bridge, Head(e.given, e.got), hung, move) == Some(m)
    ensures EndOk(Moved(e, m), stream, routed)
  {
    hide BridgeMove, B.Inv;
    B.MoveKeepsInv(e.bridge, e.sent, e.got, Head(e.given, e.got), hung, move, m);
  }

  lemma WithMoveKeepsSide(d: Side, id: nat, m: Move<Bridge>)
    requires SideInv(d) && id in d.ends && EndOk(Moved(d.ends[id], m), ForId(d.got, id), id in d.routes)
    ensures SideInv(WithMove(d, id, m))
  {
    hide EndOk;
    var t := WithMove(d, id, m);
    if m.emits.Some? {
      forall x ensures ForId(t.sent, x) == if x == id then t.ends[id].sent else ForId(d.sent, x) {
        ForIdSnoc(d.sent, Message(id, Conn(m.emits.value)), x);
      }
    } else {
      assert t.sent == d.sent;
    }
    forall x | x in t.ends ensures EndOk(t.ends[x], ForId(t.got, x), x in t.routes) {
      assert x != id ==> EndOk(d.ends[x], ForId(d.got, x), x in d.routes);
    }
  }

  lemma {:induction false} MovedBridgeKeepsSide(d: Side, id: nat, move: B.Step, t: Side)
    requires SideInv(d) && MovedBridge(d, id, move) == Some(t)
    ensures SideInv(t)
    ensures id in d.ends && t.ends.Keys == d.ends.Keys && t.got == d.got
    ensures t.sent == d.sent || exists e :: t.sent == d.sent + [Message(id, Conn(e))]
  {
    hide BridgeMove, EndOk;
    var e := d.ends[id];
    var m := BridgeMove(e.bridge, Head(e.given, e.got), !d.running || id !in d.routes, move).value;
    EndAt(d, id);
    MovedEnd(e, ForId(d.got, id), id in d.routes, !d.running || id !in d.routes, move, m);
    WithMoveKeepsSide(d, id, m);
  }

  lemma {:induction false} RoutedKeepsSide(d: Side, m: Message)
    requires SideInv(d) && m.body.Conn?
    ensures SideInv(Routed(d.(got := d.got + [m]), m.id, m.body.event))
  {
    hide EndOk;
    var t := Routed(d.(got := d.got + [m]), m.id, m.body.event);
    forall id | id in t.ends ensures EndOk(t.ends[id], ForId(t.got, id), id in t.routes) {
      ForIdSnoc(d.got, m, id);
      EndGiven(d.ends[id], ForId(d.got, id), id in d.routes, m.body.event);
    }
  }

  lemma EndGiven(e: End, stream: seq<Event>, routed: bool, event: Event)
    requires EndOk(e, stream, routed)
    ensures EndOk(e, stream + [event], false)
    ensures routed ==> EndOk(e.(given := e.given + [event]), stream + [event], true)
    ensures EndOk(e, stream, false)
  {
    hide B.Inv;
  }

  lemma StoppedKeepsSide(d: Side, m: Option<Message>)
    requires SideInv(d)
    ensures SideInv(Stopped(if m.Some? then d.(got := d.got + [m.value]) else d))
  {
    hide B.Inv;
    if m.Some? {
      Snoc(d.got, m.value);
    }
    var t := Stopped(if m.Some? then d.(got := d.got + [m.value]) else d);
    forall id | id in t.ends ensures EndOk(t.ends[id], ForId(t.got, id), id in t.routes) {
      assert EndOk(d.ends[id], ForId(d.got, id), id in d.routes);
    }
  }

  lemma FewerRoutesKeepSide(d: Side, routes: set<nat>)
    requires SideInv(d) && routes <= d.routes
    ensures SideInv(d.(routes := routes))
  {
    hide B.Inv;
    forall id | id in d.ends ensures EndOk(d.ends[id], ForId(d.got, id), id in routes) {
      assert EndOk(d.ends[id], ForId(d.got, id), id in d.routes);
    }
  }

  lemma SpawnedKeepsSide(d: Side, id: nat, b: Bridge)
    requires SideInv(d) && id !in d.ends && ForId(d.got, id) == []
    requires b == ACCEPTED || b == CONNECTING
    ensures SideInv(Spawned(d, id, b))
  {
    assert B.Inv(b, [], []);
  }

  // ---- each step keeps it ----

  lemma OrderedSnoc(ms: seq<Message>, m: Message)
    ensures Announced(ms + [m]) == if m.body.Connected? then Announced(ms) + {m.id} else Announced(ms)
    ensures Ordered(ms) && m.body.Conn? && m.id in Announced(ms) ==> Ordered(ms + [m])
    ensures Ordered(ms) && m.body == Connected(true) && m.id > 0 && m.id !in Announced(ms) ==> Ordered(ms + [m])
  {
    Snoc(ms, m);
  }

  function Accepted(d: Side, id: nat): Side {
    Retained(Spawned(d.(sent := d.sent + [Message(id, Connected(true))]), id, ACCEPTED))
  }

  // Announcing a connection or taking an announcement adds nothing to any connection's events.
  lemma AnnouncedKeepsSide(d: Side, m: Message, put: bool)
    requires SideInv(d) && m.body.Connected?
    ensures SideInv(if put then d.(sent := d.sent + [m]) else d.(got := d.got + [m]))
  {
    hide B.Inv;
    forall x ensures ForId(d.sent + [m], x) == ForId(d.sent, x) && ForId(d.got + [m], x) == ForId(d.got, x) {
      ForIdSnoc(d.sent, m, x);
      ForIdSnoc(d.got, m, x);
    }
    forall x | x in d.ends ensures EndOk(d.ends[x], ForId(d.got + [m], x), x in d.routes) {
      assert EndOk(d.ends[x], ForId(d.got, x), x in d.routes);
    }
  }

  lemma AcceptedKeepsSide(d: Side, id: nat)
    requires SideInv(d) && id !in d.ends && ForId(d.got, id) == []
    ensures SideInv(Accepted(d, id))
  {
    hide SideInv;
    var m := Message(id, Connected(true));
    AnnouncedKeepsSide(d, m, true);
    var a := d.(sent := d.sent + [m]);
    SpawnedKeepsSide(a, id, ACCEPTED);
    FewerRoutesKeepSide(Spawned(a, id, ACCEPTED), Accepted(d, id).routes);
  }

  lemma {:induction false} AgentLoopKeepsSide(d: Side, m: Message)
    requires SideInv(d)
    ensures SideInv(AgentLoop(d, m))
  {
    if m.body.Conn? && (m.body.event.Data? || m.body.event.Close?) {
      RoutedKeepsSide(d, m);
      var r := Routed(d.(got := d.got + [m]), m.id, m.body.event);
      FewerRoutesKeepSide(r, Retained(r).routes);
    } else {
      StoppedKeepsSide(d, Some(m));
    }
  }

  lemma {:induction false} ClientLoopKeepsSide(d: Side, m: Message)
    requires SideInv(d)
    requires m.body.Connected? ==> m.id !in d.ends && ForId(d.got, m.id) == []
    ensures SideInv(ClientLoop(d, m))
  {
    var t := ClientLoop(d, m);
    if m.body == Connected(true) && m.id != 0 {
      AnnouncedKeepsSide(d, m, false);
      ForIdSnoc(d.got, m, m.id);
      SpawnedKeepsSide(d.(got := d.got + [m]), m.id, CONNECTING);
      FewerRoutesKeepSide(Spawned(d.(got := d.got + [m]), m.id, CONNECTING), t.routes);
    } else if m.body.Conn? && (m.body.event.Data? || m.body.event.Close?) {
      RoutedKeepsSide(d, m);
      FewerRoutesKeepSide(Routed(d.(got := d.got + [m]), m.id, m.body.event), t.routes);
    } else {
      StoppedKeepsSide(d, Some(m));
    }
  }

  lemma SilentUntilSpawned(d: Side, id: nat)
    requires SideInv(d) && id !in d.ends
    ensures ForId(d.sent, id) == []
  {}

  lemma LoopFrames(d: Side, m: Message)
    ensures ClientLoop(d, m).got == d.got + [m] && ClientLoop(d, m).sent == d.sent
    ensures ClientLoop(d, m).ends.Keys == if m.body == Connected(true) && m.id != 0 then d.ends.Keys + {m.id} else d.ends.Keys
    ensures AgentLoop(d, m).got == d.got + [m] && AgentLoop(d, m).sent == d.sent
    ensures AgentLoop(d, m).ends.Keys == d.ends.Keys
  {}

  lemma {:induction false} AcceptKeepsInv(s: State)
    requires Inv(s)
    ensures Inv(s.(nextId := s.nextId + 1, agent := Accepted(s.agent, s.nextId + 1)))
  {
    hide SideInv, Ordered, Announced, ForId;
    var id := s.nextId + 1;
    OrderedSnoc(s.agent.sent, Message(id, Connected(true)));
    OrderedPrefix(s.client.got, s.agent.sent);
    ForIdPrefix(s.agent.got, s.client.sent, id);
    SilentUntilSpawned(s.client, id);
    AcceptedKeepsSide(s.agent, id);
  }

  lemma {:induction false} AgentTakesKeepsInv(s: State)
    requires Inv(s) && |s.agent.got| < |s.client.sent|
    ensures Inv(s.(agent := AgentLoop(s.agent, s.client.sent[|s.agent.got|])))
  {
    hide SideInv, AgentLoop, Ordered, Announced, ForId;
    AgentLoopKeepsSide(s.agent, s.client.sent[|s.agent.got|]);
    LoopFrames(s.agent, s.client.sent[|s.agent.got|]);
  }

  lemma {:induction false} ClientTakesKeepsInv(s: State)
    requires Inv(s) && |s.client.got| < |s.agent.sent|
    ensures Inv(s.(client := ClientLoop(s.client, s.agent.sent[|s.client.got|])))
  {
    hide SideInv, ClientLoop, Ordered, Announced, ForId;
    NextIsOrdered(s.client.got, s.agent.sent);
    ClientLoopKeepsSide(s.client, s.agent.sent[|s.client.got|]);
    LoopFrames(s.client, s.agent.sent[|s.client.got|]);
  }

  lemma {:induction false} NextIsOrdered(got: seq<Message>, sent: seq<Message>)
    requires got < sent && Ordered(sent)
    ensures got + [sent[|got|]] <= sent
    ensures var m := sent[|got|];
      && m.body != Other
      && (m.body.Connected? ==> m.body.ok && m.id != 0 && m.id !in Announced(got) && ForId(got, m.id) == [])
      && Announced(got + [m]) == if m.body.Connected? then Announced(got) + {m.id} else Announced(got)
  {
    hide Ordered, Announced, ForId;
    var m := sent[|got|];
    OrderedPrefix(got + [m], sent);
    OrderedSnoc(got, m);
    OrderedLast(got, m);
    if m.body.Connected? {
      UnannouncedIsSilent(got, m.id);
    }
  }

  lemma OrderedLast(ms: seq<Message>, m: Message)
    requires Ordered(ms + [m])
    ensures Ordered(ms) && m.body != Other
    ensures m.body.Connected? ==> m.body.ok && m.id != 0 && m.id !in Announced(ms)
  {
    Snoc(ms, m);
  }

  lemma {:induction false} BridgeStepKeepsInv(s: State, step: Step, t: State)
    requires Inv(s) && Next(s, step) == Some(t) && (step.AgentBridge? || step.ClientBridge?)
    ensures Inv(t)
  {
    hide SideInv, MovedBridge, Ordered, Announced;
    match step
    case AgentBridge(id, move) =>
      MovedBridgeKeepsSide(s.agent, id, move, t.agent);
      if t.agent.sent != s.agent.sent {
        var e :| t.agent.sent == s.agent.sent + [Message(id, Conn(e))];
        OrderedSnoc(s.agent.sent, Message(id, Conn(e)));
      }
    case ClientBridge(id, move) =>
      MovedBridgeKeepsSide(s.client, id, move, t.client);
  }

  lemma {:induction false} StepKeepsInv(s: State, step: Step, t: State)
    requires Inv(s) && Next(s, step) == Some(t)
    ensures Inv(t)
  {
    hide SideInv, MovedBridge, AgentLoop, ClientLoop, Ordered, Announced;
    match step
    case Accept(permit, sent) =>
      if permit && sent {
        AcceptKeepsInv(s);
      } else if permit {
        StoppedKeepsSide(s.agent, None);
      }
    case AgentTakes => AgentTakesKeepsInv(s);
    case AgentStops => StoppedKeepsSide(s.agent, None);
    case ClientTakes => ClientTakesKeepsInv(s);
    case ClientStops => StoppedKeepsSide(s.client, None);
    case _ => BridgeStepKeepsInv(s, step, t);
  }

  lemma {:induction false} RunsKeepInv(steps: seq<Step>, s: State)
    requires Runs(INIT, steps, s)
    ensures Inv(s)
    decreases |steps|
  {
    if steps != [] {
      var front := |steps| - 1;
      var m :| Runs(INIT, steps[..front], m) && Next(m, steps[front]) == Some(s);
      RunsKeepInv(steps[..front], m);
      StepKeepsInv(m, steps[front], s);
    }
  }

  // ---- what holds in every run ----

  // No connection id is used twice, and an id is announced before anything else
  // is said about it.
  lemma {:induction false} IdsAreFreshAndAnnouncedFirst(steps: seq<Step>, s: State, i: nat)
    requires Runs(INIT, steps, s) && i < |s.agent.sent|
    ensures s.agent.sent[i].body.Connected? || s.agent.sent[i].body.Conn?
    ensures s.agent.sent[i].body.Connected? ==>
              forall j :: 0 <= j < i ==> s.agent.sent[j].id != s.agent.sent[i].id
    ensures s.agent.sent[i].body.Conn? ==>
              exists j :: 0 <= j < i && s.agent.sent[j] == Message(s.agent.sent[i].id, Connected(true))
  {
    RunsKeepInv(steps, s);
    hide SideInv;
    OrderedAt(s.agent.sent, i);
  }

  lemma {:induction false} OrderedAt(ms: seq<Message>, i: nat)
    requires Ordered(ms) && i < |ms|
    ensures ms[i].body.Connected? || ms[i].body.Conn?
    ensures ms[i].body.Connected? ==> forall j :: 0 <= j < i ==> ms[j].id != ms[i].id
    ensures ms[i].body.Conn? ==> exists j :: 0 <= j < i && ms[j] == Message(ms[i].id, Connected(true))
  {
    var front := ms[..|ms| - 1];
    if i + 1 < |ms| {
      OrderedAt(front, i);
      if ms[i].body.Conn? {
        var j :| 0 <= j < i && front[j] == Message(ms[i].id, Connected(true));
        assert ms[j] == front[j];
      }
    } else {
      forall j | 0 <= j < i ensures ms[j].id in Announced(front) {
        MentionedIsAnnounced(front, j);
      }
      if ms[i].body.Conn? {
        AnnouncedHasMessage(front, ms[i].id);
      }
    }
  }

  lemma {:induction false} MentionedIsAnnounced(ms: seq<Message>, j: nat)
    requires Ordered(ms) && j < |ms|
    ensures ms[j].id in Announced(ms)
  {
    if j + 1 < |ms| {
      MentionedIsAnnounced(ms[..|ms| - 1], j);
    }
  }

  lemma {:induction false} AnnouncedHasMessage(ms: seq<Message>, id: nat)
    requires Ordered(ms) && id in Announced(ms)
    ensures exists j :: 0 <= j < |ms| && ms[j] == Message(id, Connected(true))
  {
    var front := ms[..|ms| - 1];
    if ms[|ms| - 1] != Message(id, Connected(true)) {
      AnnouncedHasMessage(front, id);
      var j :| 0 <= j < |front| && front[j] == Message(id, Connected(true));
      assert ms[j] == front[j];
    }
  }

  // What a connection's bridge took is a prefix of what its partner put on the
  // stream: nothing of another connection, and once an event was dropped none of
  // the later ones.
  lemma {:induction false} InboxIsPartnersStream(d: Side, peer: Side, id: nat)
    requires SideInv(d) && SideInv(peer) && d.got <= peer.sent && id in d.ends
    ensures d.ends[id].got <= d.ends[id].given
    ensures d.ends[id].given <= if id in peer.ends then peer.ends[id].sent else []
  {
    assert EndOk(d.ends[id], ForId(d.got, id), id in d.routes);
    ForIdPrefix(d.got, peer.sent, id);
  }

  lemma {:induction false} EndWritesPrefix(d: Side, peer: Side, id: nat)
    requires SideInv(d) && SideInv(peer) && d.got <= peer.sent && id in d.ends
    ensures d.ends[id].bridge.written <= if id in peer.ends then peer.ends[id].bridge.read else []
    ensures d.ends[id].bridge.writeClosed ==>
              && id in peer.ends && peer.ends[id].bridge.eof && d.ends[id].bridge.shut
              && d.ends[id].bridge.written == peer.ends[id].bridge.read
  {
    hide SideInv, B.Inv;
    EndAt(d, id);
    var e := d.ends[id];
    InboxIsPartnersStream(d, peer, id);
    if id in peer.ends {
      EndAt(peer, id);
      BridgePair(e, peer.ends[id]);
    } else {
      BridgeAlone(e);
    }
  }

  lemma EndAt(d: Side, id: nat)
    requires SideInv(d) && id in d.ends
    ensures EndOk(d.ends[id], ForId(d.got, id), id in d.routes)
  {}

  lemma BridgePair(e: End, p: End)
    requires e.got <= p.sent && B.Inv(e.bridge, e.sent, e.got) && B.Inv(p.bridge, p.sent, p.got)
    ensures e.bridge.written <= p.bridge.read
    ensures e.bridge.writeClosed ==> p.bridge.eof && e.bridge.shut && e.bridge.written == p.bridge.read
  {
    hide Shape, DataOf;
    DataOfPrefix(e.got, p.sent);
    if e.bridge.writeClosed {
      HalfCloseCarriesAll(e.got, p.sent, p.bridge.halfSent, p.bridge.endSent);
    }
  }

  lemma BridgeAlone(e: End)
    requires e.got == [] && B.Inv(e.bridge, e.sent, e.got)
    ensures e.bridge.written == [] && !e.bridge.writeClosed
  {}

  // For every connection, whatever happens to the others: the bytes written to
  // either socket are a prefix of those read from its partner, and a bridge that took
  // the half-close, however it ends, has written everything its partner read up to
  // the end.  A bridge that ends with both flags set is one of these.
  lemma {:induction false} NoCrossTalk(steps: seq<Step>, s: State, id: nat)
    requires Runs(INIT, steps, s)
    ensures id in s.client.ends ==> id in s.agent.ends
    ensures id in s.client.ends ==> s.client.ends[id].bridge.written <= s.agent.ends[id].bridge.read
    ensures id in s.agent.ends ==>
              s.agent.ends[id].bridge.written <= if id in s.client.ends then s.client.ends[id].bridge.read else []
    ensures id in s.client.ends && s.client.ends[id].bridge.writeClosed ==>
              s.agent.ends[id].bridge.eof && s.client.ends[id].bridge.written == s.agent.ends[id].bridge.read
    ensures id in s.agent.ends && s.agent.ends[id].bridge.writeClosed ==>
              && id in s.client.ends && s.client.ends[id].bridge.eof
              && s.agent.ends[id].bridge.written == s.client.ends[id].bridge.read
  {
    RunsKeepInv(steps, s);
    hide SideInv, Runs;
    OrderedPrefix(s.client.got, s.agent.sent);
    if id in s.client.ends {
      EndWritesPrefix(s.client, s.agent, id);
    }
    if id in s.agent.ends {
      EndWritesPrefix(s.agent, s.client, id);
    }
  }
}
