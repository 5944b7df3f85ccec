// Forwarding of one TCP connection through the agent: the client's forward_tcp
// against the agent's forward task, joined by a request and a response channel.
//
// The two tasks and the network are one transition system.  A step is one
// suspension point of one task, so every interleaving of the two is a run.  The
// label of a step carries what the environment decided: how much a read
// returned, how much of a write went through, whether a send was accepted.
module Forward {
  import opened Common
  import opened Channel

  // Why the client returned.  Only Finished and FullClose are Ok(()).
  datatype ClientEnd = Finished | FullClose | ClientFailed

  datatype ClientPhase =
    | CIdle
    | CSending(event: Event)
    | CWriting(rest: Bytes)
    | CDone(end: ClientEnd)

  // read/written are what went through the local socket, eof records that its
  // read side ended, shut that its write side was shut down.
  datatype Client = Client(
    phase: ClientPhase, localClosed: bool, remoteClosed: bool,
    read: Bytes, eof: bool, written: Bytes, shut: bool, halfSent: bool, fullSent: bool)

  datatype AgentEnd = BothClosed | Broke(code: nat) | SendFailed

  datatype AgentPhase =
    | AIdle
    | ASending(event: Event)
    | AWriting(rest: Bytes)
    | ABreaking(code: nat)
    | ADone(end: AgentEnd)

  datatype Agent = Agent(
    phase: AgentPhase, clientClosed: bool, targetClosed: bool,
    read: Bytes, eof: bool, written: Bytes, shut: bool, halfSent: bool, endSent: bool)

  // A channel is what was put on it and what the receiver took, the first part of
  // that.  The run starts when the agent has taken the opening event, so the
  // request channel is what follows it.
  datatype State = State(
    client: Client, agent: Agent,
    reqSent: seq<Event>, reqGot: seq<Event>, respSent: seq<Event>, respGot: seq<Event>)

  const INIT := State(
    Client(CIdle, false, false, [], false, [], false, false, false),
    Agent(AIdle, false, false, [], false, [], false, false, false),
    [], [], [], [])

  datatype Step =
    | ClientRead(bytes: Bytes) | ClientReadEof | ClientReadFails
    | ClientSend(ok: bool)
    | ClientTakes(shutdownOk: bool) | ClientStreamBreaks
    | ClientWrites(n: nat) | ClientWriteFails
    | ClientFinishes(sent: bool)
    | AgentRead(bytes: Bytes) | AgentReadEof | AgentReadFails(code: nat)
    | AgentSend(ok: bool)
    | AgentTakes(shutdownOk: bool) | AgentStreamBreaks(code: nat)
    | AgentWrites(n: nat) | AgentWriteFails
    | AgentFinishes(sent: bool) | AgentSendsCode(sent: bool)

  // What the client does with the next response event.
  function ClientOn(c: Client, e: Event, shutdownOk: bool): Client {
    match e
    case Data(d) => c.(phase := CWriting(d))
    case Close(code, half) =>
      if !shutdownOk then c.(phase := CDone(ClientFailed))
      else if code != 0 then c.(shut := true, phase := CDone(ClientFailed))
      else if half then c.(shut := true, remoteClosed := true)
      else c.(shut := true, phase := CDone(FullClose))
    case _ => c.(phase := CDone(ClientFailed))
  }

  // What the agent does with the next request event.
  function AgentOn(a: Agent, e: Event, shutdownOk: bool): Agent {
    match e
    case Data(d) => a.(phase := AWriting(d))
    case Close(code, half) =>
      if code != 0 then a.(phase := ABreaking(code))
      else if half then
        if shutdownOk then a.(shut := true, clientClosed := true) else a.(phase := ABreaking(1))
      else a.(phase := ABreaking(0))
    case _ => a.(phase := ABreaking(1))
  }

  // head is the next event of the response channel, if there is one.
  function ClientMove(c: Client, head: Option<Event>, step: Step): Option<Move<Client>> {
    match step
    case ClientRead(bytes) =>
      if c.phase.CIdle? && !c.localClosed && 0 < |bytes| <= 8192 then
        Local(c.(read := c.read + bytes, phase := CSending(Data(bytes))))
      else None
    case ClientReadEof =>
      if c.phase.CIdle? && !c.localClosed then Local(c.(eof := true, phase := CSending(HALF))) else None
    case ClientReadFails =>
      if c.phase.CIdle? && !c.localClosed then Local(c.(phase := CDone(ClientFailed))) else None
    case ClientSend(ok) =>
      if !c.phase.CSending? then None
      else if !ok then Local(c.(phase := CDone(ClientFailed)))
      else
        var half := c.phase.event == HALF;
        Some(Move(c.(phase := CIdle, localClosed := half || c.localClosed, halfSent := half || c.halfSent),
                  Some(c.phase.event), false))
    case ClientTakes(shutdownOk) =>
      if c.phase.CIdle? && !c.remoteClosed && head.Some? then
        Some(Move(ClientOn(c, head.value, shutdownOk), None, true))
      else None
    case ClientStreamBreaks =>
      if c.phase.CIdle? && !c.remoteClosed then Local(c.(phase := CDone(ClientFailed))) else None
    case ClientWrites(n) =>
      if c.phase.CWriting? && n <= |c.phase.rest| then
        var rest := c.phase.rest[n..];
        Local(c.(written := c.written + c.phase.rest[..n], phase := if rest == [] then CIdle else CWriting(rest)))
      else None
    case ClientWriteFails =>
      if c.phase.CWriting? then Local(c.(phase := CDone(ClientFailed))) else None
    case ClientFinishes(sent) =>
      if c.phase.CIdle? && c.localClosed && c.remoteClosed then
        Some(Move(c.(phase := CDone(Finished), fullSent := sent), if sent then Some(FULL) else None, false))
      else None
    case _ => None
  }

  // head is the next event of the request channel, if there is one.
  function AgentMove(a: Agent, head: Option<Event>, step: Step): Option<Move<Agent>> {
    match step
    case AgentRead(bytes) =>
      if a.phase.AIdle? && !a.targetClosed && 0 < |bytes| <= 8192 then
        Local(a.(read := a.read + bytes, phase := ASending(Data(bytes))))
      else None
    case AgentReadEof =>
      if a.phase.AIdle? && !a.targetClosed then
        Local(a.(eof := true, targetClosed := true, phase := ASending(HALF)))
      else None
    case AgentReadFails(code) =>
      if a.phase.AIdle? && !a.targetClosed && 1 <= code <= 2 then Local(a.(phase := ABreaking(code))) else None
    case AgentSend(ok) =>
      if !a.phase.ASending? then None
      else if !ok then Local(a.(phase := ADone(SendFailed)))
      else
        Some(Move(a.(phase := AIdle, halfSent := a.halfSent || a.phase.event == HALF), Some(a.phase.event), false))
    case AgentTakes(shutdownOk) =>
      if a.phase.AIdle? && !a.clientClosed && head.Some? then
        Some(Move(AgentOn(a, head.value, shutdownOk), None, true))
      else None
    case AgentStreamBreaks(code) =>
      if a.phase.AIdle? && !a.clientClosed && 1 <= code <= 2 then Local(a.(phase := ABreaking(code))) else None
    case AgentWrites(n) =>
      if a.phase.AWriting? && n <= |a.phase.rest| then
        var rest := a.phase.rest[n..];
        Local(a.(written := a.written + a.phase.rest[..n], phase := if rest == [] then AIdle else AWriting(rest)))
      else None
    case AgentWriteFails =>
      if a.phase.AWriting? then Local(a.(phase := ABreaking(1))) else None
    case AgentFinishes(sent) =>
      if a.phase.AIdle? && a.clientClosed && a.targetClosed then
        Some(Move(a.(phase := ADone(BothClosed), endSent := sent), if sent then Some(FULL) else None, false))
      else None
    case AgentSendsCode(sent) =>
      if a.phase.ABreaking? then
        Some(Move(a.(phase := ADone(Broke(a.phase.code)), endSent := sent),
                  if sent then Some(Close(a.phase.code, false)) else None, false))
      else None
    case _ => None
  }

  function AfterClient(s: State, m: Move<Client>): State {
    s.(client := m.peer, reqSent := Add(s.reqSent, m.emits),
       respGot := Add(s.respGot, Taken(m, Head(s.respSent, s.respGot))))
  }

  function AfterAgent(s: State, m: Move<Agent>): State {
    s.(agent := m.peer, respSent := Add(s.respSent, m.emits),
       reqGot := Add(s.reqGot, Taken(m, Head(s.reqSent, s.reqGot))))
  }

  function Next(s: State, step: Step): Option<State> {
    match ClientMove(s.client, Head(s.respSent, s.respGot), step)
    case Some(m) => Some(AfterClient(s, m))
    case None =>
      match AgentMove(s.agent, Head(s.reqSent, s.reqGot), step)
      case Some(m) => Some(AfterAgent(s, m))
      case None => None
  }

  // t is reached from s by exactly these steps.
  ghost predicate Runs(s: State, steps: seq<Step>, t: State)
    decreases |steps|
  {
    if steps == [] then s == t
    else
      var front := |steps| - 1;
      exists m :: Runs(s, steps[..front], m) && Next(m, steps[front]) == Some(t)
  }

  // ---- the invariant ----

  // What a task has put on its channel so far, seen through its flags and the
  // bytes it carries: `data` is the concatenation of the data events.
  ghost predicate ClientSent(c: Client, data: Bytes) {
    && (c.fullSent ==> c.phase == CDone(Finished))
    && (c.localClosed == c.halfSent)
    && (c.halfSent ==> c.eof && data == c.read)
    && (match c.phase
        case CSending(e) => !c.halfSent && (e.Data? || (e == HALF && c.eof)) && Carry(data, Some(e)) == c.read
        case CDone(Finished) => c.localClosed && c.remoteClosed
        case CDone(_) => data <= c.read
        case _ => data == c.read)
  }

  // What a task took from its channel, whose data events carried `data`.
  ghost predicate ClientGot(c: Client, data: Bytes) {
    && (c.remoteClosed ==> c.shut && c.written == data)
    && (match c.phase
        case CWriting(rest) => !c.remoteClosed && c.written + rest == data
        case CDone(ClientFailed) => c.written <= data
        case CDone(FullClose) => false
        case _ => c.written == data)
  }

  function ClientEndSent(c: Client): Option<nat> {
    if c.fullSent then Some(0) else None
  }

  ghost predicate AgentSent(a: Agent, data: Bytes) {
    && (a.endSent ==> a.phase.ADone? && a.phase.end != SendFailed)
    && (a.halfSent ==> a.targetClosed && a.eof && data == a.read)
    && (match a.phase
        case ASending(e) =>
          !a.halfSent && Carry(data, Some(e)) == a.read
          && if a.targetClosed then e == HALF && a.eof else e.Data?
        case ADone(BothClosed) => a.halfSent && a.clientClosed
        case ADone(_) => data <= a.read
        case ABreaking(_) => data == a.read
        case _ => data == a.read && a.targetClosed == a.halfSent)
  }

  ghost predicate AgentGot(a: Agent, data: Bytes) {
    && (a.clientClosed ==> a.shut && a.written == data)
    && (match a.phase
        case AWriting(rest) => !a.clientClosed && a.written + rest == data
        case AIdle => a.written == data
        case ASending(_) => a.written == data
        case ADone(BothClosed) => a.written == data && a.clientClosed
        case _ => a.written <= data)
  }

  function AgentEndSent(a: Agent): Option<nat> {
    if !a.endSent then None
    else match a.phase
      case ADone(BothClosed) => Some(0)
      case ADone(Broke(code)) => Some(code)
      case _ => None
  }

  // Breaking with code 0 answers a full close of the peer.
  predicate AnsweredFullClose(a: Agent) {
    a.phase == ABreaking(0) || a.phase == ADone(Broke(0))
  }

  predicate AgentLive(a: Agent) {
    a.phase.AIdle? || a.phase.ASending? || a.phase.AWriting?
  }

  ghost predicate ClientSentInv(c: Client, sent: seq<Event>) {
    Shape(sent, c.halfSent, ClientEndSent(c)) && ClientSent(c, DataOf(sent))
  }

  ghost predicate ClientGotInv(c: Client, taken: seq<Event>) {
    && ClientGot(c, DataOf(taken))
    && (!c.phase.CDone? || c.phase == CDone(Finished) || c.remoteClosed ==> Shape(taken, c.remoteClosed, None))
  }

  ghost predicate ClientInv(c: Client, sent: seq<Event>, taken: seq<Event>) {
    ClientSentInv(c, sent) && ClientGotInv(c, taken)
  }

  ghost predicate AgentSentInv(a: Agent, sent: seq<Event>) {
    Shape(sent, a.halfSent, AgentEndSent(a)) && AgentSent(a, DataOf(sent))
  }

  ghost predicate AgentGotInv(a: Agent, taken: seq<Event>) {
    && AgentGot(a, DataOf(taken))
    && (AgentLive(a) || a.clientClosed ==> Shape(taken, a.clientClosed, None))
    && (AnsweredFullClose(a) ==> FULL in taken)
  }

  ghost predicate AgentInv(a: Agent, sent: seq<Event>, taken: seq<Event>) {
    AgentSentInv(a, sent) && AgentGotInv(a, taken)
  }

  ghost predicate Inv(s: State) {
    && s.reqGot <= s.reqSent && s.respGot <= s.respSent
    && ClientInv(s.client, s.reqSent, s.respGot)
    && AgentInv(s.agent, s.respSent, s.reqGot)
  }

  // ---- each move keeps it ----

  // The steps of a task that read its socket or put events on its channel.
  predicate ClientSends(step: Step) {
    step.ClientRead? || step.ClientReadEof? || step.ClientReadFails? || step.ClientSend? || step.ClientFinishes?
  }

  predicate AgentSends(step: Step) {
    step.AgentRead? || step.AgentReadEof? || step.AgentReadFails? || step.AgentSend? || step.AgentFinishes?
    || step.AgentSendsCode?
  }

  lemma ClientMoveSends(c: Client, data: Bytes, head: Option<Event>, step: Step, m: Move<Client>)
    requires ClientSent(c, data) && ClientMove(c, head, step) == Some(m) && ClientSends(step)
    ensures ClientSent(m.peer, Carry(data, m.emits))
  {}

  lemma ClientMoveContinues(c: Client, data: Bytes, head: Option<Event>, step: Step, m: Move<Client>)
    requires ClientSent(c, data) && ClientMove(c, head, step) == Some(m) && ClientSends(step)
    ensures Continues(c.halfSent, ClientEndSent(c), m.emits, m.peer.halfSent, ClientEndSent(m.peer))
  {}

  lemma ClientMoveSendsNothing(c: Client, data: Bytes, head: Option<Event>, step: Step, m: Move<Client>)
    requires ClientSent(c, data) && ClientMove(c, head, step) == Some(m) && !ClientSends(step)
    ensures ClientSent(m.peer, data) && m.emits.None?
    ensures m.peer.halfSent == c.halfSent && ClientEndSent(m.peer) == ClientEndSent(c)
  {}

  lemma {:induction false} ClientSentKept(c: Client, sent: seq<Event>, head: Option<Event>, step: Step, m: Move<Client>)
    requires ClientSentInv(c, sent) && ClientMove(c, head, step) == Some(m)
    ensures ClientSentInv(m.peer, Add(sent, m.emits))
  {
    hide ClientMove, ClientSent, ClientEndSent, Shape, DataOf, Continues;
    if ClientSends(step) {
      DataOfAdd(sent, m.emits);
      ClientMoveSends(c, DataOf(sent), head, step, m);
      ClientMoveContinues(c, DataOf(sent), head, step, m);
      ShapeContinues(sent, c.halfSent, ClientEndSent(c), m.emits, m.peer.halfSent, ClientEndSent(m.peer));
    } else {
      ClientMoveSendsNothing(c, DataOf(sent), head, step, m);
    }
  }

  lemma ClientMoveGetsNothing(c: Client, data: Bytes, head: Option<Event>, step: Step, m: Move<Client>)
    requires ClientGot(c, data) && ClientMove(c, head, step) == Some(m) && !step.ClientTakes? && !step.ClientWrites?
    ensures ClientGot(m.peer, data)
  {}

  lemma ClientMoveWrites(c: Client, data: Bytes, head: Option<Event>, n: nat, m: Move<Client>)
    requires ClientGot(c, data) && ClientMove(c, head, ClientWrites(n)) == Some(m)
    ensures ClientGot(m.peer, data)
  {
    WriteSome(c.written, c.phase.rest, n, data);
  }

  lemma ClientMoveTakes(c: Client, head: Option<Event>, ok: bool, m: Move<Client>)
    requires ClientMove(c, head, ClientTakes(ok)) == Some(m)
    ensures head.Some? && c.phase.CIdle? && !c.remoteClosed && m.peer == ClientOn(c, head.value, ok)
  {}

  lemma ClientOnGets(c: Client, data: Bytes, e: Event, ok: bool)
    requires ClientGot(c, data) && c.phase.CIdle? && !c.remoteClosed && e != FULL
    ensures ClientGot(ClientOn(c, e, ok), Carry(data, Some(e)))
  {}

  lemma ClientOnContinues(c: Client, e: Event, ok: bool)
    requires c.phase.CIdle? && !c.remoteClosed && e != FULL
    ensures var t := ClientOn(c, e, ok);
            if t.phase.CDone? then t.phase != CDone(Finished) && !t.remoteClosed
            else Continues(false, None, Some(e), t.remoteClosed, None)
  {}

  lemma ClientMoveFlags(c: Client, head: Option<Event>, step: Step, m: Move<Client>)
    requires ClientMove(c, head, step) == Some(m)
    ensures !c.phase.CDone?
    ensures m.takes <==> step.ClientTakes?
    ensures m.takes ==> c.phase.CIdle? && !c.remoteClosed
    ensures !m.takes ==> m.peer.remoteClosed == c.remoteClosed
  {}

  lemma {:induction false} ClientGotKept(c: Client, got: seq<Event>, head: Option<Event>, step: Step, m: Move<Client>)
    requires ClientGotInv(c, got) && ClientMove(c, head, step) == Some(m)
    requires c.phase.CIdle? && !c.remoteClosed ==> head != Some(FULL)
    ensures m.takes ==> head.Some?
    ensures ClientGotInv(m.peer, Add(got, Taken(m, head)))
  {
    hide ClientMove, ClientOn, ClientGot, Shape, DataOf, Continues;
    ClientMoveFlags(c, head, step, m);
    if step.ClientTakes? {
      ClientMoveTakes(c, head, step.shutdownOk, m);
      ClientOnGets(c, DataOf(got), head.value, step.shutdownOk);
      ClientOnContinues(c, head.value, step.shutdownOk);
      DataOfAdd(got, head);
      if !m.peer.phase.CDone? {
        ShapeContinues(got, false, None, head, m.peer.remoteClosed, None);
      }
    } else if step.ClientWrites? {
      ClientMoveWrites(c, DataOf(got), head, step.n, m);
    } else {
      ClientMoveGetsNothing(c, DataOf(got), head, step, m);
    }
  }

  lemma AgentMoveSends(a: Agent, data: Bytes, head: Option<Event>, step: Step, m: Move<Agent>)
    requires AgentSent(a, data) && AgentMove(a, head, step) == Some(m) && AgentSends(step)
    ensures AgentSent(m.peer, Carry(data, m.emits))
  {}

  lemma AgentMoveContinues(a: Agent, data: Bytes, head: Option<Event>, step: Step, m: Move<Agent>)
    requires AgentSent(a, data) && AgentMove(a, head, step) == Some(m) && AgentSends(step)
    ensures Continues(a.halfSent, AgentEndSent(a), m.emits, m.peer.halfSent, AgentEndSent(m.peer))
  {}

  lemma AgentMoveSendsNothing(a: Agent, data: Bytes, head: Option<Event>, step: Step, m: Move<Agent>)
    requires AgentSent(a, data) && AgentMove(a, head, step) == Some(m) && !AgentSends(step)
    ensures AgentSent(m.peer, data) && m.emits.None?
    ensures m.peer.halfSent == a.halfSent && AgentEndSent(m.peer) == AgentEndSent(a)
  {}

  lemma {:induction false} AgentSentKept(a: Agent, sent: seq<Event>, head: Option<Event>, step: Step, m: Move<Agent>)
    requires AgentSentInv(a, sent) && AgentMove(a, head, step) == Some(m)
    ensures AgentSentInv(m.peer, Add(sent, m.emits))
  {
    hide AgentMove, AgentSent, AgentEndSent, Shape, DataOf, Continues;
    if AgentSends(step) {
      DataOfAdd(sent, m.emits);
      AgentMoveSends(a, DataOf(sent), head, step, m);
      AgentMoveContinues(a, DataOf(sent), head, step, m);
      ShapeContinues(sent, a.halfSent, AgentEndSent(a), m.emits, m.peer.halfSent, AgentEndSent(m.peer));
    } else {
      AgentMoveSendsNothing(a, DataOf(sent), head, step, m);
    }
  }

  lemma AgentMoveGetsNothing(a: Agent, data: Bytes, head: Option<Event>, step: Step, m: Move<Agent>)
    requires AgentGot(a, data) && AgentMove(a, head, step) == Some(m) && !step.AgentTakes? && !step.AgentWrites?
    ensures AgentGot(m.peer, data)
  {}

  lemma AgentMoveWrites(a: Agent, data: Bytes, head: Option<Event>, n: nat, m: Move<Agent>)
    requires AgentGot(a, data) && AgentMove(a, head, AgentWrites(n)) == Some(m)
    ensures AgentGot(m.peer, data)
  {
    WriteSome(a.written, a.phase.rest, n, data);
  }

  lemma AgentMoveTakes(a: Agent, head: Option<Event>, ok: bool, m: Move<Agent>)
    requires AgentMove(a, head, AgentTakes(ok)) == Some(m)
    ensures head.Some? && a.phase.AIdle? && !a.clientClosed && m.peer == AgentOn(a, head.value, ok)
  {}

  lemma AgentOnGets(a: Agent, data: Bytes, e: Event, ok: bool)
    requires AgentGot(a, data) && a.phase.AIdle? && !a.clientClosed
    ensures AgentGot(AgentOn(a, e, ok), Carry(data, Some(e)))
  {}

  lemma AgentOnContinues(a: Agent, e: Event, ok: bool)
    requires a.phase.AIdle? && !a.clientClosed
    ensures var t := AgentOn(a, e, ok);
            && (if AgentLive(t) then Continues(false, None, Some(e), t.clientClosed, None) else !t.clientClosed)
            && (AnsweredFullClose(t) ==> e == FULL)
  {}

  lemma AgentMoveFlags(a: Agent, head: Option<Event>, step: Step, m: Move<Agent>)
    requires AgentMove(a, head, step) == Some(m)
    ensures m.takes <==> step.AgentTakes?
    ensures !m.takes ==> m.peer.clientClosed == a.clientClosed
    ensures !m.takes ==> (AgentLive(m.peer) ==> AgentLive(a)) && (AnsweredFullClose(m.peer) ==> AnsweredFullClose(a))
  {}

  lemma {:induction false} AgentGotKept(a: Agent, got: seq<Event>, head: Option<Event>, step: Step, m: Move<Agent>)
    requires AgentGotInv(a, got) && AgentMove(a, head, step) == Some(m)
    ensures m.takes ==> head.Some?
    ensures AgentGotInv(m.peer, Add(got, Taken(m, head)))
  {
    hide AgentMove, AgentOn, AgentGot, AnsweredFullClose, Shape, DataOf, Continues;
    AgentMoveFlags(a, head, step, m);
    if step.AgentTakes? {
      AgentMoveTakes(a, head, step.shutdownOk, m);
      AgentOnGets(a, DataOf(got), head.value, step.shutdownOk);
      AgentOnContinues(a, head.value, step.shutdownOk);
      DataOfAdd(got, head);
      if AgentLive(m.peer) {
        ShapeContinues(got, false, None, head, m.peer.clientClosed, None);
      }
    } else if step.AgentWrites? {
      AgentMoveWrites(a, DataOf(got), head, step.n, m);
    } else {
      AgentMoveGetsNothing(a, DataOf(got), head, step, m);
    }
  }

  // A full close among the requests was sent by a client that had finished.
  lemma FullCloseIsLast(s: State)
    requires Inv(s) && FULL in s.reqGot
    ensures s.client.phase == CDone(Finished)
  {
    var i :| 0 <= i < |s.reqGot| && s.reqGot[i] == FULL;
    assert s.reqSent[i] == FULL;
  }

  // The event a client at its select takes next is never a clean full close: the
  // agent sends one only after its half-close, or to answer the client's own.
  lemma {:induction false} NoCleanFullClose(s: State)
    requires Inv(s) && s.client.phase.CIdle? && !s.client.remoteClosed
    ensures Head(s.respSent, s.respGot) != Some(FULL)
  {
    if Head(s.respSent, s.respGot) == Some(FULL) {
      var end := AgentEndSent(s.agent);
      var n := |s.respSent| - (if s.agent.halfSent then 1 else 0) - (if end.Some? then 1 else 0);
      assert forall i :: 0 <= i < n ==> s.respSent[..n][i] == s.respSent[i];
      assert forall i :: 0 <= i < |s.respGot| ==> s.respGot[i] == s.respSent[i];
      assert AnsweredFullClose(s.agent);
      FullCloseIsLast(s);
    }
  }

  lemma {:induction false} ClientInvKept(c: Client, sent: seq<Event>, got: seq<Event>, head: Option<Event>, step: Step, m: Move<Client>)
    requires ClientInv(c, sent, got) && ClientMove(c, head, step) == Some(m)
    requires c.phase.CIdle? && !c.remoteClosed ==> head != Some(FULL)
    ensures m.takes ==> head.Some?
    ensures ClientInv(m.peer, Add(sent, m.emits), Add(got, Taken(m, head)))
  {
    hide ClientMove, ClientSentInv, ClientGotInv;
    ClientSentKept(c, sent, head, step, m);
    ClientGotKept(c, got, head, step, m);
  }

  lemma {:induction false} AgentInvKept(a: Agent, sent: seq<Event>, got: seq<Event>, head: Option<Event>, step: Step, m: Move<Agent>)
    requires AgentInv(a, sent, got) && AgentMove(a, head, step) == Some(m)
    ensures m.takes ==> head.Some?
    ensures AgentInv(m.peer, Add(sent, m.emits), Add(got, Taken(m, head)))
  {
    hide AgentMove, AgentSentInv, AgentGotInv;
    AgentSentKept(a, sent, head, step, m);
    AgentGotKept(a, got, head, step, m);
  }

  lemma AfterClientKeepsInv(s: State, m: Move<Client>)
    requires Inv(s) && (m.takes ==> Head(s.respSent, s.respGot).Some?)
    requires ClientInv(m.peer, Add(s.reqSent, m.emits), Add(s.respGot, Taken(m, Head(s.respSent, s.respGot))))
    ensures Inv(AfterClient(s, m))
  {
    hide ClientInv, AgentInv;
  }

  lemma AfterAgentKeepsInv(s: State, m: Move<Agent>)
    requires Inv(s) && (m.takes ==> Head(s.reqSent, s.reqGot).Some?)
    requires AgentInv(m.peer, Add(s.respSent, m.emits), Add(s.reqGot, Taken(m, Head(s.reqSent, s.reqGot))))
    ensures Inv(AfterAgent(s, m))
  {
    hide ClientInv, AgentInv;
  }

  lemma {:induction false} StepKeepsInv(s: State, step: Step, t: State)
    requires Inv(s) && Next(s, step) == Some(t)
    ensures Inv(t)
  {
    hide ClientMove, AgentMove, ClientInv, AgentInv, AfterClient, AfterAgent;
    var respHead, reqHead := Head(s.respSent, s.respGot), Head(s.reqSent, s.reqGot);
    var move := ClientMove(s.client, respHead, step);
    if move.Some? {
      if s.client.phase.CIdle? && !s.client.remoteClosed {
        NoCleanFullClose(s);
      }
      ClientInvKept(s.client, s.reqSent, s.respGot, respHead, step, move.value);
      AfterClientKeepsInv(s, move.value);
    } else {
      var m := AgentMove(s.agent, reqHead, step).value;
      AgentInvKept(s.agent, s.respSent, s.reqGot, reqHead, step, m);
      AfterAgentKeepsInv(s, m);
    }
  }

  lemma {:induction false} RunsKeepInv(steps: seq<Step>, s: State)
    requires Runs(INIT, steps, s)
    ensures Inv(s)
    decreases |steps|
  {
    if steps != [] {
      var front := |steps| - 1;
      var m :| Runs(INIT, steps[..front], m) && Next(m, steps[front]) == Some(s);
      RunsKeepInv(steps[..front], m);
      StepKeepsInv(m, steps[front], s);
    }
  }

  // ---- what callers may rely on, in every run ----

  // Neither socket is ever given a byte the other did not produce, in another
  // order, or with a gap.
  lemma {:induction false} WrittenIsPrefixOfRead(steps: seq<Step>, s: State)
    requires Runs(INIT, steps, s)
    ensures s.client.written <= s.agent.read
    ensures s.agent.written <= s.client.read
  {
    hide Runs, Shape, DataOf;
    RunsKeepInv(steps, s);
    DataOfPrefix(s.respGot, s.respSent);
    DataOfPrefix(s.reqGot, s.reqSent);
  }

  // Neither channel carries data after any close event.
  lemma {:induction false} NoDataAfterClose(steps: seq<Step>, s: State)
    requires Runs(INIT, steps, s)
    ensures forall i, j :: 0 <= i < j < |s.reqSent| && s.reqSent[i].Close? ==> !s.reqSent[j].Data?
    ensures forall i, j :: 0 <= i < j < |s.respSent| && s.respSent[i].Close? ==> !s.respSent[j].Data?
  {
    hide Runs, Shape, DataOf;
    RunsKeepInv(steps, s);
    ShapeNoDataAfterClose(s.reqSent, s.client.halfSent, ClientEndSent(s.client));
    ShapeNoDataAfterClose(s.respSent, s.agent.halfSent, AgentEndSent(s.agent));
  }

  // Whoever has taken the other side's half-close has written everything the other
  // side produced up to its end, even when it fails afterwards.
  lemma {:induction false} HalfCloseMeansDelivered(steps: seq<Step>, s: State)
    requires Runs(INIT, steps, s)
    ensures s.client.remoteClosed ==> s.agent.eof && s.client.shut && s.client.written == s.agent.read
    ensures s.agent.clientClosed ==> s.client.eof && s.agent.shut && s.agent.written == s.client.read
  {
    hide Runs, Shape, DataOf;
    RunsKeepInv(steps, s);
    if s.client.remoteClosed {
      HalfCloseCarriesAll(s.respGot, s.respSent, s.agent.halfSent, AgentEndSent(s.agent));
    }
    if s.agent.clientClosed {
      HalfCloseCarriesAll(s.reqGot, s.reqSent, s.client.halfSent, ClientEndSent(s.client));
    }
  }

  // When forward_tcp returns Ok: both directions were half-closed, everything the
  // target produced up to its end was written locally, and the request channel
  // carried all local data, the half-close and (unless the receiver was gone) the
  // full close.
  lemma {:induction false} ClientOkMeansComplete(steps: seq<Step>, s: State)
    requires Runs(INIT, steps, s)
    requires s.client.phase.CDone? && s.client.phase.end != ClientFailed
    ensures s.client.phase.end == Finished
    ensures s.client.localClosed && s.client.remoteClosed && s.client.eof && s.client.shut
    ensures s.agent.eof && s.client.written == s.agent.read
    ensures exists data ::
      && DataOnly(data) && DataOf(data) == s.client.read
      && s.reqSent == data + [HALF] + (if s.client.fullSent then [FULL] else [])
  {
    hide Runs, Shape, DataOf;
    RunsKeepInv(steps, s);
    HalfCloseMeansDelivered(steps, s);
    ShapeWithHalf(s.reqSent, ClientEndSent(s.client));
  }

  // The agent's own clean end has the mirror image.
  lemma {:induction false} AgentCleanEndMeansComplete(steps: seq<Step>, s: State)
    requires Runs(INIT, steps, s)
    requires s.agent.phase == ADone(BothClosed)
    ensures s.client.eof && s.agent.eof && s.agent.shut && s.agent.written == s.client.read
  {
    hide Runs, Shape, DataOf;
    RunsKeepInv(steps, s);
    HalfCloseMeansDelivered(steps, s);
  }
}
