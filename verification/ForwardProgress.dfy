// Success of a forwarded connection is always within reach: from every state in which
// both tasks still run, whatever is under way, they can go on to end cleanly with all
// data delivered both ways.
module ForwardProgress {
  import opened Common
  import opened Channel
  import opened Forward

  ghost predicate Reaches(s: State, t: State) {
    exists steps :: Runs(s, steps, t)
  }

  // Neither task has ended or is breaking off.
  predicate Running(s: State) {
    !s.client.phase.CDone? && AgentLive(s.agent)
  }

  lemma ReachesSelf(s: State)
    ensures Reaches(s, s)
  {
    assert Runs(s, [], s);
  }

  lemma {:induction false} ReachesOn(s: State, m: State, step: Step, t: State)
    requires Reaches(s, m) && Next(m, step) == Some(t)
    ensures Reaches(s, t)
  {
    hide Next;
    var steps :| Runs(s, steps, m);
    var all := steps + [step];
    assert all[..|all| - 1] == steps;
    assert Runs(s, all, t);
  }

  lemma {:induction false} ReachesRuns(s: State, m: State, steps: seq<Step>, t: State) returns (all: seq<Step>)
    requires Runs(s, steps, m) && Reaches(m, t)
    ensures Runs(s, all, t)
  {
    var more :| Runs(m, more, t);
    RunsOn(s, steps, m, more, t);
    all := steps + more;
  }

  lemma {:induction false} RunsOn(s: State, a: seq<Step>, m: State, b: seq<Step>, t: State)
    requires Runs(s, a, m) && Runs(m, b, t)
    ensures Runs(s, a + b, t)
    decreases |b|
  {
    hide Next;
    if b == [] {
      assert a + b == a;
    } else {
      var front := |b| - 1;
      var n :| Runs(m, b[..front], n) && Next(n, b[front]) == Some(t);
      RunsOn(s, a, m, b[..front], n);
      assert (a + b)[..|a + b| - 1] == a + b[..front];
    }
  }

  // ---- what is still to be done ----

  function ClientWork(c: Client): nat {
    (if c.phase.CSending? then 3 else if c.phase.CWriting? then 1 else 0)
    + (if c.localClosed || c.phase == CSending(HALF) then 0 else 4)
  }

  function AgentWork(a: Agent): nat {
    (if a.phase.ASending? then 3 else if a.phase.AWriting? then 1 else 0) + (if a.targetClosed then 0 else 4)
  }

  function Work(s: State): nat
    requires |s.reqGot| <= |s.reqSent| && |s.respGot| <= |s.respSent|
  {
    ClientWork(s.client) + AgentWork(s.agent) + 2 * (|s.reqSent| - |s.reqGot|) + 2 * (|s.respSent| - |s.respGot|)
  }

  // What one of the tasks can do next; None when only ending cleanly is left.
  function Todo(s: State): Option<Step> {
    if s.client.phase.CSending? then Some(ClientSend(true))
    else if s.client.phase.CWriting? then Some(ClientWrites(|s.client.phase.rest|))
    else if s.agent.phase.ASending? then Some(AgentSend(true))
    else if s.agent.phase.AWriting? then Some(AgentWrites(|s.agent.phase.rest|))
    else if |s.respGot| < |s.respSent| then Some(ClientTakes(true))
    else if |s.reqGot| < |s.reqSent| then Some(AgentTakes(true))
    else if !s.client.localClosed then Some(ClientReadEof)
    else if !s.agent.targetClosed then Some(AgentReadEof)
    else None
  }

  // While both tasks run, the next event each one takes is data or the half-close, and one
  // that has taken everything from a closed side knows that it is closed.
  lemma {:induction false} RunningHeads(s: State)
    requires Inv(s) && Running(s)
    ensures |s.respGot| < |s.respSent| ==>
              var e := s.respSent[|s.respGot|]; !s.client.remoteClosed && (e.Data? || e == HALF)
    ensures |s.reqGot| < |s.reqSent| ==>
              var e := s.reqSent[|s.reqGot|]; !s.agent.clientClosed && (e.Data? || e == HALF)
    ensures |s.respGot| == |s.respSent| ==> s.client.remoteClosed == s.agent.halfSent
    ensures |s.reqGot| == |s.reqSent| ==> s.agent.clientClosed == s.client.halfSent
    ensures s.client.phase.CIdle? ==> s.client.localClosed == s.client.halfSent
    ensures s.agent.phase.AIdle? ==> s.agent.targetClosed == s.agent.halfSent
    ensures s.client.phase.CSending? ==> s.client.phase.event.Data? || s.client.phase.event == HALF
  {
    hide Shape, DataOf;
    NextInShape(s.respSent, s.agent.halfSent, s.respGot, s.client.remoteClosed);
    NextInShape(s.reqSent, s.client.halfSent, s.reqGot, s.agent.clientClosed);
  }

  // The selects: a live client or agent that takes the other side's half-close goes on.
  lemma {:induction false} HalfCloseKeepsRunning(s: State)
    requires s.client.phase.CIdle? && !s.client.remoteClosed && Head(s.respSent, s.respGot) == Some(HALF)
    ensures var t := Next(s, ClientTakes(true));
            && t.Some? && t.value.client.phase.CIdle? && t.value.client.remoteClosed && t.value.client.shut
            && t.value.client.localClosed == s.client.localClosed && t.value.agent == s.agent
  {
    hide AgentMove;
  }

  lemma {:induction false} HalfCloseKeepsAgentRunning(s: State)
    requires s.agent.phase.AIdle? && !s.agent.clientClosed && Head(s.reqSent, s.reqGot) == Some(HALF)
    ensures var t := Next(s, AgentTakes(true));
            && t.Some? && t.value.agent.phase.AIdle? && t.value.agent.clientClosed && t.value.agent.shut
            && t.value.agent.targetClosed == s.agent.targetClosed && t.value.client == s.client
  {
  }

  // The task can take the step, goes on, and has less to do.
  ghost predicate ClientCan(s: State, step: Step) {
    var t := Next(s, step);
    && t.Some? && t.value.agent == s.agent && !t.value.client.phase.CDone?
    && t.value.client.read == s.client.read
    && |t.value.reqGot| <= |t.value.reqSent| && |t.value.respGot| <= |t.value.respSent|
    && |s.reqGot| <= |s.reqSent| && |s.respGot| <= |s.respSent|
    && Work(t.value) < Work(s)
  }

  ghost predicate AgentCan(s: State, step: Step) {
    var t := Next(s, step);
    && t.Some? && t.value.client == s.client && AgentLive(t.value.agent)
    && t.value.agent.read == s.agent.read
    && |t.value.reqGot| <= |t.value.reqSent| && |t.value.respGot| <= |t.value.respSent|
    && |s.reqGot| <= |s.reqSent| && |s.respGot| <= |s.respSent|
    && Work(t.value) < Work(s)
  }

  lemma ClientSends(s: State)
    requires |s.reqGot| <= |s.reqSent| && |s.respGot| <= |s.respSent|
    requires s.client.phase.CSending? && (s.client.phase.event.Data? || s.client.phase.event == HALF)
    ensures ClientCan(s, ClientSend(true))
  {
    hide AgentMove, AgentWork;
  }

  lemma ClientWritesAll(s: State)
    requires |s.reqGot| <= |s.reqSent| && |s.respGot| <= |s.respSent|
    requires s.client.phase.CWriting?
    ensures ClientCan(s, ClientWrites(|s.client.phase.rest|))
  {
    hide AgentMove, AgentWork;
  }

  lemma ClientGets(s: State)
    requires |s.reqGot| <= |s.reqSent| && |s.respGot| < |s.respSent|
    requires s.client.phase.CIdle? && !s.client.remoteClosed
    requires s.respSent[|s.respGot|].Data? || s.respSent[|s.respGot|] == HALF
    ensures ClientCan(s, ClientTakes(true))
  {
    hide AgentMove, AgentWork;
  }

  lemma ClientEofs(s: State)
    requires |s.reqGot| <= |s.reqSent| && |s.respGot| <= |s.respSent|
    requires s.client.phase.CIdle? && !s.client.localClosed
    ensures ClientCan(s, ClientReadEof)
  {
    hide AgentMove, AgentWork;
  }

  lemma AgentSends(s: State)
    requires |s.reqGot| <= |s.reqSent| && |s.respGot| <= |s.respSent|
    requires s.agent.phase.ASending?
    ensures AgentCan(s, AgentSend(true))
  {
    hide ClientWork;
    assert ClientMove(s.client, Head(s.respSent, s.respGot), AgentSend(true)) == None;
  }

  lemma AgentWritesAll(s: State)
    requires |s.reqGot| <= |s.reqSent| && |s.respGot| <= |s.respSent|
    requires s.agent.phase.AWriting?
    ensures AgentCan(s, AgentWrites(|s.agent.phase.rest|))
  {
    hide ClientWork;
    assert ClientMove(s.client, Head(s.respSent, s.respGot), AgentWrites(|s.agent.phase.rest|)) == None;
  }

  lemma AgentGets(s: State)
    requires |s.reqGot| < |s.reqSent| && |s.respGot| <= |s.respSent|
    requires s.agent.phase.AIdle? && !s.agent.clientClosed
    requires s.reqSent[|s.reqGot|].Data? || s.reqSent[|s.reqGot|] == HALF
    ensures AgentCan(s, AgentTakes(true))
  {
    hide ClientWork;
    assert ClientMove(s.client, Head(s.respSent, s.respGot), AgentTakes(true)) == None;
  }

  lemma AgentEofs(s: State)
    requires |s.reqGot| <= |s.reqSent| && |s.respGot| <= |s.respSent|
    requires s.agent.phase.AIdle? && !s.agent.targetClosed
    ensures AgentCan(s, AgentReadEof)
  {
    hide ClientWork;
    assert ClientMove(s.client, Head(s.respSent, s.respGot), AgentReadEof) == None;
  }

  lemma {:induction false} TodoCan(s: State)
    requires Inv(s) && Running(s) && Todo(s).Some?
    ensures ClientCan(s, Todo(s).value) || AgentCan(s, Todo(s).value)
  {
    hide Inv, ClientCan, AgentCan;
    InvOrdersChannels(s);
    RunningHeads(s);
    match Todo(s).value
    case ClientSend(_) => ClientSends(s);
    case ClientWrites(_) => ClientWritesAll(s);
    case ClientTakes(_) => ClientGets(s);
    case ClientReadEof => ClientEofs(s);
    case AgentSend(_) => AgentSends(s);
    case AgentWrites(_) => AgentWritesAll(s);
    case AgentTakes(_) => AgentGets(s);
    case AgentReadEof => AgentEofs(s);
  }

  lemma {:induction false} AgentCanEnd(s: State)
    requires s.client.phase.CIdle? && s.client.localClosed && s.client.remoteClosed
    requires s.agent.phase.AIdle? && s.agent.clientClosed && s.agent.targetClosed
    ensures Next(s, AgentFinishes(true)).Some?
    ensures var t := Next(s, AgentFinishes(true)).value;
            t.client == s.client && t.agent.phase == ADone(BothClosed) && t.agent.read == s.agent.read
  {}

  lemma {:induction false} ClientCanEnd(s: State)
    requires s.client.phase.CIdle? && s.client.localClosed && s.client.remoteClosed
    ensures Next(s, ClientFinishes(true)).Some?
    ensures var t := Next(s, ClientFinishes(true)).value;
            && t.agent == s.agent && t.client.phase == CDone(Finished) && t.client.read == s.client.read
            && t.client.fullSent
  {
    hide AgentMove;
  }

  lemma {:induction false} LastSteps(s0: State, s: State) returns (t: State)
    requires Reaches(s0, s) && Inv(s) && Running(s) && Todo(s).None?
    ensures Reaches(s0, t) && Inv(t)
    ensures t.client.phase == CDone(Finished) && t.agent.phase == ADone(BothClosed)
    ensures t.client.read == s.client.read && t.agent.read == s.agent.read
    ensures t.client.fullSent
  {
    hide Inv, Reaches, Next;
    RunningHeads(s);
    InvOrdersChannels(s);
    AgentCanEnd(s);
    var m := Next(s, AgentFinishes(true)).value;
    ReachesOn(s0, s, AgentFinishes(true), m);
    StepKeepsInv(s, AgentFinishes(true), m);
    ClientCanEnd(m);
    t := Next(m, ClientFinishes(true)).value;
    ReachesOn(s0, m, ClientFinishes(true), t);
    StepKeepsInv(m, ClientFinishes(true), t);
  }

  lemma InvOrdersChannels(s: State)
    requires Inv(s)
    ensures |s.reqGot| <= |s.reqSent| && |s.respGot| <= |s.respSent|
  {}

  lemma {:induction false} CanFinish(s0: State, s: State) returns (t: State)
    requires Reaches(s0, s) && Inv(s) && Running(s)
    ensures Reaches(s0, t) && Inv(t)
    ensures t.client.phase == CDone(Finished) && t.agent.phase == ADone(BothClosed)
    ensures t.client.read == s.client.read && t.agent.read == s.agent.read
    ensures t.client.fullSent
    decreases Work(s)
  {
    hide Inv, Reaches, Next, Work;
    var step := Todo(s);
    if step.None? {
      t := LastSteps(s0, s);
    } else {
      TodoCan(s);
      var m := Next(s, step.value).value;
      ReachesOn(s0, s, step.value, m);
      StepKeepsInv(s, step.value, m);
      t := CanFinish(s0, m);
    }
  }

  // ---- every connection can be forwarded ----

  // In every run, as long as both tasks run, the client can still return Ok with
  // everything that was read delivered to the other side.
  lemma {:induction false} SuccessStaysPossible(steps: seq<Step>, s: State) returns (all: seq<Step>, t: State)
    requires Runs(INIT, steps, s) && Running(s)
    ensures Runs(INIT, all, t)
    ensures t.client.phase == CDone(Finished) && t.agent.phase == ADone(BothClosed)
    ensures t.client.read == s.client.read && t.agent.written == s.client.read
    ensures t.agent.read == s.agent.read && t.client.written == s.agent.read
  {
    hide Runs;
    RunsKeepInv(steps, s);
    ReachesSelf(s);
    t := CanFinish(s, s);
    all := ReachesRuns(INIT, s, steps, t);
    ClientOkMeansComplete(all, t);
    AgentCleanEndMeansComplete(all, t);
  }

  // Neither side's socket has ended and neither task is in the middle of something.
  predicate Reading(s: State) {
    s.client.phase.CIdle? && s.agent.phase.AIdle? && !s.client.localClosed && !s.agent.targetClosed
  }

  lemma {:induction false} ReadLocal(m: State, bytes: Bytes) returns (s: State)
    requires Reaches(INIT, m) && Reading(m) && 1 <= |bytes| <= 8192
    ensures Reaches(INIT, s) && Reading(s)
    ensures s.client.read == m.client.read + bytes && s.agent == m.agent
  {
    hide AgentMove, Reaches;
    var n := Next(m, ClientRead(bytes)).value;
    ReachesOn(INIT, m, ClientRead(bytes), n);
    s := Next(n, ClientSend(true)).value;
    ReachesOn(INIT, n, ClientSend(true), s);
  }

  lemma {:induction false} ReadTarget(m: State, bytes: Bytes) returns (s: State)
    requires Reaches(INIT, m) && Reading(m) && 1 <= |bytes| <= 8192
    ensures Reaches(INIT, s) && Reading(s)
    ensures s.agent.read == m.agent.read + bytes && s.client == m.client
  {
    hide Reaches;
    var n := Next(m, AgentRead(bytes)).value;
    ReachesOn(INIT, m, AgentRead(bytes), n);
    s := Next(n, AgentSend(true)).value;
    ReachesOn(INIT, n, AgentSend(true), s);
  }

  // Both sockets yield this data, a byte at a time.
  lemma {:induction false} ReadBoth(local: Bytes, target: Bytes) returns (s: State)
    ensures Reaches(INIT, s) && Reading(s) && s.client.read == local && s.agent.read == target
    decreases |local| + |target|
  {
    hide Reaches;
    if local != [] {
      var m := ReadBoth(local[..|local| - 1], target);
      s := ReadLocal(m, [local[|local| - 1]]);
    } else if target != [] {
      var m := ReadBoth(local, target[..|target| - 1]);
      s := ReadTarget(m, [target[|target| - 1]]);
    } else {
      s := INIT;
      ReachesSelf(INIT);
    }
  }

  // For any data of the two sides there is a run in which the client returns Ok and each
  // side was written exactly what the other one produced.
  lemma {:induction false} AnythingCanBeForwarded(local: Bytes, target: Bytes) returns (steps: seq<Step>, t: State)
    ensures Runs(INIT, steps, t)
    ensures t.client.phase == CDone(Finished) && t.agent.phase == ADone(BothClosed)
    ensures t.client.read == local && t.agent.written == local
    ensures t.agent.read == target && t.client.written == target
  {
    hide Runs;
    var s := ReadBoth(local, target);
    var first :| Runs(INIT, first, s);
    steps, t := SuccessStaysPossible(first, s);
  }

  // Otherwise an error code of one side reaches the other one and ends it: what the client
  // sends as a full close the agent answers with the same code, and a client that takes a
  // code other than zero fails.
  lemma {:induction false} CloseIsAnswered(s: State, code: nat)
    requires s.agent.phase.AIdle? && !s.agent.clientClosed
    requires Head(s.reqSent, s.reqGot) == Some(Close(code, false))
    ensures var m := Next(s, AgentTakes(true));
            && m.Some?
            && var t := Next(m.value, AgentSendsCode(true));
            && t.Some? && t.value.respSent == s.respSent + [Close(code, false)]
            && t.value.agent.phase == ADone(Broke(code))
  {
  }

  // A full close without an error code, which no agent sends before it is asked to, would
  // end the client without one.
  lemma {:induction false} FullCloseEndsClient(s: State)
    requires s.client.phase.CIdle? && !s.client.remoteClosed
    requires Head(s.respSent, s.respGot) == Some(Close(0, false))
    ensures Next(s, ClientTakes(true)).Some? && Next(s, ClientTakes(true)).value.client.phase == CDone(FullClose)
  {
    hide AgentMove;
  }

  lemma {:induction false} CodeFailsClient(s: State, code: nat, half: bool, ok: bool)
    requires s.client.phase.CIdle? && !s.client.remoteClosed
    requires Head(s.respSent, s.respGot) == Some(Close(code, half)) && code != 0
    ensures Next(s, ClientTakes(ok)).Some? && Next(s, ClientTakes(ok)).value.client.phase == CDone(ClientFailed)
  {
    hide AgentMove;
  }
}
