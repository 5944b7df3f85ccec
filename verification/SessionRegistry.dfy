// The registry of terminal sessions: requests that create or join a session, the owner
// task of each session, the execution slots they hold, and closing a session by name.
module SessionRequests {
  import opened Common

  const PROTOCOL: nat := 3

  // The parts of an execution request that decide about a session.
  datatype Request = Request(version: nat, user: string, pty: bool, name: string, rows: nat, cols: nat)

  datatype Error =
    | UnsupportedProtocol | NeedsPty | BadName | BadSize
    | AlreadyExists | OtherUser | Exhausted | NotFound

  function Dimensions(rows: nat, cols: nat): (r: Result<(nat, nat), Error>)
    ensures r.Success? <==> rows <= 200 && cols <= 500
    ensures r.Success? ==>
              && r.value.0 == (if rows == 0 then 24 else rows)
              && r.value.1 == (if cols == 0 then 80 else cols)
    ensures r.Success? ==> 1 <= r.value.0 <= 200 && 1 <= r.value.1 <= 500
  {
    var rows := if rows == 0 then 24 else rows;
    var cols := if cols == 0 then 80 else cols;
    if rows > 200 || cols > 500 then Failure(BadSize) else Success((rows, cols))
  }

  // Dimensions that were accepted once are accepted again, unchanged.
  lemma DimensionsIdempotent(rows: nat, cols: nat)
    requires Dimensions(rows, cols).Success?
    ensures var size := Dimensions(rows, cols).value;
            Dimensions(size.0, size.1) == Success(size)
  {
  }

  predicate NameChar(c: char) {
    'a' <= c <= 'z' || 'A' <= c <= 'Z' || '0' <= c <= '9' || c == '-' || c == '_'
  }

  predicate ValidName(name: string) {
    0 < |name| <= 64 && forall i :: 0 <= i < |name| ==> NameChar(name[i])
  }

  function NameOf(first: Request): string {
    if first.name == "" then "main" else first.name
  }

  function UserOf(first: Request): string {
    if first.user == "" then "pbox" else first.user
  }

  // The checks made before the registry is locked, with the defaults filled in.
  function Checked(first: Request): Result<Request, Error> {
    if first.version != PROTOCOL then Failure(UnsupportedProtocol)
    else if !first.pty then Failure(NeedsPty)
    else
      var user := if first.user == "" then "pbox" else first.user;
      var name := if first.name == "" then "main" else first.name;
      var size := Dimensions(first.rows, first.cols);
      if !ValidName(name) then Failure(BadName)
      else if size.Failure? then Failure(size.error)
      else Success(first.(user := user, name := name, rows := size.value.0, cols := size.value.1))
  }

  // Which requests pass, what they become, and which error each of the others gets.
  lemma CheckedExactly(first: Request)
    ensures Checked(first).Success? <==>
              && first.version == 3 && first.pty && first.rows <= 200 && first.cols <= 500
              && 1 <= |NameOf(first)| <= 64
              && forall i :: 0 <= i < |NameOf(first)| ==>
                   var c := NameOf(first)[i]; c == '_' || c == '-' || 'A' <= c <= 'Z' || 'a' <= c <= 'z' || '0' <= c <= '9'
    ensures Checked(first).Success? ==>
              var r := Checked(first).value;
              && r.name == NameOf(first) && r.user == UserOf(first) && r.pty && r.version == PROTOCOL
              && r.rows == (if first.rows == 0 then 24 else first.rows)
              && r.cols == (if first.cols == 0 then 80 else first.cols)
    ensures Checked(first).Failure? ==>
              Checked(first).error == if first.version != 3 then UnsupportedProtocol
                                      else if !first.pty then NeedsPty
                                      else if !ValidName(NameOf(first)) then BadName
                                      else BadSize
  {
  }

  lemma CheckedAgain(first: Request)
    requires Checked(first).Success?
    ensures var r := Checked(first).value;
            Checked(r) == Success(r) && Dimensions(r.rows, r.cols) == Success((r.rows, r.cols))
  {
  }
}

module SessionRegistry {
  import opened Common
  import opened SessionRequests

  // How far a session's owner task has come. An orphan is an entry that no owner will
  // ever remove.
  datatype Stage =
    | Inserted | Running | Stopping | Joined | Drained | Removed | Finished | Released | Orphaned

  // joined: the process's worker has been waited for.
  datatype Session = Session(name: string, user: string, stage: Stage, joined: bool) {
    function At(next: Stage): Session {
      Session(name, user, next, joined || next.Joined?)
    }
  }

  // What creating or joining a session makes of the registry.
  datatype Admission = Admission(registry: map<string, nat>, sessions: seq<Session>, free: nat,
                                 sid: nat, starts: bool, request: Request)

  // An entry is in the registry from insertion until the owner removes it, and holds
  // its slot until the owner task ends.
  predicate Entered(stage: Stage) {
    stage.Inserted? || stage.Running? || stage.Stopping? || stage.Joined? || stage.Drained? || stage.Orphaned?
  }

  predicate Holding(stage: Stage) {
    (Entered(stage) && !stage.Orphaned?) || stage.Removed? || stage.Finished?
  }

  predicate Consistent(registry: map<string, nat>, sessions: seq<Session>) {
    forall name :: name in registry ==> registry[name] < |sessions|
  }

  // The registry section of preparing a request.
  function Admit(registry: map<string, nat>, sessions: seq<Session>, free: nat, first: Request, createOnly: bool)
    : (r: Result<Admission, Error>)
    requires Consistent(registry, sessions)
    ensures r.Success? ==>
              && Checked(first) == Success(r.value.request)
              && Consistent(r.value.registry, r.value.sessions)
              && r.value.request.name in r.value.registry && r.value.registry[r.value.request.name] == r.value.sid
              && r.value.sessions[r.value.sid].user == r.value.request.user
              && (r.value.starts <==> r.value.request.name !in registry)
              && (createOnly ==> r.value.starts)
              && (if r.value.starts then
                    && r.value.sid == |sessions| && free > 0 && r.value.free == free - 1
                    && r.value.registry == registry[r.value.request.name := |sessions|]
                    && r.value.sessions == sessions + [Session(r.value.request.name, r.value.request.user, Inserted, false)]
                  else
                    && r.value.sid == registry[r.value.request.name]
                    && r.value.registry == registry && r.value.sessions == sessions && r.value.free == free)
    ensures r.Success? <==>
              && first.version == 3 && first.pty && first.rows <= 200 && first.cols <= 500
              && ValidName(NameOf(first))
              && (if NameOf(first) in registry
                  then !createOnly && sessions[registry[NameOf(first)]].user == UserOf(first)
                  else free > 0)
  {
    CheckedExactly(first);
    var checked := Checked(first);
    if checked.Failure? then Failure(checked.error)
    else
      var request := checked.value;
      if request.name in registry then
        var sid := registry[request.name];
        if createOnly then Failure(AlreadyExists)
        else if sessions[sid].user != request.user then Failure(OtherUser)
        else Success(Admission(registry, sessions, free, sid, false, request))
      else if free == 0 then Failure(Exhausted)
      else Success(Admission(registry[request.name := |sessions|],
                             sessions + [Session(request.name, request.user, Inserted, false)],
                             free - 1, |sessions|, true, request))
  }

  // What a request that passed the checks is refused for.
  lemma {:induction false} RefusedFor(registry: map<string, nat>, sessions: seq<Session>, free: nat, first: Request,
                                      createOnly: bool)
    requires Consistent(registry, sessions) && Checked(first).Success?
    ensures var r := Admit(registry, sessions, free, first, createOnly);
            if NameOf(first) !in registry then (free == 0 ==> r == Failure(Exhausted))
            else if createOnly then r == Failure(AlreadyExists)
            else (sessions[registry[NameOf(first)]].user != UserOf(first) ==> r == Failure(OtherUser))
  {
    CheckedExactly(first);
  }

  // The registry as the agent keeps it.
  class Sessions {
    var registry: map<string, nat>
    var sessions: seq<Session>
    var free: nat

    ghost predicate Valid()
      reads this
    {
      Consistent(registry, sessions)
    }

    constructor (slots: nat)
      ensures Valid() && registry == map[] && sessions == [] && free == slots
    {
      registry, sessions, free := map[], [], slots;
    }

    // Nothing changes unless the request is admitted.
    method Prepare(first: Request, createOnly: bool) returns (r: Result<(nat, bool, Request), Error>)
      requires Valid()
      modifies this
      ensures Valid()
      ensures var admitted := old(Admit(registry, sessions, free, first, createOnly));
              if admitted.Failure? then
                r == Failure(admitted.error) && registry == old(registry) && sessions == old(sessions)
                && free == old(free)
              else
                var a := admitted.value;
                r == Success((a.sid, a.starts, a.request)) && registry == a.registry && sessions == a.sessions
                && free == a.free
    {
      if first.version != PROTOCOL {
        return Failure(UnsupportedProtocol);
      }
      var request := first;
      if request.user == "" {
        request := request.(user := "pbox");
      }
      if !request.pty {
        return Failure(NeedsPty);
      }
      if request.name == "" {
        request := request.(name := "main");
      }
      if !ValidName(request.name) {
        return Failure(BadName);
      }
      var size := Dimensions(request.rows, request.cols);
      if size.Failure? {
        return Failure(size.error);
      }
      request := request.(rows := size.value.0, cols := size.value.1);
      if request.name in registry {
        var sid := registry[request.name];
        if createOnly {
          return Failure(AlreadyExists);
        }
        if sessions[sid].user != request.user {
          return Failure(OtherUser);
        }
        return Success((sid, false, request));
      }
      if free == 0 {
        return Failure(Exhausted);
      }
      free := free - 1;
      var sid := |sessions|;
      sessions := sessions + [Session(request.name, request.user, Inserted, false)];
      registry := registry[request.name := sid];
      r := Success((sid, true, request));
    }
  }

  // A call that has prepared its request and not gone on yet; a starting call owes its
  // session an owner. A closing call waits for the session to finish.
  datatype Call = Call(sid: nat, request: Request, createOnly: bool, starts: bool, done: bool)
  datatype Closing = Closing(sid: nat, returned: bool)

  datatype State = State(slots: nat, free: nat, others: nat, registry: map<string, nat>, sessions: seq<Session>,
                         calls: seq<Call>, closings: seq<Closing>)

  datatype Step =
    | Prepare(first: Request, createOnly: bool)
    | Proceed(c: nat)
    | OtherTakesSlot
    | OtherFreesSlot
    | Advance(sid: nat)
    | Close(name: string)
    | CloseReturns(k: nat)

  function Start(slots: nat): State {
    State(slots, slots, 0, map[], [], [], [])
  }

  // The owner task: leave the loop, join the worker, drain the viewers, remove the
  // entry by name, signal the end, release the slot.
  function After(stage: Stage): Option<Stage> {
    match stage
    case Running => Some(Stopping)
    case Stopping => Some(Joined)
    case Joined => Some(Drained)
    case Drained => Some(Removed)
    case Removed => Some(Finished)
    case Finished => Some(Released)
    case _ => None
  }

  function SetStage(s: State, sid: nat, stage: Stage): State
    requires sid < |s.sessions|
  {
    s.(sessions := s.sessions[sid := s.sessions[sid].At(stage)])
  }

  function Owner(s: State, sid: nat, stage: Stage): State
    requires sid < |s.sessions|
  {
    var t := SetStage(s, sid, stage);
    if stage.Removed? then t.(registry := t.registry - {s.sessions[sid].name})
    else if stage.Released? then t.(free := t.free + 1)
    else t
  }

  // After preparing: a starting call spawns the owner. Joining or creating by attaching
  // checks the dimensions a second time; a failure there would drop the slot and leave
  // the entry behind.
  function GoOn(s: State, c: nat): State
    requires c < |s.calls| && s.calls[c].sid < |s.sessions|
  {
    var call := s.calls[c];
    var t := s.(calls := s.calls[c := call.(done := true)]);
    if !call.createOnly && Dimensions(call.request.rows, call.request.cols).Failure? then
      if call.starts then SetStage(t, call.sid, Orphaned).(free := t.free + 1) else t
    else if call.starts then SetStage(t, call.sid, Running)
    else t
  }

  function Next(s: State, step: Step): Option<State> {
    match step
    case Prepare(first, createOnly) =>
      if !Consistent(s.registry, s.sessions) then None
      else
        var admitted := Admit(s.registry, s.sessions, s.free, first, createOnly);
        if admitted.Failure? then Some(s)
        else
          var a := admitted.value;
          Some(s.(registry := a.registry, sessions := a.sessions, free := a.free,
                  calls := s.calls + [Call(a.sid, a.request, createOnly, a.starts, false)]))
    case Proceed(c) =>
      if c < |s.calls| && !s.calls[c].done && s.calls[c].sid < |s.sessions| then Some(GoOn(s, c)) else None
    case OtherTakesSlot => if s.free > 0 then Some(s.(free := s.free - 1, others := s.others + 1)) else None
    case OtherFreesSlot => if s.others > 0 then Some(s.(free := s.free + 1, others := s.others - 1)) else None
    case Advance(sid) =>
      if sid < |s.sessions| && After(s.sessions[sid].stage).Some?
      then Some(Owner(s, sid, After(s.sessions[sid].stage).value)) else None
    case Close(name) =>
      if name in s.registry then Some(s.(closings := s.closings + [Closing(s.registry[name], false)])) else Some(s)
    case CloseReturns(k) =>
      if k < |s.closings| && s.closings[k].sid < |s.sessions|
         && (s.sessions[s.closings[k].sid].stage.Finished? || s.sessions[s.closings[k].sid].stage.Released?)
      then Some(s.(closings := s.closings[k := s.closings[k].(returned := true)])) else None
  }

  ghost predicate Runs(s: State, steps: seq<Step>, t: State)
    decreases |steps|
  {
    if steps == [] then s == t
    else
      var mid := Next(s, steps[0]);
      mid.Some? && Runs(mid.value, steps[1..], t)
  }

  function Count(sessions: seq<Session>, p: Stage -> bool): nat {
    if sessions == [] then 0
    else Count(sessions[..|sessions| - 1], p) + (if p(sessions[|sessions| - 1].stage) then 1 else 0)
  }

  lemma CountSnoc(sessions: seq<Session>, x: Session, p: Stage -> bool)
    ensures Count(sessions + [x], p) == Count(sessions, p) + (if p(x.stage) then 1 else 0)
  {
    assert (sessions + [x])[..|sessions|] == sessions;
  }

  lemma {:induction false} CountUpdate(sessions: seq<Session>, i: nat, x: Session, p: Stage -> bool)
    requires i < |sessions|
    ensures Count(sessions[i := x], p) + (if p(sessions[i].stage) then 1 else 0) ==
            Count(sessions, p) + (if p(x.stage) then 1 else 0)
  {
    var front := sessions[..|sessions| - 1];
    if i == |sessions| - 1 {
      assert sessions[i := x][..|sessions| - 1] == front;
    } else {
      assert sessions[i := x][..|sessions| - 1] == front[i := x];
      CountUpdate(front, i, x, p);
    }
  }

  lemma {:induction false} CountMonotone(sessions: seq<Session>)
    requires forall i :: 0 <= i < |sessions| ==> sessions[i].stage != Orphaned
    ensures Count(sessions, Entered) <= Count(sessions, Holding)
  {
    if sessions != [] {
      CountMonotone(sessions[..|sessions| - 1]);
    }
  }

  // The worker is waited for before anything of the session's end is visible.
  predicate EndsVisibly(stage: Stage) {
    stage.Joined? || stage.Drained? || stage.Removed? || stage.Finished? || stage.Released?
  }

  // Each entry names its own session and each entered session has its entry.
  ghost predicate RegistryInv(registry: map<string, nat>, sessions: seq<Session>) {
    && (forall name :: name in registry ==>
          registry[name] < |sessions| && sessions[registry[name]].name == name
          && Entered(sessions[registry[name]].stage))
    && (forall i :: 0 <= i < |sessions| && Entered(sessions[i].stage) ==>
          sessions[i].name in registry && registry[sessions[i].name] == i)
    && (forall i :: 0 <= i < |sessions| ==> sessions[i].stage != Orphaned)
    && (forall i :: 0 <= i < |sessions| && EndsVisibly(sessions[i].stage) ==> sessions[i].joined)
  }

  ghost predicate SlotsInv(s: State) {
    && s.free + s.others + Count(s.sessions, Holding) == s.slots
    && |s.registry| == Count(s.sessions, Entered)
  }

  predicate Starting(calls: seq<Call>, c: nat) {
    c < |calls| && calls[c].starts && !calls[c].done
  }

  // A starting call's session waits for it, and it waits for no other.
  ghost predicate CallsInv(sessions: seq<Session>, calls: seq<Call>) {
    && (forall c :: 0 <= c < |calls| ==>
          && calls[c].sid < |sessions|
          && Dimensions(calls[c].request.rows, calls[c].request.cols).Success?
          && (Starting(calls, c) ==> sessions[calls[c].sid].stage.Inserted?))
    && (forall c, d :: 0 <= c < d < |calls| && Starting(calls, c) && Starting(calls, d) ==> calls[c].sid != calls[d].sid)
    && (forall i :: 0 <= i < |sessions| && sessions[i].stage.Inserted? ==>
          exists c: nat :: Starting(calls, c) && calls[c].sid == i)
  }

  predicate Over(stage: Stage) {
    stage.Finished? || stage.Released?
  }

  ghost predicate ClosingsInv(sessions: seq<Session>, closings: seq<Closing>) {
    forall k :: 0 <= k < |closings| ==>
      closings[k].sid < |sessions| && (closings[k].returned ==> Over(sessions[closings[k].sid].stage))
  }

  ghost predicate Inv(s: State) {
    && RegistryInv(s.registry, s.sessions)
    && SlotsInv(s)
    && CallsInv(s.sessions, s.calls)
    && ClosingsInv(s.sessions, s.closings)
  }

  lemma {:induction false} EnterKeepsRegistry(registry: map<string, nat>, sessions: seq<Session>, x: Session)
    requires RegistryInv(registry, sessions) && x.name !in registry && x.stage == Inserted
    ensures RegistryInv(registry[x.name := |sessions|], sessions + [x])
  {
  }

  lemma {:induction false} EnterKeepsSlots(s: State, x: Session)
    requires SlotsInv(s) && x.name !in s.registry && x.stage == Inserted && s.free > 0
    ensures SlotsInv(s.(registry := s.registry[x.name := |s.sessions|], sessions := s.sessions + [x], free := s.free - 1))
  {
    hide Count;
    CountSnoc(s.sessions, x, Holding);
    CountSnoc(s.sessions, x, Entered);
    assert s.registry[x.name := |s.sessions|].Keys == s.registry.Keys + {x.name};
  }

  lemma {:induction false} AdmitKeepsCalls(sessions: seq<Session>, calls: seq<Call>, x: Session, call: Call)
    requires CallsInv(sessions, calls)
    requires Dimensions(call.request.rows, call.request.cols).Success? && !call.done
    requires if call.starts then x.stage.Inserted? && call.sid == |sessions| else call.sid < |sessions|
    ensures CallsInv(if call.starts then sessions + [x] else sessions, calls + [call])
  {
    hide Dimensions;
    var more := if call.starts then sessions + [x] else sessions;
    var all := calls + [call];
    forall i | 0 <= i < |more| && more[i].stage.Inserted?
      ensures exists c: nat :: Starting(all, c) && all[c].sid == i
    {
      if i < |sessions| {
        assert sessions[i].stage.Inserted?;
        var c: nat :| Starting(calls, c) && calls[c].sid == i;
        assert Starting(all, c) && all[c].sid == i;
      } else {
        assert Starting(all, |calls|) && all[|calls|].sid == i;
      }
    }
    assert forall c: nat :: Starting(calls, c) <==> c < |calls| && Starting(all, c);
  }

  lemma {:induction false} PrepareKeepsInv(s: State, first: Request, createOnly: bool)
    requires Inv(s) && Next(s, Prepare(first, createOnly)).Some?
    ensures Inv(Next(s, Prepare(first, createOnly)).value)
  {
    hide SlotsInv, CallsInv, Checked;
    var admitted := Admit(s.registry, s.sessions, s.free, first, createOnly);
    if admitted.Success? {
      var a := admitted.value;
      var x := Session(a.request.name, a.request.user, Inserted, false);
      if a.starts {
        EnterKeepsRegistry(s.registry, s.sessions, x);
        EnterKeepsSlots(s, x);
      }
      assert Dimensions(a.request.rows, a.request.cols).Success? by {
        CheckedAgain(first);
      }
      AdmitKeepsCalls(s.sessions, s.calls, x, Call(a.sid, a.request, createOnly, a.starts, false));
      SlotsIgnoreCalls(s.(registry := a.registry, sessions := a.sessions, free := a.free),
                       Next(s, Prepare(first, createOnly)).value);
    }
  }

  lemma SlotsIgnoreCalls(s: State, t: State)
    requires SlotsInv(s)
    requires t.registry == s.registry && t.sessions == s.sessions && t.free == s.free && t.others == s.others
    requires t.slots == s.slots
    ensures SlotsInv(t)
  {
  }

  // Moving one session between stages that are both in or both out of the registry and
  // both with or both without a slot.
  lemma {:induction false} StageKeepsRegistry(s: State, sid: nat, stage: Stage)
    requires RegistryInv(s.registry, s.sessions) && SlotsInv(s) && sid < |s.sessions|
    requires Entered(stage) == Entered(s.sessions[sid].stage) && Holding(stage) == Holding(s.sessions[sid].stage)
    requires stage != Orphaned && (EndsVisibly(stage) ==> stage.Joined? || EndsVisibly(s.sessions[sid].stage))
    ensures RegistryInv(s.registry, SetStage(s, sid, stage).sessions)
    ensures SlotsInv(SetStage(s, sid, stage))
  {
    hide Count;
    var x := s.sessions[sid].At(stage);
    CountUpdate(s.sessions, sid, x, Holding);
    CountUpdate(s.sessions, sid, x, Entered);
  }

  // Removing by name removes the owner's own entry and no other.
  lemma {:induction false} RemoveKeepsRegistry(s: State, sid: nat)
    requires RegistryInv(s.registry, s.sessions) && sid < |s.sessions|
    requires s.sessions[sid].stage == Drained
    ensures var t := Owner(s, sid, Removed);
            && RegistryInv(t.registry, t.sessions)
            && s.sessions[sid].name in s.registry && s.registry[s.sessions[sid].name] == sid
            && forall name :: name in t.registry <==> name in s.registry && s.registry[name] != sid
  {
    var t := Owner(s, sid, Removed);
    assert Entered(s.sessions[sid].stage);
    forall name | name in s.registry ensures s.registry[name] == sid <==> name == s.sessions[sid].name {
    }
    forall i | 0 <= i < |t.sessions| && Entered(t.sessions[i].stage)
      ensures t.sessions[i].name in t.registry && t.registry[t.sessions[i].name] == i
    {
      assert i != sid;
      assert t.sessions[i] == s.sessions[i];
      assert s.registry[s.sessions[i].name] == i;
    }
  }

  lemma {:induction false} RemoveKeepsSlots(s: State, sid: nat)
    requires SlotsInv(s) && sid < |s.sessions|
    requires s.sessions[sid].stage == Drained && s.sessions[sid].name in s.registry
    ensures SlotsInv(Owner(s, sid, Removed))
  {
    hide Count;
    var name := s.sessions[sid].name;
    var x := s.sessions[sid].At(Removed);
    var t := Owner(s, sid, Removed);
    CountUpdate(s.sessions, sid, x, Holding);
    CountUpdate(s.sessions, sid, x, Entered);
    assert s.registry.Keys == t.registry.Keys + {name};
    assert name !in t.registry;
  }

  lemma {:induction false} ReleaseKeepsRegistry(s: State, sid: nat)
    requires RegistryInv(s.registry, s.sessions) && SlotsInv(s) && sid < |s.sessions|
    requires s.sessions[sid].stage == Finished
    ensures RegistryInv(s.registry, Owner(s, sid, Released).sessions) && SlotsInv(Owner(s, sid, Released))
  {
    hide Count;
    var x := s.sessions[sid].At(Released);
    CountUpdate(s.sessions, sid, x, Holding);
    CountUpdate(s.sessions, sid, x, Entered);
  }

  lemma {:induction false} StageKeepsCalls(sessions: seq<Session>, calls: seq<Call>, sid: nat, stage: Stage)
    requires CallsInv(sessions, calls) && sid < |sessions|
    requires !sessions[sid].stage.Inserted? && !stage.Inserted?
    ensures CallsInv(sessions[sid := sessions[sid].At(stage)], calls)
  {
    hide Dimensions;
    var all := sessions[sid := sessions[sid].At(stage)];
    forall i | 0 <= i < |all| && all[i].stage.Inserted?
      ensures exists c: nat :: Starting(calls, c) && calls[c].sid == i
    {
      assert sessions[i].stage.Inserted?;
    }
  }

  lemma {:induction false} StageKeepsClosings(sessions: seq<Session>, closings: seq<Closing>, sid: nat, stage: Stage)
    requires ClosingsInv(sessions, closings) && sid < |sessions|
    requires Over(sessions[sid].stage) ==> Over(stage)
    ensures ClosingsInv(sessions[sid := sessions[sid].At(stage)], closings)
  {
  }

  lemma {:induction false} AdvanceKeepsInv(s: State, sid: nat)
    requires Inv(s) && Next(s, Advance(sid)).Some?
    ensures Inv(Next(s, Advance(sid)).value)
  {
    hide RegistryInv, SlotsInv, CallsInv, ClosingsInv;
    var stage := s.sessions[sid].stage;
    var next := After(stage).value;
    StageKeepsCalls(s.sessions, s.calls, sid, next);
    StageKeepsClosings(s.sessions, s.closings, sid, next);
    if stage.Drained? {
      RemoveKeepsRegistry(s, sid);
      RemoveKeepsSlots(s, sid);
    } else if stage.Finished? {
      ReleaseKeepsRegistry(s, sid);
    } else {
      StageKeepsRegistry(s, sid, next);
    }
  }

  // The call is done; if it was to start its session, the session now runs.
  lemma {:induction false} ProceedKeepsCalls(sessions: seq<Session>, calls: seq<Call>, c: nat)
    requires CallsInv(sessions, calls) && c < |calls| && !calls[c].done
    ensures var sid := calls[c].sid;
            CallsInv(if calls[c].starts then sessions[sid := sessions[sid].At(Running)] else sessions,
                     calls[c := calls[c].(done := true)])
  {
    hide Dimensions;
    var sid := calls[c].sid;
    var after := calls[c := calls[c].(done := true)];
    var all := if calls[c].starts then sessions[sid := sessions[sid].At(Running)] else sessions;
    assert forall d: nat :: Starting(after, d) <==> Starting(calls, d) && d != c;
    forall i | 0 <= i < |all| && all[i].stage.Inserted?
      ensures exists d: nat :: Starting(after, d) && after[d].sid == i
    {
      assert sessions[i].stage.Inserted?;
      var d: nat :| Starting(calls, d) && calls[d].sid == i;
      assert calls[c].starts ==> d != c;
      assert Starting(after, d) && after[d].sid == i;
    }
    forall d | 0 <= d < |after| && Starting(after, d) ensures all[after[d].sid].stage.Inserted? {
      assert Starting(calls, d);
      assert calls[c].starts ==> Starting(calls, c);
    }
  }

  lemma {:induction false} ProceedKeepsInv(s: State, c: nat)
    requires Inv(s) && Next(s, Proceed(c)).Some?
    ensures Inv(Next(s, Proceed(c)).value)
    ensures !(exists i :: 0 <= i < |GoOn(s, c).sessions| && GoOn(s, c).sessions[i].stage == Orphaned)
  {
    hide SlotsInv, ClosingsInv, Dimensions;
    var call := s.calls[c];
    ProceedKeepsCalls(s.sessions, s.calls, c);
    var t := GoOn(s, c);
    if call.starts {
      assert Starting(s.calls, c);
      StageKeepsRegistry(s, call.sid, Running);
      StageKeepsClosings(s.sessions, s.closings, call.sid, Running);
      SlotsIgnoreCalls(SetStage(s, call.sid, Running), t);
    } else {
      SlotsIgnoreCalls(s, t);
    }
  }

  lemma {:induction false} StepKeepsInv(s: State, step: Step)
    requires Inv(s) && Next(s, step).Some?
    ensures Inv(Next(s, step).value)
  {
    match step
    case Prepare(first, createOnly) => PrepareKeepsInv(s, first, createOnly);
    case Proceed(c) => ProceedKeepsInv(s, c);
    case Advance(sid) => AdvanceKeepsInv(s, sid);
    case _ => OtherKeepsInv(s, step);
  }

  lemma {:induction false} OtherKeepsInv(s: State, step: Step)
    requires Inv(s) && Next(s, step).Some?
    requires step.OtherTakesSlot? || step.OtherFreesSlot? || step.Close? || step.CloseReturns?
    ensures Inv(Next(s, step).value)
  {
    hide CallsInv;
  }

  lemma {:induction false} RunsKeepInv(s: State, steps: seq<Step>, t: State)
    requires Inv(s) && Runs(s, steps, t)
    ensures Inv(t)
    ensures t.slots == s.slots
    decreases |steps|
  {
    hide Inv;
    if steps != [] {
      StepKeepsInv(s, steps[0]);
      RunsKeepInv(Next(s, steps[0]).value, steps[1..], t);
    }
  }

  lemma StartInv(slots: nat)
    ensures Inv(Start(slots))
  {
  }

  // In every run two sessions that are in the registry never share a name, and their
  // number never exceeds the slots.
  lemma {:induction false} OneSessionPerName(slots: nat, steps: seq<Step>, t: State)
    requires Runs(Start(slots), steps, t)
    ensures forall i, j ::
              0 <= i < |t.sessions| && 0 <= j < |t.sessions| && t.sessions[i].name == t.sessions[j].name
              && Entered(t.sessions[i].stage) && Entered(t.sessions[j].stage) ==>
                i == j
    ensures |t.registry| <= slots
    ensures t.free + t.others + Count(t.sessions, Holding) == slots
  {
    StartInv(slots);
    RunsKeepInv(Start(slots), steps, t);
    CountMonotone(t.sessions);
    forall i, j |
      0 <= i < |t.sessions| && 0 <= j < |t.sessions| && t.sessions[i].name == t.sessions[j].name
      && Entered(t.sessions[i].stage) && Entered(t.sessions[j].stage)
      ensures i == j
    {
      assert t.registry[t.sessions[i].name] == i && t.registry[t.sessions[j].name] == j;
    }
  }

  // Every entry has exactly one owner, spawned or about to be: an inserted session is
  // owed its owner by exactly one call, and no entry is ever left without one.
  lemma {:induction false} EveryEntryHasAnOwner(slots: nat, steps: seq<Step>, t: State, name: string)
    requires Runs(Start(slots), steps, t) && name in t.registry
    ensures t.registry[name] < |t.sessions|
    ensures var stage := t.sessions[t.registry[name]].stage;
            && Holding(stage)
            && (After(stage).Some? || exists c: nat :: Starting(t.calls, c) && t.calls[c].sid == t.registry[name])
    ensures forall c, d :: 0 <= c < d < |t.calls| && Starting(t.calls, c) && Starting(t.calls, d) ==>
              t.calls[c].sid != t.calls[d].sid
    ensures forall i :: 0 <= i < |t.sessions| ==> t.sessions[i].stage != Orphaned
  {
    hide Runs, SlotsInv, ClosingsInv, Dimensions;
    StartInv(slots);
    RunsKeepInv(Start(slots), steps, t);
  }

  // When an owner removes the entry of its name, the entry is its own.
  lemma {:induction false} OwnersRemoveTheirOwnEntry(slots: nat, steps: seq<Step>, t: State, sid: nat)
    requires Runs(Start(slots), steps, t)
    requires sid < |t.sessions| && t.sessions[sid].stage == Drained
    ensures Next(t, Advance(sid)).Some?
    ensures forall name :: name in Next(t, Advance(sid)).value.registry <==>
              name in t.registry && t.registry[name] != sid
  {
    hide Runs, SlotsInv, CallsInv, ClosingsInv;
    StartInv(slots);
    RunsKeepInv(Start(slots), steps, t);
    hide RegistryInv;
    RemoveKeepsRegistry(t, sid);
  }

  // A close that returned found its session's worker joined and its entry removed; a
  // session of the same name that is there now is another one.
  lemma {:induction false} CloseReturnsAfterRemoval(slots: nat, steps: seq<Step>, t: State, k: nat)
    requires Runs(Start(slots), steps, t)
    requires k < |t.closings| && t.closings[k].returned
    ensures var sid := t.closings[k].sid;
            && sid < |t.sessions| && Over(t.sessions[sid].stage) && t.sessions[sid].joined
            && forall name :: name in t.registry ==> t.registry[name] != sid
  {
    StartInv(slots);
    RunsKeepInv(Start(slots), steps, t);
  }

  // ---- closing comes to an end ----

  ghost predicate Reaches(s: State, t: State) {
    exists steps :: Runs(s, steps, t)
  }

  lemma {:induction false} RunsOn(s: State, a: seq<Step>, m: State, b: seq<Step>, t: State)
    requires Runs(s, a, m) && Runs(m, b, t)
    ensures Runs(s, a + b, t)
    decreases |a|
  {
    hide Next;
    if a == [] {
      assert a + b == b;
    } else {
      RunsOn(Next(s, a[0]).value, a[1..], m, b, t);
      assert (a + b)[0] == a[0] && (a + b)[1..] == a[1..] + b;
    }
  }

  lemma {:induction false} ReachesOn(s: State, m: State, step: Step, t: State)
    requires Reaches(s, m) && Next(m, step) == Some(t)
    ensures Reaches(s, t)
  {
    hide Next;
    var steps :| Runs(s, steps, m);
    assert [step][1..] == [];
    assert Runs(t, [], t);
    assert Runs(m, [step], t);
    RunsOn(s, steps, m, [step], t);
  }

  // How many steps an owner has before it.
  function Left(stage: Stage): nat {
    match stage
    case Inserted => 7
    case Running => 6
    case Stopping => 5
    case Joined => 4
    case Drained => 3
    case Removed => 2
    case Finished => 1
    case _ => 0
  }

  // The next step of a session whose owner has not released its slot.
  lemma {:induction false} OwnerGoesOn(s: State, sid: nat) returns (step: Step)
    requires Inv(s) && sid < |s.sessions| && s.sessions[sid].stage != Released
    ensures Next(s, step).Some?
    ensures var t := Next(s, step).value;
            && |t.sessions| == |s.sessions| && t.closings == s.closings
            && Left(t.sessions[sid].stage) < Left(s.sessions[sid].stage)
  {
    hide SlotsInv, ClosingsInv, Dimensions;
    if s.sessions[sid].stage.Inserted? {
      var c: nat :| Starting(s.calls, c) && s.calls[c].sid == sid;
      step := Proceed(c);
    } else {
      step := Advance(sid);
    }
  }

  lemma {:induction false} ReachesOver(s0: State, s: State, sid: nat) returns (t: State)
    requires Reaches(s0, s) && Inv(s) && sid < |s.sessions|
    ensures Reaches(s0, t) && Inv(t) && |t.sessions| == |s.sessions| && t.closings == s.closings
    ensures Over(t.sessions[sid].stage)
    decreases Left(s.sessions[sid].stage)
  {
    hide Inv, Reaches, Next;
    if Over(s.sessions[sid].stage) {
      t := s;
    } else {
      var step := OwnerGoesOn(s, sid);
      var m := Next(s, step).value;
      ReachesOn(s0, s, step, m);
      StepKeepsInv(s, step);
      t := ReachesOver(s0, m, sid);
    }
  }

  // In every run, a close that was asked for can still return: its session's owner, spawned
  // or still owed, has a way to the end from wherever it is.
  lemma {:induction false} CloseCanReturn(slots: nat, steps: seq<Step>, s: State, k: nat) returns (t: State)
    requires Runs(Start(slots), steps, s) && k < |s.closings|
    ensures Reaches(Start(slots), t) && k < |t.closings| && t.closings[k].returned
    ensures t.closings[k].sid == s.closings[k].sid
  {
    hide Next, Runs;
    StartInv(slots);
    RunsKeepInv(Start(slots), steps, s);
    assert ClosingsInv(s.sessions, s.closings);
    var m := ReachesOver(Start(slots), s, s.closings[k].sid);
    t := Returned(m, k);
    ReachesOn(Start(slots), m, CloseReturns(k), t);
  }

  lemma {:induction false} Returned(m: State, k: nat) returns (t: State)
    requires k < |m.closings| && m.closings[k].sid < |m.sessions| && Over(m.sessions[m.closings[k].sid].stage)
    ensures Next(m, CloseReturns(k)) == Some(t)
    ensures |t.closings| == |m.closings| && t.closings[k] == m.closings[k].(returned := true)
  {
    t := Next(m, CloseReturns(k)).value;
  }

  // Closing a name that is in the registry waits for exactly the session entered there.
  lemma {:induction false} CloseFindsItsSession(s: State, name: string)
    requires name in s.registry
    ensures Next(s, Close(name)).Some?
    ensures var t := Next(s, Close(name)).value;
            t.closings == s.closings + [Closing(s.registry[name], false)] && t.registry == s.registry
  {
  }
}
