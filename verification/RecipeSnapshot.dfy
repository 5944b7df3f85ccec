// The recovery snapshot around applying recipes: it is taken before the run and may
// be removed only once it is no longer needed.
module RecipeSnapshot {
  import opened Common

  // What was asked of PVE and Ansible, in order, and whether it was reported to succeed.
  datatype Action =
    | Create(name: string, reply: CreateReply)
    | Delete(name: string, ok: bool)
    | RollBack(name: string, ok: bool)
    | Run(ok: bool, clean: bool)
    | Record(recipe: string, success: bool, ok: bool)

  // The first cause of a failure and every context added to it.
  datatype Cause =
    | InvalidPolicy | ClockUnreadable | CreateFailed | SnapshotRequired
    | IncompleteRemoved(name: string) | MayRemain(name: string)
    | RunFailed | RollBackFailed(name: string) | DeleteFailed(name: string)
    | NothingToRollBack | Preserved(name: string)
    | RecordFailed(recipe: string) | CleanupFailed

  type Error = seq<Cause>

  datatype CreateReply = Created | Unavailable(inTask: bool) | Broken

  // The container's snapshots and the trace of one run. A call that reports success
  // had its effect; one that reports an error may have had it or not.
  class Pve {
    var snapshots: set<string>
    var trace: seq<Action>

    constructor (existing: set<string>)
      ensures snapshots == existing && trace == []
    {
      snapshots, trace := existing, [];
    }

    method CreateSnapshot(name: string) returns (reply: CreateReply)
      modifies this
      ensures trace == old(trace) + [Create(name, reply)]
      ensures snapshots == old(snapshots) || snapshots == old(snapshots) + {name}
      ensures reply == Created ==> name in snapshots
    {
      reply := *;
      var happened: bool := *;
      if happened || reply == Created {
        snapshots := snapshots + {name};
      }
      trace := trace + [Create(name, reply)];
    }

    method DeleteSnapshot(name: string) returns (ok: bool)
      modifies this
      ensures trace == old(trace) + [Delete(name, ok)]
      ensures snapshots == old(snapshots) || snapshots == old(snapshots) - {name}
      ensures ok ==> name !in snapshots
    {
      ok := *;
      var happened: bool := *;
      if happened || ok {
        snapshots := snapshots - {name};
      }
      trace := trace + [Delete(name, ok)];
    }

    method RollBackSnapshot(name: string) returns (ok: bool)
      modifies this`trace
      ensures trace == old(trace) + [RollBack(name, ok)]
    {
      ok := *;
      trace := trace + [RollBack(name, ok)];
    }

    method RecordProvenance(recipe: string, success: bool) returns (ok: bool)
      modifies this`trace
      ensures trace == old(trace) + [Record(recipe, success, ok)]
    {
      ok := *;
      trace := trace + [Record(recipe, success, ok)];
    }

    // Ansible refuses an empty selection. Its own cleanup can fail after success.
    method RunRecipes(selected: seq<string>) returns (ok: bool, cleanupFailed: bool)
      modifies this`trace
      ensures trace == old(trace) + [Run(ok, !cleanupFailed)]
      ensures selected == [] ==> !ok
    {
      ok, cleanupFailed := *, *;
      ok := ok && selected != [];
      trace := trace + [Run(ok, !cleanupFailed)];
    }
  }

  // The step at which a trace holds an action, before position n.
  ghost predicate Before(trace: seq<Action>, n: nat, a: Action) {
    exists j :: 0 <= j < n && j < |trace| && trace[j] == a
  }

  ghost predicate AllRecorded(trace: seq<Action>, n: nat, selected: seq<string>) {
    forall k :: 0 <= k < |selected| ==> Before(trace, n, Record(selected[k], true, true))
  }

  // A snapshot that was created is deleted only after every selected recipe's success
  // was recorded or after a rollback to it succeeded.
  ghost predicate Guarded(trace: seq<Action>, selected: seq<string>) {
    forall i, name ::
      0 <= i < |trace| && trace[i].Delete? && trace[i].name == name && Before(trace, i, Create(name, Created)) ==>
        AllRecorded(trace, i, selected) || Before(trace, i, RollBack(name, true))
  }

  lemma BeforeGrows(trace: seq<Action>, next: Action, n: nat, a: Action)
    requires n <= |trace|
    ensures Before(trace + [next], n, a) <==> Before(trace, n, a)
    ensures Before(trace + [next], |trace| + 1, a) <==> Before(trace, |trace|, a) || next == a
  {
    var all := trace + [next];
    assert all[|trace|] == next;
    if Before(trace, |trace|, a) {
      var j :| 0 <= j < |trace| && trace[j] == a;
      assert all[j] == a;
    }
    if Before(all, n, a) {
      var j :| 0 <= j < n && all[j] == a;
      assert trace[j] == a;
    }
    if Before(trace, n, a) {
      var j :| 0 <= j < n && trace[j] == a;
      assert all[j] == a;
    }
    if Before(all, |all|, a) {
      var j :| 0 <= j < |all| && all[j] == a;
      assert j == |trace| || trace[j] == a;
    }
  }

  lemma GuardedGrows(trace: seq<Action>, next: Action, selected: seq<string>)
    requires Guarded(trace, selected)
    requires next.Delete? && Before(trace, |trace|, Create(next.name, Created)) ==>
               AllRecorded(trace, |trace|, selected) || Before(trace, |trace|, RollBack(next.name, true))
    ensures Guarded(trace + [next], selected)
  {
    var all := trace + [next];
    forall i, name |
      0 <= i < |all| && all[i].Delete? && all[i].name == name && Before(all, i, Create(name, Created))
      ensures AllRecorded(all, i, selected) || Before(all, i, RollBack(name, true))
    {
      BeforeGrows(trace, next, i, Create(name, Created));
      BeforeGrows(trace, next, i, RollBack(name, true));
      forall k | 0 <= k < |selected| {
        BeforeGrows(trace, next, i, Record(selected[k], true, true));
      }
    }
  }

  // The error tells the user that the snapshot is or may be still there.
  predicate Names(error: Error, name: string) {
    Preserved(name) in error || RollBackFailed(name) in error || DeleteFailed(name) in error
  }

  method CleanupFailedRecipeSnapshot(pve: Pve, name: string, primary: Error) returns (error: Error)
    modifies pve
    ensures exists ok ::
              && pve.trace == old(pve.trace) + [Delete(name, ok)]
              && error == primary + [if ok then IncompleteRemoved(name) else MayRemain(name)]
              && (ok ==> name !in pve.snapshots)
    ensures pve.snapshots == old(pve.snapshots) || pve.snapshots == old(pve.snapshots) - {name}
  {
    var ok := pve.DeleteSnapshot(name);
    error := primary + [if ok then IncompleteRemoved(name) else MayRemain(name)];
  }

  // The policies under which a snapshot is to be taken.
  predicate Wanted(policy: string) {
    policy == "always" || policy == "auto"
  }

  // What follows PVE's reply to the creation: a created snapshot is used; without one the
  // run goes on only under "auto" and only when snapshots are unavailable; "always" fails
  // when the task finds them unavailable; and any other failure first deletes what may
  // have been made.
  ghost predicate CreationOutcome(policy: string, name: string, reply: CreateReply, more: seq<Action>,
                                  r: Result<Option<string>, Error>)
  {
    match reply
    case Created => r == Success(Some(name)) && more == []
    case Unavailable(inTask) =>
      if policy == "auto" then r == Success(None) && more == []
      else if inTask then r == Failure([CreateFailed, SnapshotRequired]) && more == []
      else CreationCleanedUp(name, more, r)
    case Broken => CreationCleanedUp(name, more, r)
  }

  ghost predicate CreationCleanedUp(name: string, more: seq<Action>, r: Result<Option<string>, Error>) {
    && |more| == 1 && more[0].Delete? && more[0].name == name
    && r == Failure([CreateFailed] + [if more[0].ok then IncompleteRemoved(name) else MayRemain(name)])
  }

  // The clock gives the snapshot its name.
  method CreateRecipeSnapshot(pve: Pve, policy: string, clock: Option<string>)
    returns (r: Result<Option<string>, Error>)
    modifies pve
    ensures policy == "never" ==>
              r == Success(None) && pve.trace == old(pve.trace) && pve.snapshots == old(pve.snapshots)
    ensures policy != "never" && !Wanted(policy) ==>
              r == Failure([InvalidPolicy]) && pve.trace == old(pve.trace) && pve.snapshots == old(pve.snapshots)
    ensures Wanted(policy) && clock.None? ==>
              r == Failure([ClockUnreadable]) && pve.trace == old(pve.trace) && pve.snapshots == old(pve.snapshots)
    ensures Wanted(policy) && clock.Some? ==>
              var n := |old(pve.trace)|;
              && old(pve.trace) < pve.trace && pve.trace[n].Create? && pve.trace[n].name == clock.value
              && CreationOutcome(policy, clock.value, pve.trace[n].reply, pve.trace[n + 1..], r)
    ensures r.Success? && r.value.Some? ==> pve.snapshots == old(pve.snapshots) + {r.value.value}
    ensures forall s :: clock != Some(s) ==> (s in pve.snapshots <==> s in old(pve.snapshots))
  {
    if policy == "never" {
      return Success(None);
    }
    if policy != "always" && policy != "auto" {
      return Failure([InvalidPolicy]);
    }
    if clock.None? {
      return Failure([ClockUnreadable]);
    }
    var name := clock.value;
    var reply := pve.CreateSnapshot(name);
    match reply
    case Created =>
      return Success(Some(name));
    case Unavailable(inTask) =>
      if policy == "auto" {
        return Success(None);
      }
      if inTask {
        return Failure([CreateFailed, SnapshotRequired]);
      }
      var error := CleanupFailedRecipeSnapshot(pve, name, [CreateFailed]);
      return Failure(error);
    case Broken =>
      var error := CleanupFailedRecipeSnapshot(pve, name, [CreateFailed]);
      return Failure(error);
  }

  // The call had the outcome the command hopes for.
  predicate WentWell(a: Action) {
    match a
    case Create(_, reply) => reply != Broken
    case Delete(_, ok) => ok
    case RollBack(_, ok) => ok
    case Run(ok, clean) => ok && clean
    case Record(_, _, ok) => ok
  }

  // What trying to recover adds to the error, from what was asked of PVE for it.
  function RecoveryNotes(asked: seq<Action>, snapshot: Option<string>, rollBack: bool): Error {
    if !rollBack then (if snapshot.Some? then [Preserved(snapshot.value)] else [])
    else if snapshot.None? then [NothingToRollBack]
    else if |asked| > 0 && !WentWell(asked[0]) then [RollBackFailed(snapshot.value)]
    else if |asked| > 1 && !WentWell(asked[1]) then [DeleteFailed(snapshot.value)]
    else []
  }

  // What is added to the error altogether; the last thing done is to record the failure.
  function FailureNotes(done: seq<Action>, planned: string, snapshot: Option<string>, rollBack: bool): Error {
    if done == [] then []
    else
      RecoveryNotes(done[..|done| - 1], snapshot, rollBack)
      + (if WentWell(done[|done| - 1]) then [] else [RecordFailed(planned)])
  }

  lemma FailureNotesSnoc(asked: seq<Action>, recorded: bool, planned: string, snapshot: Option<string>, rollBack: bool)
    ensures FailureNotes(asked + [Record(planned, false, recorded)], planned, snapshot, rollBack) ==
            RecoveryNotes(asked, snapshot, rollBack) + (if recorded then [] else [RecordFailed(planned)])
  {
    assert (asked + [Record(planned, false, recorded)])[..|asked|] == asked;
  }

  // Why there was no run.
  function CreationError(policy: string, clock: Option<string>, trace: seq<Action>): Error {
    if !Wanted(policy) then [InvalidPolicy]
    else if clock.None? then [ClockUnreadable]
    else if trace == [] || !trace[0].Create? then []
    else if trace[0].reply == Unavailable(true) && policy == "always" then [CreateFailed, SnapshotRequired]
    else if |trace| < 2 then [CreateFailed]
    else [CreateFailed] + [if WentWell(trace[1]) then IncompleteRemoved(clock.value) else MayRemain(clock.value)]
  }

  // What recovering asks of PVE: nothing, or a rollback and, when that succeeds, the
  // snapshot's deletion.
  ghost predicate Asks(asked: seq<Action>, snapshot: Option<string>, rollBack: bool) {
    if rollBack && snapshot.Some? then
      || asked == [RollBack(snapshot.value, false)]
      || (exists ok :: asked == [RollBack(snapshot.value, true), Delete(snapshot.value, ok)])
    else asked == []
  }

  method Recover(pve: Pve, primary: Error, snapshot: Option<string>, rollBack: bool, ghost selected: seq<string>)
    returns (error: Error, ghost asked: seq<Action>)
    requires Guarded(pve.trace, selected)
    modifies pve
    ensures Guarded(pve.trace, selected)
    ensures pve.trace == old(pve.trace) + asked && Asks(asked, snapshot, rollBack)
    ensures error == primary + RecoveryNotes(asked, snapshot, rollBack)
    ensures pve.snapshots == old(pve.snapshots) || (snapshot.Some? && pve.snapshots == old(pve.snapshots) - {snapshot.value})
    ensures |asked| < 2 ==> pve.snapshots == old(pve.snapshots)
    ensures |asked| == 2 ==>
              && Before(pve.trace, |pve.trace|, RollBack(snapshot.value, true))
              && (WentWell(asked[1]) ==> snapshot.value !in pve.snapshots)
  {
    hide Guarded, AllRecorded, Before;
    asked := [];
    assert pve.trace == old(pve.trace) + [];
    if !rollBack {
      error := primary + (if snapshot.Some? then [Preserved(snapshot.value)] else []);
      return;
    }
    if snapshot.None? {
      error := primary + [NothingToRollBack];
      return;
    }
    var name := snapshot.value;
    GuardedGrows(pve.trace, RollBack(name, true), selected);
    GuardedGrows(pve.trace, RollBack(name, false), selected);
    BeforeGrows(pve.trace, RollBack(name, true), 0, RollBack(name, true));
    var rolledBack := pve.RollBackSnapshot(name);
    asked := [RollBack(name, rolledBack)];
    if !rolledBack {
      error := primary + [RollBackFailed(name)];
      return;
    }
    GuardedGrows(pve.trace, Delete(name, true), selected);
    GuardedGrows(pve.trace, Delete(name, false), selected);
    BeforeGrows(pve.trace, Delete(name, true), 0, RollBack(name, true));
    BeforeGrows(pve.trace, Delete(name, false), 0, RollBack(name, true));
    var deleted := pve.DeleteSnapshot(name);
    asked := asked + [Delete(name, deleted)];
    error := primary + (if deleted then [] else [DeleteFailed(name)]);
  }

  // After a failure the snapshot is deleted only when rolling back to it succeeded;
  // otherwise it stays and the error says so. The failure itself is always recorded.
  method FinishRecipeFailure(pve: Pve, planned: string, primary: Error, snapshot: Option<string>, rollBack: bool,
                             ghost selected: seq<string>)
    returns (error: Error, ghost asked: seq<Action>, ghost recorded: bool)
    requires Guarded(pve.trace, selected)
    modifies pve
    ensures Guarded(pve.trace, selected)
    ensures pve.trace == old(pve.trace) + asked + [Record(planned, false, recorded)] && Asks(asked, snapshot, rollBack)
    ensures error == primary + FailureNotes(asked + [Record(planned, false, recorded)], planned, snapshot, rollBack)
    ensures pve.snapshots == old(pve.snapshots) || (snapshot.Some? && pve.snapshots == old(pve.snapshots) - {snapshot.value})
    ensures |asked| < 2 ==> pve.snapshots == old(pve.snapshots)
    ensures snapshot.Some? && snapshot.value in old(pve.snapshots) ==>
              if snapshot.value in pve.snapshots then Names(error, snapshot.value)
              else rollBack && Before(pve.trace, |pve.trace|, RollBack(snapshot.value, true))
  {
    hide Guarded, AllRecorded, Before, FailureNotes;
    error, asked := Recover(pve, primary, snapshot, rollBack, selected);
    ghost var before := pve.trace;
    var ok := pve.RecordProvenance(planned, false);
    recorded := ok;
    GuardedGrows(before, Record(planned, false, recorded), selected);
    if snapshot.Some? {
      BeforeGrows(before, Record(planned, false, recorded), 0, RollBack(snapshot.value, true));
    }
    FailureNotesSnoc(asked, recorded, planned, snapshot, rollBack);
    if !ok {
      error := error + [RecordFailed(planned)];
    }
  }

  // The last thing done is to record the failure.
  ghost predicate FailureRecorded(trace: seq<Action>, planned: string) {
    && trace != []
    && var last := trace[|trace| - 1];
       last.Record? && last.recipe == planned && !last.success
  }

  // The trace of a failure after `start`.
  lemma FailureTrace(start: seq<Action>, asked: seq<Action>, planned: string, recorded: bool, snapshot: Option<string>,
                     rollBack: bool, trace: seq<Action>)
    requires trace == start + asked + [Record(planned, false, recorded)] && Asks(asked, snapshot, rollBack)
    ensures start < trace && trace[|start|..] == asked + [Record(planned, false, recorded)]
    ensures FailureRecorded(trace, planned)
    ensures forall i :: |start| <= i < |trace| ==> !trace[i].Create? && !trace[i].Run?
    ensures if rollBack && snapshot.Some? then
              trace[|start|] == RollBack(snapshot.value, true) || trace[|start|] == RollBack(snapshot.value, false)
            else asked == [] && |trace| == |start| + 1
  {
    assert forall i :: 0 <= i < |asked| ==> trace[|start| + i] == asked[i];
  }

  // The snapshot, if this call was given one, goes only after the success is recorded.
  method FinishRecipeSuccess(pve: Pve, recipe: string, snapshot: Option<string>, cleanupFailed: bool)
    returns (r: Result<(), Error>)
    modifies pve
    ensures r.Success? ==>
              && !cleanupFailed
              && pve.trace == old(pve.trace) + [Record(recipe, true, true)]
                              + (if snapshot.Some? then [Delete(snapshot.value, true)] else [])
              && (snapshot.Some? ==> snapshot.value !in pve.snapshots)
    ensures r.Failure? ==> (CleanupFailed in r.error <==> cleanupFailed)
    ensures r.Failure? ==>
              || (&& pve.trace == old(pve.trace) + [Record(recipe, true, false)]
                  && pve.snapshots == old(pve.snapshots)
                  && RecordFailed(recipe) in r.error
                  && (forall s :: Names(r.error, s) <==> snapshot == Some(s)))
              || (&& pve.trace == old(pve.trace) + [Record(recipe, true, true)] && snapshot.None? && cleanupFailed)
              || (&& snapshot.Some?
                  && exists ok ::
                    && pve.trace == old(pve.trace) + [Record(recipe, true, true)] + [Delete(snapshot.value, ok)]
                    && (ok ==> snapshot.value !in pve.snapshots && cleanupFailed)
                    && (!ok ==> Names(r.error, snapshot.value)))
    ensures forall s :: snapshot != Some(s) ==> (s in pve.snapshots <==> s in old(pve.snapshots))
  {
    var recorded := pve.RecordProvenance(recipe, true);
    if !recorded {
      var error := [RecordFailed(recipe)] + (if cleanupFailed then [CleanupFailed] else []);
      return Failure(error + (if snapshot.Some? then [Preserved(snapshot.value)] else []));
    }
    var failures := if cleanupFailed then [CleanupFailed] else [];
    if snapshot.Some? {
      var deleted := pve.DeleteSnapshot(snapshot.value);
      if !deleted {
        failures := failures + [DeleteFailed(snapshot.value)];
      }
    }
    if failures != [] {
      return Failure(failures);
    }
    r := Success(());
  }

  ghost predicate AllWentWell(trace: seq<Action>, from: nat) {
    forall i :: from <= i < |trace| ==> WentWell(trace[i])
  }

  // Nothing follows a call that failed.
  ghost predicate EndsAtFirstFault(trace: seq<Action>, from: nat) {
    forall i :: from <= i < |trace| - 1 ==> WentWell(trace[i])
  }

  function Deletion(snapshot: Option<string>): seq<Action> {
    if snapshot.Some? then [Delete(snapshot.value, true)] else []
  }

  ghost predicate UnfinishedEarly(trace: seq<Action>, selected: seq<string>) {
    && 0 < |trace| < 2 + |selected|
    && trace[|trace| - 1].Record? && trace[|trace| - 1].success
  }

  // The successes of the first recipes, in their order.
  function Successes(selected: seq<string>, count: nat): (r: seq<Action>)
    requires count <= |selected|
    ensures |r| == count && forall k :: 0 <= k < count ==> r[k] == Record(selected[k], true, true)
  {
    if count == 0 then [] else Successes(selected, count - 1) + [Record(selected[count - 1], true, true)]
  }

  ghost predicate NoDeletes(trace: seq<Action>) {
    forall i :: 0 <= i < |trace| ==> !trace[i].Delete?
  }

  lemma NoDeletesIsGuarded(trace: seq<Action>, selected: seq<string>)
    requires NoDeletes(trace)
    ensures Guarded(trace, selected)
  {
  }

  lemma AllRecordedAt(base: seq<Action>, selected: seq<string>, rest: seq<Action>, n: nat)
    requires n >= |base| + |selected|
    ensures AllRecorded(base + Successes(selected, |selected|) + rest, n, selected)
  {
    var trace := base + Successes(selected, |selected|) + rest;
    forall k | 0 <= k < |selected| ensures Before(trace, n, Record(selected[k], true, true)) {
      assert trace[|base| + k] == Record(selected[k], true, true);
    }
  }

  lemma CompleteIsGuarded(base: seq<Action>, selected: seq<string>, rest: seq<Action>)
    requires NoDeletes(base)
    ensures Guarded(base + Successes(selected, |selected|) + rest, selected)
    ensures AllRecorded(base + Successes(selected, |selected|) + rest, |base| + |selected| + |rest|, selected)
  {
    var trace := base + Successes(selected, |selected|) + rest;
    AllRecordedAt(base, selected, rest, |trace|);
    forall i, name |
      0 <= i < |trace| && trace[i].Delete? && trace[i].name == name && Before(trace, i, Create(name, Created))
      ensures AllRecorded(trace, i, selected) || Before(trace, i, RollBack(name, true))
    {
      assert i >= |base| + |selected|;
      AllRecordedAt(base, selected, rest, i);
    }
  }

  // The last recipe: it is recorded before the snapshot may go.
  method RecordLast(pve: Pve, ghost base: seq<Action>, selected: seq<string>, snapshot: Option<string>,
                    cleanupFailed: bool)
    returns (r: Result<(), Error>)
    requires NoDeletes(base) && selected != []
    requires pve.trace == base + Successes(selected, |selected| - 1)
    modifies pve
    ensures Guarded(pve.trace, selected)
    ensures |pve.trace| >= |base| + |selected| && base < pve.trace
    ensures forall i :: |base| <= i < |pve.trace| ==> !pve.trace[i].Create? && !pve.trace[i].Run?
    ensures forall s :: snapshot != Some(s) ==> (s in pve.snapshots <==> s in old(pve.snapshots))
    ensures r.Success? ==> !cleanupFailed && AllRecorded(pve.trace, |pve.trace|, selected)
    ensures r.Success? <==> !cleanupFailed && AllWentWell(pve.trace, |base|)
    ensures EndsAtFirstFault(pve.trace, |base|)
    ensures r.Success? ==> pve.trace == base + Successes(selected, |selected|) + Deletion(snapshot)
    ensures snapshot.Some? ==>
              && (r.Success? ==> snapshot.value !in pve.snapshots)
              && (snapshot.value in old(pve.snapshots) && snapshot.value !in pve.snapshots ==>
                    AllRecorded(pve.trace, |pve.trace|, selected))
              && (r.Failure? && snapshot.value in pve.snapshots ==> Names(r.error, snapshot.value))
  {
    hide Guarded, AllRecorded, Before;
    ghost var front := pve.trace;
    var recipe := selected[|selected| - 1];
    assert Successes(selected, |selected|) == Successes(selected, |selected| - 1) + [Record(recipe, true, true)];
    var finished := FinishRecipeSuccess(pve, recipe, snapshot, cleanupFailed);
    assert finished.Failure? && !cleanupFailed ==> !WentWell(pve.trace[|pve.trace| - 1]);
    if finished.Failure? && pve.trace == front + [Record(recipe, true, false)] {
      NoDeletesIsGuarded(pve.trace, selected);
    } else {
      ghost var full := base + Successes(selected, |selected|);
      assert front + [Record(recipe, true, true)] == full;
      ghost var rest := pve.trace[|full|..];
      assert pve.trace == full + rest;
      CompleteIsGuarded(base, selected, rest);
    }
    r := finished;
  }

  // The loop over the selected recipes: only the last one gets the snapshot and the
  // cleanup failure, and the first failure ends it.
  method RecordSelected(pve: Pve, selected: seq<string>, snapshot: Option<string>, cleanupFailed: bool)
    returns (r: Result<(), Error>)
    requires NoDeletes(pve.trace) && selected != []
    modifies pve
    ensures Guarded(pve.trace, selected)
    ensures old(pve.trace) < pve.trace
    ensures forall i :: |old(pve.trace)| <= i < |pve.trace| ==> !pve.trace[i].Create? && !pve.trace[i].Run?
    ensures forall s :: snapshot != Some(s) ==> (s in pve.snapshots <==> s in old(pve.snapshots))
    ensures r.Success? ==> !cleanupFailed && AllRecorded(pve.trace, |pve.trace|, selected)
    ensures r.Success? <==> !cleanupFailed && AllWentWell(pve.trace, |old(pve.trace)|)
    ensures EndsAtFirstFault(pve.trace, |old(pve.trace)|)
    ensures r.Success? ==> pve.trace == old(pve.trace) + Successes(selected, |selected|) + Deletion(snapshot)
    ensures snapshot.Some? ==>
              && (r.Success? ==> snapshot.value !in pve.snapshots)
              && (snapshot.value in old(pve.snapshots) && snapshot.value !in pve.snapshots ==>
                    AllRecorded(pve.trace, |pve.trace|, selected))
              && (r.Failure? && snapshot.value in pve.snapshots ==>
                    var last := pve.trace[|pve.trace| - 1];
                    (Names(r.error, snapshot.value) <==>
                     !(last.Record? && last.success && |pve.trace| < |old(pve.trace)| + |selected|)))
  {
    hide Guarded, AllRecorded, Before, Names;
    ghost var base := pve.trace;
    for index := 0 to |selected| - 1
      invariant pve.trace == base + Successes(selected, index)
      invariant pve.snapshots == old(pve.snapshots)
    {
      var finished := FinishRecipeSuccess(pve, selected[index], None, false);
      if finished.Failure? {
        NoDeletesIsGuarded(pve.trace, selected);
        assert !WentWell(pve.trace[|pve.trace| - 1]);
        return Failure(finished.error);
      }
    }
    r := RecordLast(pve, base, selected, snapshot, cleanupFailed);
  }

  // The creation comes first, where one is asked for, and is the only one.
  ghost predicate CreatesFirst(trace: seq<Action>, policy: string, clock: Option<string>) {
    && (Wanted(policy) && clock.Some? <==> trace != [] && trace[0].Create?)
    && (trace != [] && trace[0].Create? ==> clock == Some(trace[0].name))
    && forall i :: 1 <= i < |trace| ==> !trace[i].Create?
  }

  // Ansible may run under "never", with a created snapshot, or under "auto" where PVE
  // has no snapshots for this container.
  ghost predicate MayRun(trace: seq<Action>, policy: string) {
    || policy == "never"
    || (&& trace != [] && trace[0].Create?
        && (trace[0].reply == Created || (policy == "auto" && trace[0].reply.Unavailable?)))
  }

  function RunAt(policy: string): nat {
    if policy == "never" then 0 else 1
  }

  ghost predicate RunsWhenAllowed(trace: seq<Action>, policy: string) {
    && (MayRun(trace, policy) ==> |trace| > RunAt(policy) && trace[RunAt(policy)].Run?)
    && forall i :: 0 <= i < |trace| && trace[i].Run? ==> i == RunAt(policy) && MayRun(trace, policy)
  }

  // From the run on: the recipes and what follows their success or failure.
  method RunSelected(pve: Pve, selected: seq<string>, planned: string, snapshot: Option<string>, rollBack: bool)
    returns (r: Result<(), Error>)
    requires NoDeletes(pve.trace)
    modifies pve
    ensures |pve.trace| > |old(pve.trace)| && old(pve.trace) < pve.trace && pve.trace[|old(pve.trace)|].Run?
    ensures forall i :: |old(pve.trace)| < i < |pve.trace| ==> !pve.trace[i].Create? && !pve.trace[i].Run?
    ensures Guarded(pve.trace, selected)
    ensures !pve.trace[|old(pve.trace)|].ok ==>
              && FailureRecorded(pve.trace, planned)
              && r == Failure([RunFailed] + FailureNotes(pve.trace[|old(pve.trace)| + 1..], planned, snapshot, rollBack))
              && (if rollBack && snapshot.Some? then
                    || pve.trace[|old(pve.trace)| + 1] == RollBack(snapshot.value, true)
                    || pve.trace[|old(pve.trace)| + 1] == RollBack(snapshot.value, false)
                  else |pve.trace| == |old(pve.trace)| + 2 && pve.snapshots == old(pve.snapshots))
    ensures r.Success? <==> AllWentWell(pve.trace, |old(pve.trace)|)
    ensures r.Success? ==> AllRecorded(pve.trace, |pve.trace|, selected)
    ensures snapshot.Some? && snapshot.value in old(pve.snapshots) ==>
              && (snapshot.value !in pve.snapshots ==>
                    || AllRecorded(pve.trace, |pve.trace|, selected)
                    || Before(pve.trace, |pve.trace|, RollBack(snapshot.value, true)))
              && (r.Success? ==> snapshot.value !in pve.snapshots)
              && (r.Failure? && snapshot.value in pve.snapshots ==>
                    var last := pve.trace[|pve.trace| - 1];
                    (Names(r.error, snapshot.value) <==>
                     !(last.Record? && last.success && |pve.trace| < |old(pve.trace)| + 1 + |selected|)))
    ensures forall s :: snapshot != Some(s) ==> (s in pve.snapshots <==> s in old(pve.snapshots))
  {
    hide Guarded, AllRecorded, Before, Names, FailureNotes, AllWentWell, Asks, FailureRecorded;
    ghost var n := |pve.trace|;
    var ok, cleanupFailed := pve.RunRecipes(selected);
    NoDeletesIsGuarded(pve.trace, selected);
    ghost var ran := pve.trace;
    if !ok {
      var error;
      ghost var asked, recorded;
      error, asked, recorded := FinishRecipeFailure(pve, planned, [RunFailed], snapshot, rollBack, selected);
      FailureTrace(ran, asked, planned, recorded, snapshot, rollBack, pve.trace);
      assert pve.trace[n] == ran[n];
      WellFrom(pve.trace, n);
      return Failure(error);
    }
    r := RecordSelected(pve, selected, snapshot, cleanupFailed);
    assert pve.trace[n] == ran[n];
    WellFrom(pve.trace, n);
  }

  lemma WellFrom(trace: seq<Action>, n: nat)
    requires n < |trace|
    ensures AllWentWell(trace, n) <==> WentWell(trace[n]) && AllWentWell(trace, n + 1)
  {}

  // What is done, and what is reported: the creation comes first and the run follows exactly
  // when it may; the command succeeds exactly when there is a run and every call succeeds;
  // and the failure to create the snapshot or to run is recorded last and reported with
  // its cause and with what failed afterwards.
  ghost predicate Course(trace: seq<Action>, policy: string, clock: Option<string>, planned: string, rollBack: bool,
                         r: Result<(), Error>, taken: Option<string>)
  {
    && CreatesFirst(trace, policy, clock) && RunsWhenAllowed(trace, policy)
    && taken == (if trace != [] && trace[0].Create? && trace[0].reply == Created then clock else None)
    && (r.Success? <==> MayRun(trace, policy) && AllWentWell(trace, 0))
    && (!MayRun(trace, policy) ==>
          && FailureRecorded(trace, planned)
          && r == Failure(CreationError(policy, clock, trace) + FailureNotes(trace[|trace| - 1..], planned, None, false)))
    && (MayRun(trace, policy) && !trace[RunAt(policy)].ok ==>
          var after := trace[RunAt(policy) + 1..];
          && FailureRecorded(trace, planned) && after != []
          && r == Failure([RunFailed] + FailureNotes(after, planned, taken, rollBack))
          && if rollBack && taken.Some? then
               after[0] == RollBack(taken.value, true) || after[0] == RollBack(taken.value, false)
             else |after| == 1)
  }

  // What becomes of the snapshot: it goes only when all successes were recorded or after a
  // rollback, always on success, and one that stays is named unless recording failed early.
  ghost predicate Fate(trace: seq<Action>, selected: seq<string>, r: Result<(), Error>, taken: Option<string>,
                       snapshots: set<string>)
  {
    && (r.Success? ==> AllRecorded(trace, |trace|, selected))
    && (taken.Some? ==>
          && (taken.value !in snapshots ==>
                AllRecorded(trace, |trace|, selected) || Before(trace, |trace|, RollBack(taken.value, true)))
          && (r.Success? ==> taken.value !in snapshots)
          && (r.Failure? && taken.value in snapshots ==>
                (Names(r.error, taken.value) <==> !UnfinishedEarly(trace, selected))))
  }

  // The whole "apply" command. Whatever fails and however: a snapshot that was created
  // is deleted only after every selected recipe's success was recorded or a rollback to
  // it succeeded, and is still there otherwise; success means all of it happened. Other
  // snapshots are never touched. A snapshot left behind is named in the error, except
  // when recording fails for a recipe that is not the last.
  method ApplyRecipes(pve: Pve, selected: seq<string>, planned: string, policy: string, rollBack: bool,
                      clock: Option<string>)
    returns (r: Result<(), Error>, ghost taken: Option<string>)
    requires pve.trace == []
    modifies pve
    ensures Guarded(pve.trace, selected)
    ensures Course(pve.trace, policy, clock, planned, rollBack, r, taken)
    ensures Fate(pve.trace, selected, r, taken, pve.snapshots)
    ensures taken.Some? ==> |pve.trace| > 1 && pve.trace[1].Run?
    ensures taken.Some? && !rollBack && !pve.trace[1].ok ==> taken.value in pve.snapshots
    ensures forall s :: clock != Some(s) ==> (s in pve.snapshots <==> s in old(pve.snapshots))
  {
    hide Guarded, AllRecorded, Before, Names, FailureNotes, AllWentWell, CreationError, CreationOutcome, MayRun,
      Prepared, WentWell, Asks, Course, Fate, UnfinishedEarly, FailureRecorded;
    taken := None;
    var created := CreateRecipeSnapshot(pve, policy, clock);
    ghost var before := pve.trace;
    CreatedBefore(before, policy, clock, created);
    if created.Failure? {
      FailedCreationIsGuarded(pve.trace, selected);
      var error;
      ghost var asked, recorded;
      error, asked, recorded := FinishRecipeFailure(pve, planned, created.error, None, false, selected);
      NoRun(before, pve.trace, policy, clock, planned, rollBack, asked, recorded, error);
      NoFate(pve.trace, selected, Failure(error), pve.snapshots);
      return Failure(error), taken;
    }
    taken := created.value;
    r := RunSelected(pve, selected, planned, created.value, rollBack);
    OneRun(before, pve.trace, policy, clock, planned, rollBack, r, taken);
    OneFate(before, pve.trace, selected, r, taken, pve.snapshots);
  }

  // What was asked of PVE before the run.
  ghost predicate Prepared(before: seq<Action>, policy: string, clock: Option<string>) {
    if Wanted(policy) && clock.Some? then
      && 1 <= |before| <= 2 && before[0].Create? && before[0].name == clock.value
      && (|before| == 2 ==> before[1].Delete?)
    else before == []
  }

  lemma CreatedBefore(before: seq<Action>, policy: string, clock: Option<string>, r: Result<Option<string>, Error>)
    requires policy == "never" ==> r == Success(None) && before == []
    requires policy != "never" && !Wanted(policy) ==> r == Failure([InvalidPolicy]) && before == []
    requires Wanted(policy) && clock.None? ==> r == Failure([ClockUnreadable]) && before == []
    requires Wanted(policy) && clock.Some? ==>
               && before != [] && before[0].Create? && before[0].name == clock.value
               && CreationOutcome(policy, clock.value, before[0].reply, before[1..], r)
    ensures Prepared(before, policy, clock)
    ensures r.Success? <==> MayRun(before, policy)
    ensures r.Success? ==> |before| == RunAt(policy)
    ensures r.Success? && r.value.Some? ==> |before| == 1
    ensures r.Success? ==> r.value == if before != [] && before[0].reply == Created then clock else None
    ensures r.Failure? ==> r.error == CreationError(policy, clock, before)
    ensures r.Failure? && |before| == 1 ==> before[0].reply == Unavailable(true) && policy == "always"
  {
    if Wanted(policy) && clock.Some? {
      assert |before| > 1 ==> before[1..][0] == before[1];
    }
  }

  lemma {:induction false} NoRun(before: seq<Action>, trace: seq<Action>, policy: string, clock: Option<string>,
                                 planned: string, rollBack: bool, asked: seq<Action>, recorded: bool, error: Error)
    requires Prepared(before, policy, clock) && !MayRun(before, policy)
    requires |before| == 1 ==> before[0].reply == Unavailable(true) && policy == "always"
    requires trace == before + asked + [Record(planned, false, recorded)] && Asks(asked, None, false)
    requires error == CreationError(policy, clock, before)
                      + FailureNotes(asked + [Record(planned, false, recorded)], planned, None, false)
    ensures Course(trace, policy, clock, planned, rollBack, Failure(error), None) && !MayRun(trace, policy)
  {
    hide FailureNotes, WentWell, CreatesFirst, RunsWhenAllowed, CreationError;
    var last := Record(planned, false, recorded);
    assert asked + [last] == [last] && trace == before + [last] && trace[|trace| - 1..] == [last];
    NoRunShape(before, last, policy, clock);
  }

  lemma NoRunShape(before: seq<Action>, last: Action, policy: string, clock: Option<string>)
    requires Prepared(before, policy, clock) && !MayRun(before, policy) && last.Record?
    requires |before| == 1 ==> before[0].reply == Unavailable(true) && policy == "always"
    ensures var trace := before + [last];
            && !MayRun(trace, policy) && CreatesFirst(trace, policy, clock) && RunsWhenAllowed(trace, policy)
            && CreationError(policy, clock, trace) == CreationError(policy, clock, before)
            && (trace[0].Create? ==> trace[0].reply != Created)
  {
    var trace := before + [last];
    assert forall i :: 0 <= i < |before| ==> trace[i] == before[i];
  }

  lemma {:induction false} OneRun(before: seq<Action>, trace: seq<Action>, policy: string, clock: Option<string>,
                                  planned: string, rollBack: bool, r: Result<(), Error>, taken: Option<string>)
    requires Prepared(before, policy, clock) && MayRun(before, policy) && |before| == RunAt(policy)
    requires taken == if before != [] && before[0].reply == Created then clock else None
    requires before < trace && trace[|before|].Run?
    requires forall i :: |before| < i < |trace| ==> !trace[i].Create? && !trace[i].Run?
    requires r.Success? <==> AllWentWell(trace, |before|)
    requires !trace[|before|].ok ==>
               && FailureRecorded(trace, planned)
               && r == Failure([RunFailed] + FailureNotes(trace[|before| + 1..], planned, taken, rollBack))
               && (rollBack && taken.Some? ==>
                     trace[|before| + 1] == RollBack(taken.value, true) || trace[|before| + 1] == RollBack(taken.value, false))
               && (!rollBack || taken.None? ==> |trace| == |before| + 2)
    ensures Course(trace, policy, clock, planned, rollBack, r, taken) && MayRun(trace, policy)
  {
    hide FailureNotes, AllWentWell, CreationError;
    assert forall i :: 0 <= i < |before| ==> trace[i] == before[i];
    if before != [] {
      WellFrom(trace, 0);
    }
  }

  lemma NoFate(trace: seq<Action>, selected: seq<string>, r: Result<(), Error>, snapshots: set<string>)
    requires r.Failure?
    ensures Fate(trace, selected, r, None, snapshots)
  {}

  lemma OneFate(before: seq<Action>, trace: seq<Action>, selected: seq<string>, r: Result<(), Error>,
                taken: Option<string>, snapshots: set<string>)
    requires before < trace && (taken.Some? ==> |before| == 1)
    requires r.Success? ==> AllRecorded(trace, |trace|, selected)
    requires taken.Some? ==>
               && (taken.value !in snapshots ==>
                     || AllRecorded(trace, |trace|, selected)
                     || Before(trace, |trace|, RollBack(taken.value, true)))
               && (r.Success? ==> taken.value !in snapshots)
               && (r.Failure? && taken.value in snapshots ==>
                     var last := trace[|trace| - 1];
                     (Names(r.error, taken.value) <==>
                      !(last.Record? && last.success && |trace| < |before| + 1 + |selected|)))
    ensures Fate(trace, selected, r, taken, snapshots)
  {
    hide AllRecorded, Before, Names;
  }

  // The one way to be left unnamed, for any two recipes: recording the first one's success
  // fails. The snapshot was never asked to be deleted, and the error is about the record.
  lemma {:induction false} EarlyFailureIsUnnamed(name: string, first: string, second: string)
    ensures var trace := [Create(name, Created), Run(true, true), Record(first, true, false)];
            && Guarded(trace, [first, second]) && UnfinishedEarly(trace, [first, second])
            && NoDeletes(trace) && !Before(trace, |trace|, Record(second, true, true))
            && !Names([RecordFailed(first)], name)
  {
    var trace := [Create(name, Created), Run(true, true), Record(first, true, false)];
    assert NoDeletes(trace);
    NoDeletesIsGuarded(trace, [first, second]);
  }

  lemma FailedCreationIsGuarded(trace: seq<Action>, selected: seq<string>)
    requires forall i :: 0 <= i < |trace| && trace[i].Create? ==> trace[i].reply != Created
    ensures Guarded(trace, selected)
  {
  }
}
