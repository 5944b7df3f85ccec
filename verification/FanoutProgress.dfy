// The fan-out of a session's output never gets stuck: every event can be delivered to
// every viewer that stays connected, and every session can be closed, which tells all of
// them.
module FanoutProgress {
  import opened Common
  import opened SessionFanout

  lemma {:induction false} RunsOn(s: State, a: seq<Step>, m: State, b: seq<Step>, t: State)
    requires Runs(s, a, m) && Runs(m, b, t)
    ensures Runs(s, a + b, t)
    decreases |a|
  {
    hide Next;
    if a == [] {
      assert a + b == b;
    } else {
      assert (a + b)[0] == a[0] && (a + b)[1..] == a[1..] + b;
      RunsOn(Next(s, a[0]).value, a[1..], m, b, t);
    }
  }

  lemma RunsOne(s: State, step: Step, rest: seq<Step>, t: State)
    requires Next(s, step).Some? && Runs(Next(s, step).value, rest, t)
    ensures Runs(s, [step] + rest, t)
  {
    hide Next;
    assert ([step] + rest)[0] == step && ([step] + rest)[1..] == rest;
  }

  // The same viewers, and nobody disconnected.
  ghost predicate SameViewers(s: State, t: State) {
    && |s.viewers| == |t.viewers|
    && forall v :: 0 <= v < |s.viewers| ==>
         && s.viewers[v].open == t.viewers[v].open && s.viewers[v].seen == t.viewers[v].seen
         && s.viewers[v].creator == t.viewers[v].creator
  }

  // Between two events of a running session.
  predicate Waiting(s: State) {
    s.started && !s.stopped && s.sending.None?
  }

  // What is left of a send.
  function Left(s: State): nat
    requires s.sending.Some?
  {
    |s.sending.value.remaining|
  }

  // The next viewer is served or passed over; one whose channel is full takes an item first.
  lemma {:induction false} ServeNext(s: State) returns (steps: seq<Step>, t: State)
    requires Inv(s) && s.sending.Some? && s.sending.value.remaining != []
    ensures Runs(s, steps, t) && SameViewers(s, t)
    ensures t.sending.Some? && Left(t) < Left(s) && t.processed == s.processed && t.started && !t.stopped
  {
    hide ViewerInv, UpToDate, Retain;
    var v := s.sending.value.remaining[0];
    assert v in s.sending.value.remaining;
    if !s.viewers[v].open {
      t := Next(s, SkipClosed).value;
      steps := [SkipClosed];
      RunsOne(s, SkipClosed, [], t);
    } else if Room(s.viewers[v]) {
      t := Next(s, SendNext).value;
      steps := [SendNext];
      RunsOne(s, SendNext, [], t);
    } else {
      FullHasItems(s, v);
      var m := Next(s, Take(v)).value;
      t := Next(m, SendNext).value;
      steps := [Take(v)] + [SendNext];
      RunsOne(m, SendNext, [], t);
      RunsOne(s, Take(v), [SendNext], t);
    }
  }

  lemma FullHasItems(s: State, v: nat)
    requires Inv(s) && v < |s.viewers| && !Room(s.viewers[v])
    ensures s.viewers[v].taken < |s.viewers[v].queue| == s.viewers[v].taken + CAPACITY
  {
    assert ViewerInv(s.viewers[v], s.processed);
  }

  lemma {:induction false} SendCanFinish(s: State) returns (steps: seq<Step>, t: State)
    requires Inv(s) && s.sending.Some?
    ensures Runs(s, steps, t) && SameViewers(s, t) && Waiting(t) && t.processed == s.processed
    decreases Left(s)
  {
    hide Inv, Next;
    SendingRuns(s);
    if s.sending.value.remaining == [] {
      t := DoneSending(s);
      steps := [SendDone];
      RunsOne(s, SendDone, [], t);
    } else {
      var first, m := ServeNext(s);
      RunsKeepInv(s, first, m);
      var rest;
      rest, t := SendCanFinish(m);
      RunsOn(s, first, m, rest, t);
      steps := first + rest;
    }
  }

  lemma SendingRuns(s: State)
    requires Inv(s) && s.sending.Some?
    ensures s.started && !s.stopped
  {}

  lemma DoneSending(s: State) returns (t: State)
    requires s.sending.Some? && s.sending.value.remaining == [] && s.started && !s.stopped
    ensures Next(s, SendDone) == Some(t) && SameViewers(s, t) && Waiting(t) && t.processed == s.processed
  {
    t := Next(s, SendDone).value;
  }

  lemma {:induction false} DeliverAll(s: State, events: seq<Event>) returns (steps: seq<Step>, t: State)
    requires Inv(s) && Waiting(s)
    ensures Runs(s, steps, t) && SameViewers(s, t) && Waiting(t) && t.processed == s.processed + events
    decreases |events|
  {
    hide Inv, Runs;
    if events == [] {
      assert Runs(s, [], s) by { RunsNone(s); }
      steps, t := [], s;
    } else {
      var begun := Next(s, Process(events[0])).value;
      StepKeepsInv(s, Process(events[0]));
      var sent, m := SendCanFinish(begun);
      RunsOne(s, Process(events[0]), sent, m);
      RunsKeepInv(begun, sent, m);
      var rest;
      rest, t := DeliverAll(m, events[1..]);
      RunsOn(s, [Process(events[0])] + sent, m, rest, t);
      steps := [Process(events[0])] + sent + rest;
      assert s.processed + events == (s.processed + [events[0]]) + events[1..];
    }
  }

  lemma RunsNone(s: State)
    ensures Runs(s, [], s)
  {}

  // In every run: while the session lives, whatever its process puts out next can be
  // delivered, in order, to every viewer that stays connected, also from the middle of a
  // send and with channels that are full.
  lemma {:induction false} OutputCanReachEveryone(byAttach: bool, rows: nat, cols: nat, steps: seq<Step>, s: State,
                                                  events: seq<Event>)
    returns (more: seq<Step>, t: State)
    requires Runs(Start(byAttach, rows, cols), steps, s) && s.started && !s.stopped
    ensures Runs(s, more, t) && SameViewers(s, t) && t.processed == s.processed + events
    ensures forall v :: 0 <= v < |t.viewers| && t.viewers[v].open ==> Received(t.viewers[v]) == t.processed
  {
    hide Runs, Inv, Next, SameViewers;
    var start := Start(byAttach, rows, cols);
    StartInv(byAttach, rows, cols);
    RunsKeepInv(start, steps, s);
    var first, m := [], s;
    if s.sending.Some? {
      first, m := SendCanFinish(s);
      RunsKeepInv(s, first, m);
    } else {
      RunsNone(s);
      SameAsItself(s);
    }
    var rest;
    rest, t := DeliverAll(m, events);
    SameTwice(s, m, t);
    RunsOn(s, first, m, rest, t);
    more := first + rest;
    RunsOn(start, steps, s, more, t);
    forall v | 0 <= v < |t.viewers| && t.viewers[v].open ensures Received(t.viewers[v]) == t.processed {
      NoEventSkipped(byAttach, rows, cols, steps + more, t, v);
    }
  }

  lemma SameAsItself(s: State)
    ensures SameViewers(s, s)
  {}

  lemma SameTwice(s: State, m: State, t: State)
    requires SameViewers(s, m) && SameViewers(m, t)
    ensures SameViewers(s, t)
  {}

  // A session that is created by attaching can be started, and its creator then gets all
  // of its output, whatever that is.
  lemma {:induction false} CreatorGetsEverything(rows: nat, cols: nat, events: seq<Event>)
    returns (steps: seq<Step>, t: State)
    ensures Runs(Start(true, rows, cols), steps, t)
    ensures |t.viewers| == 1 && t.viewers[0].creator && LiveOf(t.viewers[0].queue) == events == t.processed
  {
    var start := Start(true, rows, cols);
    var a := Next(start, AttachCreator(rows, cols)).value;
    assert a.viewers[0].creator;
    var b := Next(a, StartWorker).value;
    hide Runs, Next;
    RunsNone(b);
    RunsOne(a, StartWorker, [], b);
    RunsOne(start, AttachCreator(rows, cols), [StartWorker], b);
    var first := [AttachCreator(rows, cols)] + [StartWorker];
    var rest;
    rest, t := OutputCanReachEveryone(true, rows, cols, first, b, events);
    RunsOn(start, first, b, rest, t);
    steps := first + rest;
    assert Received(t.viewers[0]) == LiveOf(t.viewers[0].queue);
  }

  // When the session ends, every viewer that is still connected is told so, unless its
  // channel is full, and nobody else gets anything.
  lemma {:induction false} EveryoneIsTold(byAttach: bool, rows: nat, cols: nat, steps: seq<Step>, s: State)
    requires Runs(Start(byAttach, rows, cols), steps, s) && s.stopped && !s.ended
    ensures Next(s, Drain).Some?
    ensures var t := Next(s, Drain).value;
            && t.ended && t.outputs == [] && SameViewers(s, t)
            && forall v :: 0 <= v < |s.viewers| ==>
                 t.viewers[v].queue == s.viewers[v].queue
                   + (if s.viewers[v].open && |s.viewers[v].queue| < s.viewers[v].taken + 64 then [Cancelled] else [])
  {
    hide Runs;
    StartInv(byAttach, rows, cols);
    RunsKeepInv(Start(byAttach, rows, cols), steps, s);
    var t := Next(s, Drain).value;
    forall v | 0 <= v < |s.viewers|
      ensures t.viewers[v].queue == s.viewers[v].queue
                + (if s.viewers[v].open && |s.viewers[v].queue| < s.viewers[v].taken + 64 then [Cancelled] else [])
    {
      assert UpToDate(s, v) && ViewerInv(s.viewers[v], s.processed);
    }
  }

  // A close request ends a running session at once, even in the middle of a send.
  lemma {:induction false} CloseCanEndSession(s: State) returns (t: State)
    requires s.started && !s.stopped
    ensures Runs(s, [RequestClose] + [Stop], t) && t.stopped && t.viewers == s.viewers && t.processed == s.processed
  {
    var m := Next(s, RequestClose).value;
    t := Next(m, Stop).value;
    RunsNone(t);
    hide Runs;
    RunsOne(m, Stop, [], t);
    RunsOne(s, RequestClose, [Stop], t);
  }

  // A resize that is refused is reported to the viewer that asked for it, if it can take
  // one more item, and to nobody else.
  lemma RefusedResizeIsTold(s: State, v: nat)
    requires v < |s.viewers| && s.viewers[v].taken <= |s.viewers[v].queue|
    ensures var next := Next(s, RejectResize(v));
            && next.Some? && next.value.screen == s.screen && SameViewers(s, next.value)
            && forall u :: 0 <= u < |s.viewers| ==>
                 next.value.viewers[u].queue == s.viewers[u].queue
                   + (if u == v && s.viewers[v].open && |s.viewers[v].queue| < s.viewers[v].taken + 64 then [Fault]
                      else [])
  {
  }

  // The size the screen was last given.
  function SizeOf(screen: seq<Op>): Option<Op> {
    if screen == [] then None
    else if screen[|screen| - 1].Resize? then Some(screen[|screen| - 1])
    else SizeOf(screen[..|screen| - 1])
  }

  // The screen has the size of the last viewer that attached or resized it, whatever
  // happened since.
  lemma {:induction false} LastSizeHolds(s: State, step: Step)
    requires Next(s, step).Some?
    ensures SizeOf(Next(s, step).value.screen) ==
            match step
            case AttachCreator(rows, cols) => Some(Resize(rows, cols))
            case Attach(rows, cols) => Some(Resize(rows, cols))
            case ApplyResize(rows, cols) => Some(Resize(rows, cols))
            case _ => SizeOf(s.screen)
  {
    hide Retain;
    if step.Process? && step.event.Stdout? {
      assert (s.screen + [Show(step.event.data)])[..|s.screen|] == s.screen;
    }
  }
}
