// How the output of one terminal session reaches its viewers: a viewer that attaches
// gets a redraw of the screen and is subscribed under the same lock under which output
// events are processed, and the owner task then sends every event to the subscribers
// one after the other, without the lock.
module SessionFanout {
  import opened Common

  // An event of the session's process. Only standard output changes the screen.
  datatype Event = Stdout(data: Bytes) | Other(code: int)

  // What happened to the screen, in order. A redraw is a function of this history.
  datatype Op = Show(data: Bytes) | Resize(rows: nat, cols: nat)

  // What can be put in a viewer's channel.
  datatype Item = Redraw(of: seq<Op>) | Live(event: Event) | Fault | Cancelled

  // size: what the viewer asked for. seen: the events processed before it subscribed.
  // queue: everything ever put in its channel; it has taken out the first `taken` items.
  datatype Viewer = Viewer(creator: bool, size: Op, seen: seq<Event>, queue: seq<Item>, taken: nat, open: bool)

  // The owner is sending `event` to the viewers of `remaining`; `before` was processed earlier.
  datatype Sending = Sending(before: seq<Event>, event: Event, remaining: seq<nat>, generation: nat)

  datatype State = State(
    screen: seq<Op>,
    processed: seq<Event>,
    viewers: seq<Viewer>,
    outputs: seq<nat>,
    sending: Option<Sending>,
    byAttach: bool,
    started: bool,
    closeRequested: bool,
    stopped: bool,
    ended: bool,
    generation: nat)

  datatype Step =
    | AttachCreator(rows: nat, cols: nat)
    | Attach(rows: nat, cols: nat)
    | StartWorker
    | Process(event: Event)
    | SendNext
    | SkipClosed
    | SkipTakenOver
    | SendDone
    | RequestClose
    | Stop
    | Drain
    | Disconnect(v: nat)
    | Take(v: nat)
    | RejectResize(v: nat)
    | ApplyResize(rows: nat, cols: nat)

  const CAPACITY: nat := 64

  function Start(byAttach: bool, rows: nat, cols: nat): State {
    State([Resize(rows, cols)], [], [], [], None, byAttach, false, false, false, false, 0)
  }

  predicate Room(v: Viewer) {
    v.taken <= |v.queue| < v.taken + CAPACITY
  }

  function Put(v: Viewer, item: Item): Viewer {
    v.(queue := v.queue + [item])
  }

  // try_send: dropped when the viewer is gone or its channel is full.
  function TryPut(v: Viewer, item: Item): Viewer {
    if v.open && Room(v) then Put(v, item) else v
  }

  // Vec::retain on the subscribers whose channel is still open.
  function Retain(outputs: seq<nat>, viewers: seq<Viewer>): (r: seq<nat>)
    ensures forall v :: v in r <==> v in outputs && v < |viewers| && viewers[v].open
  {
    if outputs == [] then []
    else
      var front, last := outputs[..|outputs| - 1], outputs[|outputs| - 1];
      assert outputs == front + [last];
      Retain(front, viewers) + (if last < |viewers| && viewers[last].open then [last] else [])
  }

  function Subscribe(s: State, creator: bool, rows: nat, cols: nat): State {
    var screen := s.screen + [Resize(rows, cols)];
    var queue := if creator then [] else [Redraw(screen)];
    s.(screen := screen, viewers := s.viewers + [Viewer(creator, Resize(rows, cols), s.processed, queue, 0, true)],
       outputs := s.outputs + [|s.viewers|])
  }

  function Shown(screen: seq<Op>, event: Event): seq<Op> {
    if event.Stdout? then screen + [Show(event.data)] else screen
  }

  function Begin(s: State, event: Event): State {
    var outputs := Retain(s.outputs, s.viewers);
    s.(screen := Shown(s.screen, event), processed := s.processed + [event], outputs := outputs,
       sending := Some(Sending(s.processed, event, outputs, s.generation)))
  }

  function Advance(s: State): State
    requires s.sending.Some? && s.sending.value.remaining != []
  {
    s.(sending := Some(s.sending.value.(remaining := s.sending.value.remaining[1..])))
  }

  predicate Current(s: State, open: bool) {
    s.sending.Some? && s.sending.value.remaining != []
    && var v := s.sending.value.remaining[0]; v < |s.viewers| && s.viewers[v].open == open
  }

  function DrainAll(s: State): State {
    s.(viewers := seq(|s.viewers|, i requires 0 <= i < |s.viewers| =>
         if i in s.outputs then TryPut(s.viewers[i], Cancelled) else s.viewers[i]),
       outputs := [], ended := true, generation := s.generation + 1)
  }

  function Next(s: State, step: Step): Option<State> {
    match step
    // The creating attachment subscribes before the process is started.
    case AttachCreator(rows, cols) =>
      if s.byAttach && !s.started && (forall v :: 0 <= v < |s.viewers| ==> !s.viewers[v].creator)
      then Some(Subscribe(s, true, rows, cols)) else None
    case Attach(rows, cols) => Some(Subscribe(s, false, rows, cols))
    case StartWorker =>
      if !s.started && (s.byAttach ==> exists v :: 0 <= v < |s.viewers| && s.viewers[v].creator)
      then Some(s.(started := true)) else None
    case Process(event) =>
      if s.started && !s.stopped && s.sending.None? then Some(Begin(s, event)) else None
    // A send waits for room in the channel.
    case SendNext =>
      if Current(s, true) && Room(s.viewers[s.sending.value.remaining[0]]) then
        var v := s.sending.value.remaining[0];
        Some(Advance(s).(viewers := s.viewers[v := Put(s.viewers[v], Live(s.sending.value.event))]))
      else None
    case SkipClosed =>
      if Current(s, false) then Some(Advance(s).(outputs := Retain(s.outputs, s.viewers))) else None
    case SkipTakenOver =>
      if s.sending.Some? && s.sending.value.remaining != [] && s.sending.value.generation != s.generation
      then Some(Advance(s)) else None
    case SendDone =>
      if s.sending.Some? && s.sending.value.remaining == [] then Some(s.(sending := None)) else None
    case RequestClose => Some(s.(closeRequested := true))
    // A close request ends the loop even in the middle of a send; the end of the
    // process ends it only between events.
    case Stop =>
      if s.started && !s.stopped && (s.sending.None? || s.closeRequested)
      then Some(s.(stopped := true, sending := None)) else None
    case Drain => if s.stopped && !s.ended then Some(DrainAll(s)) else None
    case Disconnect(v) =>
      if v < |s.viewers| then Some(s.(viewers := s.viewers[v := s.viewers[v].(open := false)])) else None
    case Take(v) =>
      if v < |s.viewers| && s.viewers[v].taken < |s.viewers[v].queue|
      then Some(s.(viewers := s.viewers[v := s.viewers[v].(taken := s.viewers[v].taken + 1)])) else None
    case RejectResize(v) =>
      if v < |s.viewers| then Some(s.(viewers := s.viewers[v := TryPut(s.viewers[v], Fault)])) else None
    case ApplyResize(rows, cols) => Some(s.(screen := s.screen + [Resize(rows, cols)]))
  }

  ghost predicate Runs(s: State, steps: seq<Step>, t: State)
    decreases |steps|
  {
    if steps == [] then s == t
    else
      var mid := Next(s, steps[0]);
      mid.Some? && Runs(mid.value, steps[1..], t)
  }

  // The live events of a queue, in order.
  function LiveOf(queue: seq<Item>): seq<Event> {
    if queue == [] then []
    else
      var last := queue[|queue| - 1];
      LiveOf(queue[..|queue| - 1]) + (if last.Live? then [last.event] else [])
  }

  lemma LiveSnoc(queue: seq<Item>, item: Item)
    ensures LiveOf(queue + [item]) == LiveOf(queue) + (if item.Live? then [item.event] else [])
  {
    assert (queue + [item])[..|queue|] == queue;
  }

  // The data a screen was made to show, and the data a run of events carries.
  function DataOf(screen: seq<Op>): seq<Bytes> {
    if screen == [] then []
    else
      var last := screen[|screen| - 1];
      DataOf(screen[..|screen| - 1]) + (if last.Show? then [last.data] else [])
  }

  function StdoutOf(events: seq<Event>): seq<Bytes> {
    if events == [] then []
    else
      var last := events[|events| - 1];
      StdoutOf(events[..|events| - 1]) + (if last.Stdout? then [last.data] else [])
  }

  // A viewer's channel starts with one redraw of exactly what it has seen, in the size it
  // asked for, unless it created the session; nothing had been processed when the creator
  // subscribed.
  ghost predicate Opens(v: Viewer) {
    if v.creator then
      v.seen == [] && forall i :: 0 <= i < |v.queue| ==> !v.queue[i].Redraw?
    else
      && v.queue != [] && v.queue[0].Redraw? && DataOf(v.queue[0].of) == StdoutOf(v.seen)
      && v.queue[0].of != [] && v.queue[0].of[|v.queue[0].of| - 1] == v.size
      && forall i :: 0 < i < |v.queue| ==> !v.queue[i].Redraw?
  }

  // What the viewer was sent: the events it has seen in its redraw and then live.
  function Received(v: Viewer): seq<Event> {
    v.seen + LiveOf(v.queue)
  }

  ghost predicate Distinct(s: seq<nat>) {
    forall i, j :: 0 <= i < j < |s| ==> s[i] != s[j]
  }

  ghost predicate ViewerInv(v: Viewer, processed: seq<Event>) {
    Opens(v) && Received(v) <= processed && v.taken <= |v.queue| <= v.taken + CAPACITY
  }

  // An open viewer is subscribed until the session ends, and misses nothing but the event
  // being sent to it.
  ghost predicate UpToDate(s: State, i: nat)
    requires i < |s.viewers|
  {
    && (s.viewers[i].open && !s.ended ==> i in s.outputs)
    && (s.viewers[i].open && !s.stopped ==>
          Received(s.viewers[i]) ==
          if s.sending.Some? && i in s.sending.value.remaining then s.sending.value.before else s.processed)
  }

  ghost predicate SendingInv(s: State) {
    s.sending.Some? ==>
      && Distinct(s.sending.value.remaining)
      && (forall i :: i in s.sending.value.remaining ==> i < |s.viewers|)
      && s.processed == s.sending.value.before + [s.sending.value.event]
      && s.sending.value.generation == s.generation
      && s.started && !s.stopped
  }

  ghost predicate OutputsInv(s: State) {
    && Distinct(s.outputs)
    && (forall i :: i in s.outputs ==> i < |s.viewers|)
    && DataOf(s.screen) == StdoutOf(s.processed)
    && (!s.started ==> s.processed == [])
    && (s.stopped ==> s.started)
    && (s.ended ==> s.stopped)
  }

  ghost predicate Inv(s: State) {
    && OutputsInv(s)
    && SendingInv(s)
    && (forall i :: 0 <= i < |s.viewers| ==> ViewerInv(s.viewers[i], s.processed))
    && (forall i :: 0 <= i < |s.viewers| ==> UpToDate(s, i))
  }

  lemma {:induction false} RetainDistinct(outputs: seq<nat>, viewers: seq<Viewer>)
    requires Distinct(outputs)
    ensures Distinct(Retain(outputs, viewers))
  {
    if outputs != [] {
      var front, last := outputs[..|outputs| - 1], outputs[|outputs| - 1];
      RetainDistinct(front, viewers);
      assert last !in front;
    }
  }

  lemma DataSnoc(screen: seq<Op>, op: Op)
    ensures DataOf(screen + [op]) == DataOf(screen) + (if op.Show? then [op.data] else [])
  {
    assert (screen + [op])[..|screen|] == screen;
  }

  lemma StdoutSnoc(events: seq<Event>, e: Event)
    ensures StdoutOf(events + [e]) == StdoutOf(events) + (if e.Stdout? then [e.data] else [])
  {
    assert (events + [e])[..|events|] == events;
  }

  lemma PutKeepsOpens(v: Viewer, item: Item)
    requires Opens(v) && !item.Redraw?
    ensures Opens(Put(v, item))
  {
  }

  // Anything but an event leaves what a viewer received unchanged.
  lemma TryPutKeeps(v: Viewer, item: Item, processed: seq<Event>)
    requires ViewerInv(v, processed) && (item.Fault? || item.Cancelled?)
    ensures ViewerInv(TryPut(v, item), processed)
    ensures Received(TryPut(v, item)) == Received(v)
    ensures TryPut(v, item).open == v.open
  {
    hide Opens;
    if v.open && Room(v) {
      LiveSnoc(v.queue, item);
      PutKeepsOpens(v, item);
      assert LiveOf(v.queue) + [] == LiveOf(v.queue);
    }
  }

  lemma NewViewer(s: State, creator: bool, size: Op, screen: seq<Op>)
    requires DataOf(screen) == StdoutOf(s.processed) && (creator ==> s.processed == [])
    requires screen != [] && screen[|screen| - 1] == size
    ensures var v := Viewer(creator, size, s.processed, if creator then [] else [Redraw(screen)], 0, true);
            ViewerInv(v, s.processed) && Received(v) == s.processed
  {
    LiveSnoc([], Redraw(screen));
    assert [] + [Redraw(screen)] == [Redraw(screen)];
  }

  lemma {:induction false} SubscribeKeepsInv(s: State, creator: bool, rows: nat, cols: nat)
    requires Inv(s) && (creator ==> !s.started)
    ensures Inv(Subscribe(s, creator, rows, cols))
  {
    hide ViewerInv, Received, DataOf, StdoutOf;
    var t := Subscribe(s, creator, rows, cols);
    DataSnoc(s.screen, Resize(rows, cols));
    var n := |s.viewers|;
    DistinctSnoc(s.outputs, n);
    NewViewer(s, creator, Resize(rows, cols), t.screen);
    assert OutputsInv(t) && SendingInv(t);
    forall i | 0 <= i < |t.viewers|
      ensures ViewerInv(t.viewers[i], t.processed) && UpToDate(t, i)
    {
      assert i < n ==> UpToDate(s, i);
    }
  }

  lemma {:induction false} ProcessKeepsInv(s: State, event: Event)
    requires Inv(s) && s.started && !s.stopped && s.sending.None?
    ensures Inv(Begin(s, event))
  {
    var t := Begin(s, event);
    RetainDistinct(s.outputs, s.viewers);
    StdoutSnoc(s.processed, event);
    if event.Stdout? {
      DataSnoc(s.screen, Show(event.data));
    }
    forall i | 0 <= i < |t.viewers|
      ensures ViewerInv(t.viewers[i], t.processed) && UpToDate(t, i)
    {
      assert UpToDate(s, i);
    }
  }

  lemma DistinctTail(s: seq<nat>)
    requires Distinct(s) && s != []
    ensures Distinct(s[1..])
    ensures forall i :: i in s[1..] <==> i in s && i != s[0]
  {
    assert s == [s[0]] + s[1..];
  }

  lemma DistinctSnoc(s: seq<nat>, n: nat)
    requires Distinct(s) && n !in s
    ensures Distinct(s + [n])
  {
  }

  // The send adds exactly the event the viewer was missing.
  lemma PutLive(v: Viewer, before: seq<Event>, event: Event)
    requires ViewerInv(v, before + [event]) && Received(v) == before && Room(v)
    ensures ViewerInv(Put(v, Live(event)), before + [event])
    ensures Received(Put(v, Live(event))) == before + [event]
  {
    LiveSnoc(v.queue, Live(event));
    PutKeepsOpens(v, Live(event));
    assert v.seen + (LiveOf(v.queue) + [event]) == (v.seen + LiveOf(v.queue)) + [event];
  }

  lemma {:induction false} SendKeepsInv(s: State)
    requires Inv(s) && Current(s, true) && Room(s.viewers[s.sending.value.remaining[0]])
    ensures Inv(Next(s, SendNext).value)
  {
    hide ViewerInv, Received, Put, Room;
    var t := Next(s, SendNext).value;
    var sending := s.sending.value;
    var v := sending.remaining[0];
    DistinctTail(sending.remaining);
    assert UpToDate(s, v);
    PutLive(s.viewers[v], sending.before, sending.event);
    assert OutputsInv(t) && SendingInv(t);
    forall i | 0 <= i < |t.viewers|
      ensures ViewerInv(t.viewers[i], t.processed) && UpToDate(t, i)
    {
      assert UpToDate(s, i);
    }
  }

  lemma {:induction false} SkipKeepsInv(s: State)
    requires Inv(s) && Current(s, false)
    ensures Inv(Next(s, SkipClosed).value)
  {
    hide ViewerInv, Received;
    var t := Next(s, SkipClosed).value;
    RetainDistinct(s.outputs, s.viewers);
    DistinctTail(s.sending.value.remaining);
    assert OutputsInv(t) && SendingInv(t);
    forall i | 0 <= i < |t.viewers|
      ensures UpToDate(t, i)
    {
      assert UpToDate(s, i);
    }
  }

  lemma {:induction false} DrainKeepsInv(s: State)
    requires Inv(s) && s.stopped
    ensures Inv(DrainAll(s))
  {
    var t := DrainAll(s);
    forall i | 0 <= i < |t.viewers| ensures ViewerInv(t.viewers[i], t.processed) {
      TryPutKeeps(s.viewers[i], Cancelled, s.processed);
    }
  }

  // A step that changes one viewer without adding an event or reopening it.
  lemma {:induction false} ViewerKeepsInv(s: State, v: nat, viewer: Viewer)
    requires Inv(s) && v < |s.viewers|
    requires ViewerInv(viewer, s.processed) && Received(viewer) == Received(s.viewers[v])
    requires viewer.open ==> s.viewers[v].open
    ensures Inv(s.(viewers := s.viewers[v := viewer]))
  {
    hide ViewerInv, Received;
    var t := s.(viewers := s.viewers[v := viewer]);
    forall i | 0 <= i < |t.viewers| ensures UpToDate(t, i) {
      assert UpToDate(s, i);
    }
  }

  // A step of the owner that touches neither the viewers nor what was processed.
  lemma {:induction false} OwnerKeepsInv(s: State, t: State)
    requires Inv(s)
    requires t.(screen := s.screen, sending := s.sending, started := s.started, closeRequested := s.closeRequested,
                stopped := s.stopped) == s
    requires DataOf(t.screen) == DataOf(s.screen)
    requires t.sending == s.sending || (t.sending.None? && (t.stopped || s.sending.value.remaining == []))
    requires s.started ==> t.started
    requires s.stopped ==> t.stopped
    requires t.stopped ==> t.started && (s.stopped || t.sending.None?)
    ensures Inv(t)
  {
    hide ViewerInv, Received;
    forall i | 0 <= i < |t.viewers| ensures UpToDate(t, i) {
      assert UpToDate(s, i);
    }
  }

  lemma {:induction false} ResizeKeepsInv(s: State, rows: nat, cols: nat)
    requires Inv(s)
    ensures Inv(s.(screen := s.screen + [Resize(rows, cols)]))
  {
    hide Inv;
    DataSnoc(s.screen, Resize(rows, cols));
    assert DataOf(s.screen) + [] == DataOf(s.screen);
    assert s.sending.Some? || s.sending.None?;
    StoppedIsIdle(s);
    OwnerKeepsInv(s, s.(screen := s.screen + [Resize(rows, cols)]));
  }

  lemma StoppedIsIdle(s: State)
    requires Inv(s)
    ensures s.stopped ==> s.started && s.sending.None?
    ensures s.sending.Some? ==> s.started
  {
  }

  lemma {:induction false} StepKeepsInv(s: State, step: Step)
    requires Inv(s) && Next(s, step).Some?
    ensures Inv(Next(s, step).value)
  {
    hide Inv, Subscribe, Begin, DrainAll, Retain, TryPut;
    match step
    case AttachCreator(rows, cols) => SubscribeKeepsInv(s, true, rows, cols);
    case Attach(rows, cols) => SubscribeKeepsInv(s, false, rows, cols);
    case Process(event) => ProcessKeepsInv(s, event);
    case SendNext => SendKeepsInv(s);
    case SkipClosed => SkipKeepsInv(s);
    case SkipTakenOver => NeverTakenOver(s);
    case Drain => DrainKeepsInv(s);
    case Disconnect(v) => DisconnectKeepsInv(s, v);
    case Take(v) => TakeKeepsInv(s, v);
    case RejectResize(v) => RejectKeepsInv(s, v);
    case ApplyResize(rows, cols) => ResizeKeepsInv(s, rows, cols);
    case _ =>
      StoppedIsIdle(s);
      OwnerKeepsInv(s, Next(s, step).value);
  }

  lemma NeverTakenOver(s: State)
    requires Inv(s)
    ensures Next(s, SkipTakenOver) == None
  {
  }

  lemma {:induction false} DisconnectKeepsInv(s: State, v: nat)
    requires Inv(s) && v < |s.viewers|
    ensures Inv(s.(viewers := s.viewers[v := s.viewers[v].(open := false)]))
  {
    ViewerKeepsInv(s, v, s.viewers[v].(open := false));
  }

  lemma {:induction false} TakeKeepsInv(s: State, v: nat)
    requires Inv(s) && v < |s.viewers| && s.viewers[v].taken < |s.viewers[v].queue|
    ensures Inv(s.(viewers := s.viewers[v := s.viewers[v].(taken := s.viewers[v].taken + 1)]))
  {
    assert ViewerInv(s.viewers[v], s.processed);
    ViewerKeepsInv(s, v, s.viewers[v].(taken := s.viewers[v].taken + 1));
  }

  lemma {:induction false} RejectKeepsInv(s: State, v: nat)
    requires Inv(s) && v < |s.viewers|
    ensures Inv(s.(viewers := s.viewers[v := TryPut(s.viewers[v], Fault)]))
  {
    TryPutKeeps(s.viewers[v], Fault, s.processed);
    ViewerKeepsInv(s, v, TryPut(s.viewers[v], Fault));
  }

  lemma {:induction false} RunsKeepInv(s: State, steps: seq<Step>, t: State)
    requires Inv(s) && Runs(s, steps, t)
    ensures Inv(t)
    decreases |steps|
  {
    hide Inv, Next;
    if steps != [] {
      StepKeepsInv(s, steps[0]);
      RunsKeepInv(Next(s, steps[0]).value, steps[1..], t);
    }
  }

  lemma StartInv(byAttach: bool, rows: nat, cols: nat)
    ensures Inv(Start(byAttach, rows, cols))
  {
    DataSnoc([], Resize(rows, cols));
    assert [] + [Resize(rows, cols)] == [Resize(rows, cols)];
  }

  // In every run: a viewer's channel starts with the redraw of the screen as it was
  // after the events processed when it subscribed (no redraw for the creator, who
  // subscribed before the first event), and the live events in it continue from
  // exactly there, each once and in order.
  lemma {:induction false} RedrawMeetsLiveOutput(byAttach: bool, rows: nat, cols: nat, steps: seq<Step>, t: State,
                                                 v: nat)
    requires Runs(Start(byAttach, rows, cols), steps, t) && v < |t.viewers|
    ensures Opens(t.viewers[v])
    ensures t.viewers[v].seen + LiveOf(t.viewers[v].queue) <= t.processed
    ensures |t.viewers[v].queue| <= t.viewers[v].taken + CAPACITY
  {
    StartInv(byAttach, rows, cols);
    RunsKeepInv(Start(byAttach, rows, cols), steps, t);
    assert ViewerInv(t.viewers[v], t.processed);
  }

  // While the session lives no event is skipped: between events every viewer that is
  // still connected has been sent everything processed since it subscribed, and during
  // an event all but that one.
  lemma {:induction false} NoEventSkipped(byAttach: bool, rows: nat, cols: nat, steps: seq<Step>, t: State, v: nat)
    requires Runs(Start(byAttach, rows, cols), steps, t) && v < |t.viewers|
    requires t.viewers[v].open && !t.stopped
    ensures t.sending.None? ==> t.viewers[v].seen + LiveOf(t.viewers[v].queue) == t.processed
    ensures t.sending.Some? ==>
              t.processed == t.viewers[v].seen + LiveOf(t.viewers[v].queue)
                             + (if v in t.sending.value.remaining then [t.sending.value.event] else [])
  {
    StartInv(byAttach, rows, cols);
    RunsKeepInv(Start(byAttach, rows, cols), steps, t);
    assert UpToDate(t, v);
  }

  // The branch of a send that gives way to a later generation is never taken: the
  // generation only changes after the owner has stopped sending.
  lemma {:induction false} TakeoverUnreachable(byAttach: bool, rows: nat, cols: nat, steps: seq<Step>, t: State)
    requires Runs(Start(byAttach, rows, cols), steps, t)
    ensures Next(t, SkipTakenOver) == None
  {
    StartInv(byAttach, rows, cols);
    RunsKeepInv(Start(byAttach, rows, cols), steps, t);
    NeverTakenOver(t);
  }
}
