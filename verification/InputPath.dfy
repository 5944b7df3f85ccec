// Terminal input on its way from a client to the guest's PTY: the client's pump turns
// input into requests, and the agent writes the requests' data to the PTY.
module InputPath {
  import opened Common

  datatype Input = Data(data: Bytes) | Resize(rows: nat, cols: nat) | Eof | Detach

  datatype Request = Request(version: nat, stdin: Bytes, eof: bool, rows: nat, cols: nat)

  const PROTOCOL: nat := 3
  const KEEPALIVE := Request(PROTOCOL, [], false, 0, 0)
  const END := Request(PROTOCOL, [], true, 0, 0)

  // What wakes the pump: an input or its keepalive timer.
  datatype Turn = Arrives(input: Input) | Tick

  function Encode(turn: Turn): Request {
    match turn
    case Tick => KEEPALIVE
    case Arrives(Data(data)) => Request(PROTOCOL, data, false, 0, 0)
    case Arrives(Resize(rows, cols)) => Request(PROTOCOL, [], false, rows, cols)
    case Arrives(_) => END
  }

  predicate Ends(turn: Turn) {
    turn == Arrives(Eof) || turn == Arrives(Detach)
  }

  // Everything the pump wants to send for these turns, after which its input is dropped.
  function Emission(turns: seq<Turn>): seq<Request> {
    if turns == [] then [END]
    else if Ends(turns[0]) then [END]
    else [Encode(turns[0])] + Emission(turns[1..])
  }

  // The data that arrives before the first end or detach.
  function Typed(turns: seq<Turn>): Bytes {
    if turns == [] || Ends(turns[0]) then []
    else (if turns[0].Arrives? && turns[0].input.Data? then turns[0].input.data else []) + Typed(turns[1..])
  }

  function WithoutTicks(turns: seq<Turn>): seq<Turn> {
    if turns == [] then []
    else (if turns[0].Tick? then [] else [turns[0]]) + WithoutTicks(turns[1..])
  }

  function StdinOf(requests: seq<Request>): Bytes {
    if requests == [] then [] else requests[0].stdin + StdinOf(requests[1..])
  }

  // Keepalives add nothing to what is typed.
  lemma {:induction false} TicksAreSilent(turns: seq<Turn>)
    ensures Typed(WithoutTicks(turns)) == Typed(turns)
  {
    if turns != [] {
      TicksAreSilent(turns[1..]);
      var w := WithoutTicks(turns);
      if turns[0].Tick? {
        assert w == WithoutTicks(turns[1..]);
      } else {
        assert w[0] == turns[0] && w[1..] == WithoutTicks(turns[1..]);
      }
    }
  }

  // Whatever is typed and whenever the timer fires, there is exactly one end-of-input
  // request and it is the last one.
  lemma {:induction false} OneEndAndLast(turns: seq<Turn>)
    ensures Emission(turns) != [] && Emission(turns)[|Emission(turns)| - 1] == END
    ensures forall i :: 0 <= i < |Emission(turns)| - 1 ==> !Emission(turns)[i].eof
  {
    if turns != [] && !Ends(turns[0]) {
      OneEndAndLast(turns[1..]);
    }
  }

  // The data sent is exactly what was typed before the first end or detach.
  lemma {:induction false} EmissionCarriesTyped(turns: seq<Turn>)
    ensures StdinOf(Emission(turns)) == Typed(turns)
  {
    if turns != [] && !Ends(turns[0]) {
      EmissionCarriesTyped(turns[1..]);
      assert Emission(turns)[1..] == Emission(turns[1..]);
    }
  }

  datatype Size = Size(rows: nat, cols: nat)

  // The sizes a stream of requests asks for; a zero asks for nothing.
  function SizesOf(requests: seq<Request>): seq<Size> {
    if requests == [] then []
    else
      (if requests[0].rows > 0 && requests[0].cols > 0 then [Size(requests[0].rows, requests[0].cols)] else [])
      + SizesOf(requests[1..])
  }

  // The window sizes that arrive before the first end or detach.
  function Resizes(turns: seq<Turn>): seq<Size> {
    if turns == [] then []
    else match turns[0]
      case Arrives(Eof) => []
      case Arrives(Detach) => []
      case Arrives(Resize(rows, cols)) =>
        (if rows > 0 && cols > 0 then [Size(rows, cols)] else []) + Resizes(turns[1..])
      case _ => Resizes(turns[1..])
  }

  // Every window size is sent, in order and with its rows and columns in their places,
  // and no other size is.
  lemma {:induction false} EmissionCarriesSizes(turns: seq<Turn>)
    ensures SizesOf(Emission(turns)) == Resizes(turns)
  {
    EndHasNoSize();
    if turns != [] && !Ends(turns[0]) {
      EmissionCarriesSizes(turns[1..]);
      assert Emission(turns)[1..] == Emission(turns[1..]);
    }
  }

  lemma EndHasNoSize()
    ensures SizesOf([END]) == []
  {}

  // Each turn before the first end or detach gives one request of its own, in the pump's
  // protocol version, and the end gives the last one.
  lemma {:induction false} OneRequestPerTurn(turns: seq<Turn>, k: nat)
    requires k <= |turns| && (forall i :: 0 <= i < k ==> !Ends(turns[i])) && (k == |turns| || Ends(turns[k]))
    ensures |Emission(turns)| == k + 1
    ensures forall i :: 0 <= i <= k ==> Emission(turns)[i].version == 3
    ensures forall i :: 0 <= i < k ==>
              (Emission(turns)[i].stdin == match turns[i] case Arrives(Data(data)) => data case _ => [])
  {
    if k > 0 {
      OneRequestPerTurn(turns[1..], k - 1);
    }
  }

  // The pump. The request stream takes the first `accepted` sends and refuses the rest,
  // as when the connection is lost.
  method Pump(turns: seq<Turn>, accepted: nat) returns (sent: seq<Request>)
    ensures sent == Emission(turns)[..Min(accepted, |Emission(turns)|)]
  {
    sent := [];
    var sentEof := false;
    var n := 0;
    while n < |turns|
      invariant 0 <= n <= |turns| && |sent| <= accepted
      invariant !sentEof
      invariant Emission(turns) == sent + Emission(turns[n..])
    {
      var request := Encode(turns[n]);
      assert turns[n..][1..] == turns[n + 1..];
      if |sent| == accepted {
        break;
      }
      if request.eof {
        sent := sent + [request];
        sentEof := true;
        break;
      }
      assert sent + ([request] + Emission(turns[n + 1..])) == (sent + [request]) + Emission(turns[n + 1..]);
      sent := sent + [request];
      n := n + 1;
    }
    if !sentEof && |sent| < accepted {
      sent := sent + [END];
    }
  }

  // The write side of the PTY: it takes `room` more bytes, then every write fails. It
  // remembers the sizes it was given.
  datatype Fault = PtyGone | OtherFault

  datatype Written = Ok | Failed(fault: Fault)

  class Pty {
    var taken: Bytes
    var room: nat
    var sizes: seq<Size>
    const fault: Fault

    constructor (room: nat, fault: Fault)
      ensures taken == [] && sizes == [] && this.room == room && this.fault == fault
    {
      taken, sizes := [], [];
      this.room := room;
      this.fault := fault;
    }

    // write_all: a failing write may have written a part of the data.
    method WriteAll(data: Bytes) returns (r: Written)
      modifies this`taken, this`room
      ensures var n := Min(old(room), |data|);
              taken == old(taken) + data[..n] && room == old(room) - n
      ensures r == if |data| <= old(room) then Ok else Failed(fault)
    {
      var n := Min(room, |data|);
      taken := taken + data[..n];
      room := room - n;
      r := if n == |data| then Ok else Failed(fault);
    }

    method Resize(rows: nat, cols: nat)
      modifies this`sizes
      ensures sizes == old(sizes) + [Size(rows, cols)]
    {
      sizes := sizes + [Size(rows, cols)];
    }

    // A PTY that is gone swallows the data without an error.
    method WriteStdin(data: Bytes) returns (ok: bool)
      modifies this`taken, this`room
      ensures var n := Min(old(room), |data|);
              taken == old(taken) + data[..n] && room == old(room) - n
      ensures ok <==> |data| <= old(room) || fault == PtyGone
    {
      var r := WriteAll(data);
      ok := r.Ok? || r.fault == PtyGone;
    }
  }

  // What the request stream yields: a request, with the outcome of the resize it asks
  // for, or an error.
  datatype Arrival = Arrival(request: Request, resizeWorks: bool) | Broken

  const VEOF: byte := 4

  predicate Acceptable(a: Arrival) {
    a.Arrival? && a.request.version == PROTOCOL
    && (a.request.rows > 0 && a.request.cols > 0 ==> a.resizeWorks)
  }

  // A request is wrong by its version, or by a size the terminal does not take; without
  // both rows and columns it asks for none.
  lemma AcceptableExactly(r: Request, resizeWorks: bool)
    ensures Acceptable(Arrival(r, resizeWorks)) <==> r.version == 3 && (resizeWorks || r.rows == 0 || r.cols == 0)
    ensures !Acceptable(Broken)
  {}

  // The bytes a PTY with unlimited room gets from the stream and whether its end was in
  // order; `idle` says that the stream neither yields anything more nor ends.
  function Ideal(arrivals: seq<Arrival>, idle: bool): (Bytes, bool) {
    if arrivals == [] then (if idle then ([], false) else ([VEOF], true))
    else if !Acceptable(arrivals[0]) then ([], false)
    else if arrivals[0].request.eof then (arrivals[0].request.stdin + [VEOF], true)
    else
      var rest := Ideal(arrivals[1..], idle);
      (arrivals[0].request.stdin + rest.0, rest.1)
  }

  function IdealFrom(initial: Bytes, initialEof: bool, arrivals: seq<Arrival>, idle: bool): (Bytes, bool) {
    if initialEof then (initial + [VEOF], true)
    else (initial + Ideal(arrivals, idle).0, Ideal(arrivals, idle).1)
  }

  // The sizes of the requests that count: up to the end of the input or the first one
  // that is not acceptable.
  function Resized(arrivals: seq<Arrival>): seq<Size> {
    if arrivals == [] || !Acceptable(arrivals[0]) then []
    else SizesOf([arrivals[0].request]) + (if arrivals[0].request.eof then [] else Resized(arrivals[1..]))
  }

  function Take(s: Bytes, room: nat): Bytes {
    s[..Min(room, |s|)]
  }

  lemma TakeSplit(a: Bytes, b: Bytes, room: nat)
    ensures Take(a + b, room) == Take(a, room) + Take(b, room - Min(room, |a|))
  {
  }

  lemma StreamStep(arrivals: seq<Arrival>, n: nat, idle: bool)
    requires n < |arrivals|
    ensures var a, rest := arrivals[n], Ideal(arrivals[n + 1..], idle);
            Ideal(arrivals[n..], idle) ==
            if !Acceptable(a) then ([], false)
            else if a.request.eof then (a.request.stdin + [VEOF], true)
            else (a.request.stdin + rest.0, rest.1)
    ensures var a := arrivals[n];
            Resized(arrivals[n..]) ==
            if !Acceptable(a) then []
            else SizesOf([a.request]) + (if a.request.eof then [] else Resized(arrivals[n + 1..]))
  {
    hide SizesOf;
    assert arrivals[n..][0] == arrivals[n] && arrivals[n..][1..] == arrivals[n + 1..];
  }

  lemma StreamEnd(idle: bool)
    ensures Resized([]) == []
    ensures Ideal([], idle) == if idle then ([], false) else ([VEOF], true)
  {}

  // The sizes given so far and those left make up the whole.
  ghost predicate SizesLeft(start: seq<Size>, now: seq<Size>, left: seq<Size>, all: seq<Size>) {
    && start <= now && now + left == start + all
    && SizesGiven(start, now, all, left == [])
  }

  // A part of the sizes asked for, from the first on, or all of them.
  ghost predicate SizesGiven(start: seq<Size>, now: seq<Size>, all: seq<Size>, complete: bool) {
    start <= now <= start + all && (complete ==> now == start + all)
  }

  lemma SizesStart(start: seq<Size>, all: seq<Size>)
    ensures SizesLeft(start, start, all, all) && SizesGiven(start, start, [], true)
    ensures SizesGiven(start, start, [], false) && SizesGiven(start, start, all, false)
  {}

  lemma SizeStep(start: seq<Size>, now: seq<Size>, next: seq<Size>, left: seq<Size>, all: seq<Size>)
    ensures SizesLeft(start, now, next + left, all) ==>
              && SizesGiven(start, now, all, false)
              && SizesLeft(start, now + next, left, all) && SizesGiven(start, now + next, all, false)
              && (left == [] ==> SizesGiven(start, now + next, all, true))
    ensures SizesLeft(start, now, [], all) ==> SizesGiven(start, now, all, true) && SizesGiven(start, now, all, false)
  {
    assert now + (next + left) == (now + next) + left;
  }

  lemma SizesSoFar(start: seq<Size>, now: seq<Size>, left: seq<Size>, all: seq<Size>)
    requires SizesLeft(start, now, left, all)
    ensures SizesGiven(start, now, all, false)
  {}

  method ApplySize(pty: Pty, request: Request)
    modifies pty`sizes
    ensures pty.sizes == old(pty.sizes) + SizesOf([request])
  {
    if request.rows > 0 && request.cols > 0 {
      pty.Resize(request.rows, request.cols);
    }
  }

  // Writes data, if any, ahead of what is still to come.
  method Feed(pty: Pty, data: Bytes, ghost rest: Bytes) returns (ok: bool)
    modifies pty`taken, pty`room
    ensures pty.taken + Take(rest, pty.room) == old(pty.taken) + Take(data + rest, old(pty.room))
    ensures ok ==> pty.fault == PtyGone || (|rest| <= pty.room <==> |data + rest| <= old(pty.room))
    ensures !ok ==> pty.taken == old(pty.taken) + Take(data + rest, old(pty.room))
    ensures !ok ==> |data + rest| > old(pty.room) && pty.fault != PtyGone
  {
    TakeSplit(data, rest, pty.room);
    if data == [] {
      assert data + rest == rest;
      return true;
    }
    ok := pty.WriteStdin(data);
  }

  // The last byte: nothing is to come after it.
  method Finish(pty: Pty) returns (ok: bool)
    modifies pty`taken, pty`room
    ensures pty.taken == old(pty.taken) + Take([VEOF], old(pty.room))
    ensures ok <==> 1 <= old(pty.room) || pty.fault == PtyGone
  {
    ok := pty.WriteStdin([VEOF]);
  }

  // For every stream of requests and however many bytes the PTY takes, it gets a prefix
  // of the ideal input, cut only by its own room; the call succeeds exactly when the
  // input ended in order and the PTY took it all or was gone. The PTY is given the sizes
  // asked for, in order, and all of them when the call succeeds.
  method ForwardStdin(pty: Pty, initial: Bytes, initialEof: bool, arrivals: seq<Arrival>, idle: bool)
    returns (ok: bool)
    modifies pty
    ensures var ideal := IdealFrom(initial, initialEof, arrivals, idle);
            && pty.taken == old(pty.taken) + Take(ideal.0, old(pty.room))
            && (ok <==> ideal.1 && (|ideal.0| <= old(pty.room) || pty.fault == PtyGone))
    ensures SizesGiven(old(pty.sizes), pty.sizes, if initialEof then [] else Resized(arrivals), ok)
  {
    hide Take, Ideal, Resized, SizesOf, SizesLeft, SizesGiven;
    StreamEnd(idle);
    ghost var sizes := pty.sizes;
    SizesStart(sizes, Resized(arrivals));
    ghost var room, start := pty.room, pty.taken;
    ghost var ideal := IdealFrom(initial, initialEof, arrivals, idle);
    var written := Feed(pty, initial, if initialEof then [VEOF] else Ideal(arrivals, idle).0);
    if !written {
      return false;
    }
    if initialEof {
      ok := Finish(pty);
      return;
    }
    var n := 0;
    while n < |arrivals|
      invariant 0 <= n <= |arrivals|
      invariant var rest := Ideal(arrivals[n..], idle);
                && pty.taken + Take(rest.0, pty.room) == start + Take(ideal.0, room)
                && (pty.fault == PtyGone || (|rest.0| <= pty.room <==> |ideal.0| <= room))
                && rest.1 == ideal.1
      invariant SizesLeft(sizes, pty.sizes, Resized(arrivals[n..]), Resized(arrivals))
    {
      var a := arrivals[n];
      StreamStep(arrivals, n, idle);
      SizesSoFar(sizes, pty.sizes, Resized(arrivals[n..]), Resized(arrivals));
      TakeNothing(pty.room);
      if a.Broken? || a.request.version != PROTOCOL {
        return false;
      }
      if a.request.rows > 0 && a.request.cols > 0 && !a.resizeWorks {
        return false;
      }
      SizeStep(sizes, pty.sizes, SizesOf([a.request]), if a.request.eof then [] else Resized(arrivals[n + 1..]),
               Resized(arrivals));
      ApplySize(pty, a.request);
      written := Feed(pty, a.request.stdin, if a.request.eof then [VEOF] else Ideal(arrivals[n + 1..], idle).0);
      if !written {
        return false;
      }
      if a.request.eof {
        ok := Finish(pty);
        return;
      }
      n := n + 1;
    }
    assert arrivals[n..] == [];
    TakeNothing(pty.room);
    SizeStep(sizes, pty.sizes, [], [], Resized(arrivals));
    if idle {
      return false;
    }
    ok := Finish(pty);
  }

  lemma TakeNothing(room: nat)
    ensures Take([], room) == []
  {
  }

  // These requests reach the agent; a resize among them may work or not.
  ghost predicate Carries(arrivals: seq<Arrival>, requests: seq<Request>) {
    |arrivals| == |requests|
    && forall i :: 0 <= i < |arrivals| ==> arrivals[i].Arrival? && arrivals[i].request == requests[i]
  }

  lemma {:induction false} IdealOfOpenRequests(arrivals: seq<Arrival>, requests: seq<Request>, rest: seq<Arrival>,
                                               idle: bool)
    requires Carries(arrivals, requests)
    requires forall i :: 0 <= i < |arrivals| ==> Acceptable(arrivals[i]) && !requests[i].eof
    ensures Ideal(arrivals + rest, idle) == (StdinOf(requests) + Ideal(rest, idle).0, Ideal(rest, idle).1)
    decreases |requests|
  {
    hide Acceptable;
    if requests == [] {
      assert arrivals + rest == rest;
      assert [] + Ideal(rest, idle).0 == Ideal(rest, idle).0;
    } else {
      IdealOfOpenRequests(arrivals[1..], requests[1..], rest, idle);
      var all := arrivals + rest;
      assert all[0] == arrivals[0] && all[1..] == arrivals[1..] + rest;
      assert requests[0].stdin + (StdinOf(requests[1..]) + Ideal(rest, idle).0) ==
             (requests[0].stdin + StdinOf(requests[1..])) + Ideal(rest, idle).0;
    }
  }

  lemma {:induction false} StdinConcat(a: seq<Request>, b: seq<Request>)
    ensures StdinOf(a + b) == StdinOf(a) + StdinOf(b)
  {
    if a == [] {
      assert a + b == b;
    } else {
      assert (a + b)[0] == a[0] && (a + b)[1..] == a[1..] + b;
      StdinConcat(a[1..], b);
    }
  }

  // A one-shot PTY gets the initial input, everything typed before the first end or
  // detach, and one VEOF byte, when every resize on the way works.
  lemma {:induction false} OneShotInput(initial: Bytes, turns: seq<Turn>, arrivals: seq<Arrival>, idle: bool)
    requires Carries(arrivals, Emission(turns))
    requires forall i :: 0 <= i < |arrivals| ==> Acceptable(arrivals[i])
    ensures IdealFrom(initial, false, arrivals, idle) == (initial + (Typed(turns) + [4 as byte]), true)
  {
    hide Emission, Typed, StdinOf, Ideal, Acceptable;
    var e := Emission(turns);
    OneEndAndLast(turns);
    EmissionCarriesTyped(turns);
    var front := e[..|e| - 1];
    var last := arrivals[|e| - 1];
    assert e == front + [END] && arrivals == arrivals[..|e| - 1] + [last];
    StdinConcat(front, [END]);
    EndAlone(last, idle);
    assert StdinOf(front) + [] == StdinOf(front);
    IdealOfOpenRequests(arrivals[..|e| - 1], front, [last], idle);
  }

  // And its sizes are the window sizes that arrived, in order.
  lemma {:induction false} OneShotSizes(turns: seq<Turn>, arrivals: seq<Arrival>)
    requires Carries(arrivals, Emission(turns))
    requires forall i :: 0 <= i < |arrivals| ==> Acceptable(arrivals[i])
    ensures Resized(arrivals) == Resizes(turns)
  {
    hide Emission, Acceptable;
    OneEndAndLast(turns);
    EmissionCarriesSizes(turns);
    ResizedAll(arrivals, Emission(turns));
  }

  lemma SizesHead(requests: seq<Request>)
    requires requests != []
    ensures SizesOf(requests) == SizesOf([requests[0]]) + SizesOf(requests[1..])
    ensures SizesOf([]) == []
  {
    assert [requests[0]][1..] == [];
  }

  lemma {:induction false} ResizedAll(arrivals: seq<Arrival>, requests: seq<Request>)
    requires Carries(arrivals, requests) && requests != []
    requires forall i :: 0 <= i < |arrivals| ==> Acceptable(arrivals[i])
    requires forall i :: 0 <= i < |requests| - 1 ==> !requests[i].eof
    ensures Resized(arrivals) == SizesOf(requests)
  {
    hide Acceptable;
    assert arrivals[0].request == requests[0];
    SizesHead(requests);
    if |requests| > 1 {
      ResizedAll(arrivals[1..], requests[1..]);
    } else {
      assert requests[1..] == [] && arrivals[1..] == [];
      assert Acceptable(arrivals[0]);
    }
  }

  lemma {:induction false} EndAlone(last: Arrival, idle: bool)
    requires last.Arrival? && last.request == END && Acceptable(last)
    ensures StdinOf([END]) == [] && Ideal([last], idle) == ([VEOF], true)
  {
    assert END.stdin + [VEOF] == [VEOF];
  }

  // Input that is cut before the end request, by a lost connection or by a resize that
  // fails, adds no VEOF byte: the PTY gets what the requests before that carry, which is
  // a part of what was typed.
  lemma {:induction false} CutInputEndsNothing(initial: Bytes, turns: seq<Turn>, k: nat, arrivals: seq<Arrival>,
                                               rest: seq<Arrival>, idle: bool)
    requires k < |Emission(turns)| && Carries(arrivals, Emission(turns)[..k])
    requires forall i :: 0 <= i < |arrivals| ==> Acceptable(arrivals[i])
    requires rest != [] && !Acceptable(rest[0])
    ensures IdealFrom(initial, false, arrivals + rest, idle) == (initial + StdinOf(Emission(turns)[..k]), false)
    ensures StdinOf(Emission(turns)[..k]) <= Typed(turns)
  {
    hide Emission, Typed, StdinOf, Acceptable;
    var e := Emission(turns);
    OneEndAndLast(turns);
    EmissionCarriesTyped(turns);
    var front := e[..k];
    assert forall i :: 0 <= i < |front| ==> front[i] == e[i];
    IdealOfOpenRequests(arrivals, front, rest, idle);
    assert StdinOf(front) + [] == StdinOf(front);
    assert e == front + e[k..];
    StdinConcat(front, e[k..]);
  }
}

// The input of a persistent session: attached clients, sent text, terminal replies and
// the owner's heartbeat share one bounded channel into the PTY's writer.
module SessionInput {
  import opened Common
  import opened InputPath
  import SessionRequests

  const CAPACITY: nat := 32

  // Who put a request into the channel.
  datatype Source = Client(a: nat) | Text | Reply | Heartbeat | Attaching

  datatype Entry = Entry(source: Source, request: Request)

  // offered: what the client's connection has yielded to its attachment so far.
  datatype Attachment = Attachment(offered: seq<Request>, over: bool)

  // channel: everything ever put into it; the writer has taken the first `taken`.
  // offeredText and replies: what was accepted from the other sources.
  datatype State = State(channel: seq<Entry>, taken: nat, attachments: seq<Attachment>,
                         texts: seq<Bytes>, replies: seq<Bytes>)

  datatype Step =
    | Connect(rows: nat, cols: nat)
    | FromClient(a: nat, request: Request)
    | DropsLast(a: nat, request: Request)
    | Hangup(a: nat)
    | SendText(data: Bytes)
    | QueryReply(data: Bytes)
    | Beat
    | WriterTakes

  function Start(): State {
    State([], 0, [], [], [])
  }

  predicate Room(s: State) {
    |s.channel| < s.taken + CAPACITY
  }

  function Put(s: State, source: Source, request: Request): State {
    s.(channel := s.channel + [Entry(source, request)])
  }

  function TryPut(s: State, source: Source, request: Request): State {
    if Room(s) then Put(s, source, request) else s
  }

  // An attachment passes a request on unless it ends the attachment: a wrong protocol
  // version, the end of the client's input, or an impossible size.
  predicate PassedOn(r: Request) {
    && r.version == PROTOCOL && !r.eof
    && (r.rows > 0 && r.cols > 0 ==> SessionRequests.Dimensions(r.rows, r.cols).Success?)
  }

  function Next(s: State, step: Step): Option<State> {
    match step
    case Connect(rows, cols) =>
      Some(TryPut(s, Attaching, Request(PROTOCOL, [], false, rows, cols))
           .(attachments := s.attachments + [Attachment([], false)]))
    case FromClient(a, request) =>
      if a < |s.attachments| && !s.attachments[a].over && (PassedOn(request) ==> Room(s)) then
        var t := s.(attachments := s.attachments[a :=
          Attachment(s.attachments[a].offered + [request], !PassedOn(request))]);
        Some(if PassedOn(request) then Put(t, Client(a), request) else t)
      else None
    // The channel stays full for too long, or the client goes away meanwhile: the request
    // that was waiting for room is dropped and the attachment ends.
    case DropsLast(a, request) =>
      if a < |s.attachments| && !s.attachments[a].over && PassedOn(request)
      then Some(s.(attachments := s.attachments[a := Attachment(s.attachments[a].offered + [request], true)]))
      else None
    case Hangup(a) =>
      if a < |s.attachments|
      then Some(s.(attachments := s.attachments[a := s.attachments[a].(over := true)])) else None
    case SendText(data) =>
      if Room(s) then Some(Put(s, Text, Request(PROTOCOL, data, false, 0, 0)).(texts := s.texts + [data])) else None
    case QueryReply(data) =>
      Some(if Room(s) then Put(s, Reply, Request(PROTOCOL, data, false, 0, 0)).(replies := s.replies + [data]) else s)
    case Beat => Some(TryPut(s, Heartbeat, KEEPALIVE))
    case WriterTakes => if s.taken < |s.channel| then Some(s.(taken := s.taken + 1)) else None
  }

  ghost predicate Runs(s: State, steps: seq<Step>, t: State)
    decreases |steps|
  {
    if steps == [] then s == t
    else
      var mid := Next(s, steps[0]);
      mid.Some? && Runs(mid.value, steps[1..], t)
  }

  // The requests one source put into the channel, in order.
  function From(channel: seq<Entry>, source: Source): seq<Request> {
    if channel == [] then []
    else
      var last := channel[|channel| - 1];
      From(channel[..|channel| - 1], source) + (if last.source == source then [last.request] else [])
  }

  function Requests(channel: seq<Entry>): seq<Request> {
    if channel == [] then [] else Requests(channel[..|channel| - 1]) + [channel[|channel| - 1].request]
  }

  // The requests of a connection up to the first one that ends the attachment.
  function Before(offered: seq<Request>): seq<Request> {
    if offered == [] || !PassedOn(offered[0]) then [] else [offered[0]] + Before(offered[1..])
  }

  function AsRequests(data: seq<Bytes>): seq<Request> {
    if data == [] then []
    else AsRequests(data[..|data| - 1]) + [Request(PROTOCOL, data[|data| - 1], false, 0, 0)]
  }

  lemma FromSnoc(channel: seq<Entry>, e: Entry, source: Source)
    ensures From(channel + [e], source) == From(channel, source) + (if e.source == source then [e.request] else [])
  {
    assert (channel + [e])[..|channel|] == channel;
  }

  lemma {:induction false} BeforeSnoc(offered: seq<Request>, r: Request)
    requires forall i :: 0 <= i < |offered| ==> PassedOn(offered[i])
    ensures Before(offered) == offered
    ensures Before(offered + [r]) == if PassedOn(r) then offered + [r] else offered
  {
    if offered == [] {
      assert Before([r][1..]) == [];
    } else {
      BeforeSnoc(offered[1..], r);
      assert (offered + [r])[1..] == offered[1..] + [r];
    }
  }

  lemma AsRequestsSnoc(data: seq<Bytes>, d: Bytes)
    ensures AsRequests(data + [d]) == AsRequests(data) + [Request(PROTOCOL, d, false, 0, 0)]
  {
    assert (data + [d])[..|data|] == data;
  }

  // Everything the connection yielded before the attachment ended was passed on, but for
  // one request that was dropped as the attachment ended.
  ghost predicate AllButDropped(a: Attachment, passed: seq<Request>) {
    || Before(a.offered) == passed
    || (a.over && a.offered != [] && Before(a.offered) == passed + [a.offered[|a.offered| - 1]])
  }

  ghost predicate AttachmentInv(a: Attachment, passed: seq<Request>) {
    && AllButDropped(a, passed)
    && (!a.over ==> passed == a.offered)
    && forall i :: 0 <= i < |passed| ==> PassedOn(passed[i])
  }

  ghost predicate Inv(s: State) {
    && s.taken <= |s.channel| <= s.taken + CAPACITY
    && (forall i :: 0 <= i < |s.channel| ==>
          s.channel[i].request.version == PROTOCOL && !s.channel[i].request.eof)
    && (forall a :: 0 <= a < |s.attachments| ==> AttachmentInv(s.attachments[a], From(s.channel, Client(a))))
    && (forall a :: |s.attachments| <= a ==> From(s.channel, Client(a)) == [])
    && From(s.channel, Text) == AsRequests(s.texts)
    && From(s.channel, Reply) == AsRequests(s.replies)
  }

  // Anything but a client's request leaves every attachment's part of the channel alone.
  lemma {:induction false} PutKeepsInv(s: State, source: Source, r: Request)
    requires Inv(s) && Room(s) && (source.Heartbeat? || source.Attaching?)
    requires r.version == PROTOCOL && !r.eof
    ensures Inv(Put(s, source, r))
  {
    hide From, AttachmentInv;
    FromSnoc(s.channel, Entry(source, r), Text);
    FromSnoc(s.channel, Entry(source, r), Reply);
    forall a: nat ensures From(s.channel + [Entry(source, r)], Client(a)) == From(s.channel, Client(a)) {
      FromSnoc(s.channel, Entry(source, r), Client(a));
    }
  }

  lemma {:induction false} TextKeepsInv(s: State, step: Step)
    requires Inv(s) && (step.SendText? || step.QueryReply?) && Next(s, step).Some?
    ensures Inv(Next(s, step).value)
  {
    hide From, AttachmentInv, AsRequests;
    if Room(s) {
      var e := Entry(if step.SendText? then Text else Reply, Request(PROTOCOL, step.data, false, 0, 0));
      FromSnoc(s.channel, e, Text);
      FromSnoc(s.channel, e, Reply);
      AsRequestsSnoc(s.texts, step.data);
      AsRequestsSnoc(s.replies, step.data);
      forall a: nat ensures From(s.channel + [e], Client(a)) == From(s.channel, Client(a)) {
        FromSnoc(s.channel, e, Client(a));
      }
    }
  }

  lemma {:induction false} ClientKeepsInv(s: State, a: nat, r: Request)
    requires Inv(s) && Next(s, FromClient(a, r)).Some?
    ensures Inv(Next(s, FromClient(a, r)).value)
  {
    hide From, Before, AsRequests;
    var client := s.attachments[a];
    assert AttachmentInv(client, From(s.channel, Client(a)));
    BeforeSnoc(client.offered, r);
    if PassedOn(r) {
      var e := Entry(Client(a), r);
      FromSnoc(s.channel, e, Text);
      FromSnoc(s.channel, e, Reply);
      forall b: nat
        ensures From(s.channel + [e], Client(b)) == From(s.channel, Client(b)) + (if a == b then [r] else [])
      {
        FromSnoc(s.channel, e, Client(b));
      }
    }
  }

  lemma {:induction false} StepKeepsInv(s: State, step: Step)
    requires Inv(s) && Next(s, step).Some?
    ensures Inv(Next(s, step).value)
  {
    match step
    case Connect(rows, cols) => ConnectKeepsInv(s, rows, cols);
    case FromClient(a, request) => ClientKeepsInv(s, a, request);
    case DropsLast(a, request) => DropKeepsInv(s, a, request);
    case Hangup(a) => HangupKeepsInv(s, a);
    case SendText(data) => TextKeepsInv(s, step);
    case QueryReply(data) => TextKeepsInv(s, step);
    case Beat => if Room(s) { PutKeepsInv(s, Heartbeat, KEEPALIVE); }
    case WriterTakes => TakeKeepsInv(s);
  }

  lemma {:induction false} TakeKeepsInv(s: State)
    requires Inv(s) && s.taken < |s.channel|
    ensures Inv(s.(taken := s.taken + 1))
  {
    hide From, AttachmentInv;
  }

  lemma {:induction false} HangupKeepsInv(s: State, a: nat)
    requires Inv(s) && a < |s.attachments|
    ensures Inv(s.(attachments := s.attachments[a := s.attachments[a].(over := true)]))
  {
    hide From, Before;
  }

  lemma {:induction false} DropKeepsInv(s: State, a: nat, r: Request)
    requires Inv(s) && Next(s, DropsLast(a, r)).Some?
    ensures Inv(Next(s, DropsLast(a, r)).value)
  {
    hide From, Before;
    var client := s.attachments[a];
    assert AttachmentInv(client, From(s.channel, Client(a)));
    BeforeSnoc(client.offered, r);
  }

  lemma {:induction false} ConnectKeepsInv(s: State, rows: nat, cols: nat)
    requires Inv(s)
    ensures Inv(Next(s, Connect(rows, cols)).value)
  {
    hide From;
    var r := Request(PROTOCOL, [], false, rows, cols);
    if Room(s) {
      PutKeepsInv(s, Attaching, r);
    }
  }

  lemma {:induction false} RunsKeepInv(s: State, steps: seq<Step>, t: State)
    requires Inv(s) && Runs(s, steps, t)
    ensures Inv(t)
    decreases |steps|
  {
    hide Inv;
    if steps != [] {
      StepKeepsInv(s, steps[0]);
      RunsKeepInv(Next(s, steps[0]).value, steps[1..], t);
    }
  }

  lemma StartInv()
    ensures Inv(Start())
  {
  }

  lemma {:induction false} TakenRequests(channel: seq<Entry>)
    requires forall i :: 0 <= i < |channel| ==> channel[i].request.version == PROTOCOL && !channel[i].request.eof
    ensures |Requests(channel)| == |channel|
    ensures forall i :: 0 <= i < |channel| ==> Requests(channel)[i] == channel[i].request
  {
    if channel != [] {
      TakenRequests(channel[..|channel| - 1]);
    }
  }

  // In every run of a session the channel is an order-preserving interleaving of its
  // sources: each client's part is what its connection yielded before the attachment
  // ended, but for at most one last request that was dropped as the attachment ended;
  // sent text and replies are all there in order; and no entry ends the input.
  lemma {:induction false} ChannelInterleavesSources(steps: seq<Step>, t: State)
    requires Runs(Start(), steps, t)
    ensures forall a :: 0 <= a < |t.attachments| ==>
              var client, passed := t.attachments[a], From(t.channel, Client(a));
              AllButDropped(client, passed) && (!client.over ==> passed == client.offered)
    ensures From(t.channel, Text) == AsRequests(t.texts) && From(t.channel, Reply) == AsRequests(t.replies)
    ensures forall i :: 0 <= i < |t.channel| ==> !t.channel[i].request.eof
  {
    hide From, AllButDropped;
    StartInv();
    RunsKeepInv(Start(), steps, t);
    forall a | 0 <= a < |t.attachments|
      ensures var client, passed := t.attachments[a], From(t.channel, Client(a));
              AllButDropped(client, passed) && (!client.over ==> passed == client.offered)
    {
      assert AttachmentInv(t.attachments[a], From(t.channel, Client(a)));
    }
  }

  // While the session lives its PTY gets the initial input and then the data of the
  // channel's requests in their order, all of it or, after a resize that failed, what came
  // before that; and nothing else: no detach, disconnect or silence makes the writer add
  // a VEOF byte.
  lemma {:induction false} SessionInputNeverEnds(steps: seq<Step>, t: State, initial: Bytes, arrivals: seq<Arrival>)
    returns (k: nat)
    requires Runs(Start(), steps, t)
    requires t.taken <= |t.channel| ==> Carries(arrivals, Requests(t.channel[..t.taken]))
    ensures k <= t.taken <= |t.channel|
    ensures (forall i :: 0 <= i < |arrivals| ==> Acceptable(arrivals[i])) ==> k == t.taken
    ensures IdealFrom(initial, false, arrivals, true) == (initial + StdinOf(Requests(t.channel[..k])), false)
  {
    hide Runs;
    StartInv();
    RunsKeepInv(Start(), steps, t);
    k := OpenStream(t.channel[..t.taken], initial, arrivals);
    assert t.channel[..t.taken][..k] == t.channel[..k];
  }

  lemma {:induction false} OpenStream(entries: seq<Entry>, initial: Bytes, arrivals: seq<Arrival>) returns (k: nat)
    requires Carries(arrivals, Requests(entries))
    requires forall i :: 0 <= i < |entries| ==> entries[i].request.version == PROTOCOL && !entries[i].request.eof
    ensures k <= |entries| && ((forall i :: 0 <= i < |arrivals| ==> Acceptable(arrivals[i])) ==> k == |entries|)
    ensures IdealFrom(initial, false, arrivals, true) == (initial + StdinOf(Requests(entries[..k])), false)
  {
    hide StdinOf, Acceptable, Ideal, Requests;
    TakenRequests(entries);
    k := 0;
    while k < |arrivals| && Acceptable(arrivals[k])
      invariant 0 <= k <= |arrivals|
      invariant forall i :: 0 <= i < k ==> Acceptable(arrivals[i])
    {
      k := k + 1;
    }
    OpenFront(entries, arrivals, k);
    NothingMore(arrivals[k..]);
    assert StdinOf(Requests(entries[..k])) + [] == StdinOf(Requests(entries[..k]));
  }

  lemma {:induction false} OpenFront(entries: seq<Entry>, arrivals: seq<Arrival>, k: nat)
    requires Carries(arrivals, Requests(entries)) && k <= |arrivals| == |entries|
    requires forall i :: 0 <= i < |entries| ==> entries[i].request.version == PROTOCOL && !entries[i].request.eof
    requires forall i :: 0 <= i < k ==> Acceptable(arrivals[i])
    ensures Ideal(arrivals, true) ==
            (StdinOf(Requests(entries[..k])) + Ideal(arrivals[k..], true).0, Ideal(arrivals[k..], true).1)
  {
    hide StdinOf, Acceptable, Ideal, Requests;
    var front := entries[..k];
    TakenRequests(entries);
    TakenRequests(front);
    assert Carries(arrivals[..k], Requests(front));
    IdealOfOpenRequests(arrivals[..k], Requests(front), arrivals[k..], true);
    assert arrivals == arrivals[..k] + arrivals[k..];
  }

  lemma NothingMore(rest: seq<Arrival>)
    requires rest == [] || !Acceptable(rest[0])
    ensures Ideal(rest, true) == ([], false)
  {}

  // What a source can put into the channel: an open attachment any request in protocol
  // version 3 that neither ends the input nor asks for a size above 200 by 500, and the
  // others any data.
  predicate Offered(s: State, e: Entry) {
    match e.source
    case Client(a) =>
      && a < |s.attachments| && !s.attachments[a].over
      && e.request.version == 3 && !e.request.eof
      && (e.request.rows == 0 || e.request.cols == 0 || (e.request.rows <= 200 && e.request.cols <= 500))
    case Text => e.request == Request(3, e.request.stdin, false, 0, 0)
    case Reply => e.request == Request(3, e.request.stdin, false, 0, 0)
    case Heartbeat => e.request == Request(3, [], false, 0, 0)
    case Attaching => false
  }

  // The attachments' open ends stay open.
  predicate StaysOpen(s: State, t: State) {
    |s.attachments| == |t.attachments|
    && forall a :: 0 <= a < |s.attachments| && !s.attachments[a].over ==> !t.attachments[a].over
  }

  function Offer(e: Entry): Step {
    match e.source
    case Client(a) => FromClient(a, e.request)
    case Text => SendText(e.request.stdin)
    case Reply => QueryReply(e.request.stdin)
    case _ => Beat
  }

  lemma OfferIsTaken(s: State, e: Entry)
    requires Offered(s, e) && Room(s)
    ensures var next := Next(s, Offer(e));
            && next.Some? && next.value.channel == s.channel + [e] && next.value.taken == s.taken
            && StaysOpen(s, next.value)
  {
  }

  // The channel never jams: whatever the sources offer, in any order and amount, there is
  // a run in which all of it enters the channel in that order and the writer takes it all.
  lemma {:induction false} EverythingArrives(s: State, offers: seq<Entry>) returns (steps: seq<Step>, t: State)
    requires s.taken <= |s.channel| && forall i :: 0 <= i < |offers| ==> Offered(s, offers[i])
    ensures Runs(s, steps, t) && StaysOpen(s, t)
    ensures t.channel == s.channel + offers && t.taken == |t.channel|
    decreases |offers|, |s.channel| - s.taken
  {
    hide Room;
    if s.taken < |s.channel| {
      steps, t := EverythingArrives(Next(s, WriterTakes).value, offers);
      steps := [WriterTakes] + steps;
    } else if offers == [] {
      steps, t := [], s;
    } else {
      OfferIsTaken(s, offers[0]) by { RoomWhenDrained(s); }
      var next := Next(s, Offer(offers[0])).value;
      steps, t := EverythingArrives(next, offers[1..]);
      steps := [Offer(offers[0])] + steps;
      assert s.channel + offers == (s.channel + [offers[0]]) + offers[1..];
    }
  }

  lemma RoomWhenDrained(s: State)
    requires s.taken == |s.channel|
    ensures Room(s)
  {}

  // An attachment is over as soon as its client asks for the end of its input, speaks
  // another version or asks for an impossible size; nothing of that enters the channel.
  lemma DetachingEndsAttachment(s: State, a: nat, r: Request)
    requires a < |s.attachments| && !s.attachments[a].over
    requires r.version != 3 || r.eof || (r.rows > 200 && r.cols > 0) || (r.rows > 0 && r.cols > 500)
    ensures var next := Next(s, FromClient(a, r));
            && next.Some? && next.value.channel == s.channel && next.value.attachments[a].over
            && Next(next.value, FromClient(a, r)).None?
  {
  }

  // An attachment opens by asking for its window size, which the channel takes unless 32
  // requests are waiting in it.
  lemma AttachingAsksForSize(s: State, rows: nat, cols: nat)
    requires s.taken <= |s.channel|
    ensures var next := Next(s, Connect(rows, cols));
            && next.Some? && next.value.attachments == s.attachments + [Attachment([], false)]
            && next.value.channel == s.channel
                 + (if |s.channel| - s.taken < 32 then [Entry(Attaching, Request(3, [], false, rows, cols))] else [])
  {
  }
}
