// Events of one forwarded connection and what a channel of them carries.  Both
// forwarding protocols use a half-close (no more data this way) and a full close.
module Channel {
  import opened Common

  datatype Event = Open | Data(bytes: Bytes) | Close(code: nat, half: bool) | Empty

  const HALF := Close(0, true)
  const FULL := Close(0, false)

  // One move of a task: its new state, the event it put on its channel (if any)
  // and whether it took the next event of the other channel.
  datatype Move<P> = Move(peer: P, emits: Option<Event>, takes: bool)

  function Local<P>(p: P): Option<Move<P>> {
    Some(Move(p, None, false))
  }

  // The next event a receiver can take.
  function Head(sent: seq<Event>, got: seq<Event>): Option<Event> {
    if |got| < |sent| then Some(sent[|got|]) else None
  }

  function Add(h: seq<Event>, e: Option<Event>): seq<Event> {
    if e.Some? then h + [e.value] else h
  }

  function Taken<P>(m: Move<P>, head: Option<Event>): Option<Event> {
    if m.takes then head else None
  }

  function Payload(e: Event): Bytes {
    if e.Data? then e.bytes else []
  }

  function DataOf(h: seq<Event>): Bytes {
    if h == [] then [] else DataOf(h[..|h| - 1]) + Payload(h[|h| - 1])
  }

  lemma DataOfSnoc(h: seq<Event>, e: Event)
    ensures DataOf(h + [e]) == DataOf(h) + Payload(e)
  {
    assert (h + [e])[..|h|] == h;
  }

  lemma {:induction false} DataOfPrefix(g: seq<Event>, h: seq<Event>)
    requires g <= h
    ensures DataOf(g) <= DataOf(h)
    decreases |h|
  {
    if |g| == |h| {
      assert g == h;
    } else {
      DataOfPrefix(g, h[..|h| - 1]);
    }
  }

  // data followed by what the event carries.
  function Carry(data: Bytes, e: Option<Event>): Bytes {
    match e
    case Some(Data(b)) => data + b
    case _ => data
  }

  lemma DataOfAdd(h: seq<Event>, e: Option<Event>)
    ensures DataOf(Add(h, e)) == Carry(DataOf(h), e)
  {
    if e.Some? {
      DataOfSnoc(h, e.value);
      assert DataOf(h) + [] == DataOf(h);
    }
  }

  lemma WriteSome(written: Bytes, rest: Bytes, n: nat, data: Bytes)
    requires written + rest == data && n <= |rest|
    ensures (written + rest[..n]) + rest[n..] == data
    ensures rest[n..] == [] ==> written + rest[..n] == data
  {
    assert rest == rest[..n] + rest[n..];
  }

  ghost predicate DataOnly(h: seq<Event>) {
    forall i :: 0 <= i < |h| ==> h[i].Data?
  }

  // Data events, then the half-close if one was sent, then the last close if one was sent.
  ghost predicate Shape(h: seq<Event>, half: bool, end: Option<nat>) {
    var n := |h| - (if half then 1 else 0) - (if end.Some? then 1 else 0);
    && 0 <= n
    && DataOnly(h[..n])
    && (half ==> h[n] == HALF)
    && (end.Some? ==> h[|h| - 1] == Close(end.value, false))
  }

  lemma ShapeNoDataAfterClose(h: seq<Event>, half: bool, end: Option<nat>)
    requires Shape(h, half, end)
    ensures forall i, j :: 0 <= i < j < |h| && h[i].Close? ==> !h[j].Data?
  {
    var n := |h| - (if half then 1 else 0) - (if end.Some? then 1 else 0);
    assert forall k :: 0 <= k < n ==> h[..n][k] == h[k];
  }

  lemma {:induction false} ShapeWithHalf(h: seq<Event>, end: Option<nat>)
    requires Shape(h, true, end)
    ensures exists data ::
      && DataOnly(data) && DataOf(data) == DataOf(h)
      && h == data + [HALF] + (if end.Some? then [Close(end.value, false)] else [])
  {
    hide DataOf, DataOnly;
    var n := |h| - 1 - (if end.Some? then 1 else 0);
    var data := h[..n];
    ShapeSplit(h, end, n);
    DataOfSnoc(data, HALF);
    assert DataOf(data) + [] == DataOf(data);
    if end.Some? {
      DataOfSnoc(data + [HALF], Close(end.value, false));
    }
  }

  lemma {:induction false} ShapeSplit(h: seq<Event>, end: Option<nat>, n: nat)
    requires Shape(h, true, end) && n == |h| - 1 - (if end.Some? then 1 else 0)
    ensures DataOnly(h[..n])
    ensures end.None? ==> h == h[..n] + [HALF] && h == h[..n] + [HALF] + []
    ensures end.Some? ==> h == h[..n] + [HALF] + [Close(end.value, false)]
  {
    hide DataOnly;
  }

  // A receiver that took a half-close last took every data event.
  lemma HalfCloseCarriesAll(got: seq<Event>, sent: seq<Event>, half: bool, end: Option<nat>)
    requires got <= sent && Shape(sent, half, end) && Shape(got, true, None)
    ensures half && DataOf(got) == DataOf(sent)
  {
    var n := |sent| - (if half then 1 else 0) - (if end.Some? then 1 else 0);
    assert forall i :: 0 <= i < n ==> sent[..n][i] == sent[i];
    assert forall i :: 0 <= i < |got| - 1 ==> got[..|got| - 1][i] == sent[i];
    assert got[|got| - 1] == sent[|got| - 1];
    assert |got| == n + 1;
    if end.Some? {
      DataOfSnoc(got, sent[n + 1]);
      assert sent == got + [sent[n + 1]];
    } else {
      assert sent == got;
    }
  }

  // An emission that continues a well-shaped history.
  ghost predicate Continues(half: bool, end: Option<nat>, e: Option<Event>, half': bool, end': Option<nat>) {
    match e
    case None => half' == half && end' == end
    case Some(Data(_)) => !half && end.None? && !half' && end'.None?
    case Some(Close(code, true)) => code == 0 && !half && end.None? && half' && end'.None?
    case Some(Close(code, false)) => end.None? && half' == half && end' == Some(code)
    case _ => false
  }

  lemma ShapeContinues(h: seq<Event>, half: bool, end: Option<nat>, e: Option<Event>, half': bool, end': Option<nat>)
    requires Shape(h, half, end) && Continues(half, end, e, half', end')
    ensures Shape(Add(h, e), half', end')
  {
    if e.Some? {
      var n := |h| - (if half then 1 else 0);
      assert (h + [e.value])[..n] == h[..n];
    }
  }

  // What a receiver takes next from a sender that has not closed for good: data, or the
  // half-close that ends it; and a receiver that took everything took the half-close too.
  lemma {:induction false} NextInShape(sent: seq<Event>, half: bool, got: seq<Event>, gotHalf: bool)
    requires got <= sent && Shape(sent, half, None) && Shape(got, gotHalf, None)
    ensures |got| < |sent| ==> !gotHalf && (sent[|got|].Data? || (half && sent[|got|] == HALF))
    ensures |got| == |sent| ==> gotHalf == half
  {
    var n := |sent| - (if half then 1 else 0);
    assert forall i :: 0 <= i < n ==> sent[..n][i] == sent[i];
    var k := |got| - (if gotHalf then 1 else 0);
    assert forall i :: 0 <= i < k ==> got[..k][i] == got[i] == sent[i];
    assert |got| > 0 ==> got[|got| - 1] == sent[|got| - 1];
  }
}
