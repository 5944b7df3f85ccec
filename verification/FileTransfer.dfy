// Files sent to and from the guest in chunks.
module FileChunks {
  import opened Common

  const LIMIT: nat := 67108864
  const CHUNK: nat := 8192
  const PROTOCOL: nat := 3

  // owner: whether the chunk asks for a user or group, which is not supported.
  datatype Chunk = Chunk(path: string, mode: nat, atomic: bool, data: Bytes, eof: bool, version: nat, owner: bool)

  datatype Error =
    | TooLarge | BadOwner | BadVersion | EndedEarly | AfterEof | Transport | Io | NotRegular

  function DataOf(chunks: seq<Chunk>): Bytes {
    if chunks == [] then [] else DataOf(chunks[..|chunks| - 1]) + chunks[|chunks| - 1].data
  }

  lemma DataSnoc(chunks: seq<Chunk>, c: Chunk)
    ensures DataOf(chunks + [c]) == DataOf(chunks) + c.data
  {
    assert (chunks + [c])[..|chunks|] == chunks;
  }

  lemma NoData()
    ensures DataOf([]) == []
  {
  }

  // A complete stream: labelled once, in pieces of bounded size, ended once.
  ghost predicate Complete(chunks: seq<Chunk>, data: Bytes) {
    && chunks != []
    && (forall i :: 0 <= i < |chunks| ==> chunks[i].eof == (i == |chunks| - 1))
    && (forall i :: 0 <= i < |chunks| ==> chunks[i].version == if i == 0 then PROTOCOL else 0)
    && (forall i :: 0 <= i < |chunks| ==> |chunks[i].data| <= CHUNK && !chunks[i].owner)
    && DataOf(chunks) == data
  }

  ghost predicate Labelled(c: Chunk, first: bool, path: string, mode: nat, atomic: bool) {
    if first then c.path == path && c.mode == mode && c.atomic == atomic && c.version == PROTOCOL
    else c.path == "" && c.mode == 0 && !c.atomic && c.version == 0
  }

  // The client's side of an upload. Data of any permitted size becomes a complete
  // stream whose first chunk alone carries the path, the mode and the atomic flag.
  method PutFile(path: string, data: Bytes, mode: nat, atomic: bool) returns (r: Result<seq<Chunk>, Error>)
    ensures r.Failure? <==> |data| > LIMIT
    ensures r.Success? ==>
              && Complete(r.value, data)
              && (forall i :: 0 <= i < |r.value| ==> Labelled(r.value[i], i == 0, path, mode, atomic))
              && (forall i :: 0 <= i < |r.value| - 1 ==> 0 < |r.value[i].data|)
              && (forall i :: 0 <= i < |r.value| - 2 ==> |r.value[i].data| == 8192)
  {
    hide DataOf;
    if |data| > LIMIT {
      return Failure(TooLarge);
    }
    var chunks: seq<Chunk> := [];
    if data == [] {
      chunks := [Chunk(path, mode, atomic, [], true, PROTOCOL, false)];
      DataSnoc([], chunks[0]);
      assert [] + chunks == chunks;
      NoData();
      return Success(chunks);
    }
    var at := 0;
    NoData();
    while at < |data|
      invariant 0 <= at <= |data| && (at == 0 <==> chunks == [])
      invariant DataOf(chunks) == data[..at]
      invariant forall i :: 0 <= i < |chunks| ==>
                  0 < |chunks[i].data| && (i < |chunks| - 1 || at < |data| ==> |chunks[i].data| == CHUNK)
      invariant forall i :: 0 <= i < |chunks| ==>
                  && Labelled(chunks[i], i == 0, path, mode, atomic)
                  && |chunks[i].data| <= CHUNK && !chunks[i].owner && !chunks[i].eof
    {
      var end := at + Min(CHUNK, |data| - at);
      var first := at == 0;
      var chunk := Chunk(if first then path else "", if first then mode else 0, first && atomic, data[at..end],
                         false, if first then PROTOCOL else 0, false);
      DataSnoc(chunks, chunk);
      assert data[..at] + data[at..end] == data[..end];
      chunks := chunks + [chunk];
      at := end;
    }
    var last := Chunk("", 0, false, [], true, 0, false);
    DataSnoc(chunks, last);
    chunks := chunks + [last];
    r := Success(chunks);
  }

  // What the agent's request stream yields; it is closed after the last arrival.
  datatype Arrival = Message(chunk: Chunk) | Broken

  // The checks on an upload whose data so far is `sofar` and whose next chunk is given:
  // the whole data, or the error that ends it.
  function Accepted(sofar: Bytes, chunk: Chunk, rest: seq<Arrival>): Result<Bytes, Error>
    decreases |rest|
  {
    if chunk.owner then Failure(BadOwner)
    else if |sofar| + |chunk.data| > LIMIT then Failure(TooLarge)
    else if chunk.eof then
      if rest == [] then Success(sofar + chunk.data)
      else Failure(if rest[0].Broken? then Transport else AfterEof)
    else if rest == [] then Failure(EndedEarly)
    else if rest[0].Broken? then Failure(Transport)
    else if rest[0].chunk.version != 0 && rest[0].chunk.version != PROTOCOL then Failure(BadVersion)
    else Accepted(sofar + chunk.data, rest[0].chunk, rest[1..])
  }

  function Messages(chunks: seq<Chunk>): seq<Arrival> {
    if chunks == [] then [] else [Message(chunks[0])] + Messages(chunks[1..])
  }

  lemma {:induction false} DataCons(c: Chunk, chunks: seq<Chunk>)
    ensures DataOf([c] + chunks) == c.data + DataOf(chunks)
  {
    var all := [c] + chunks;
    if chunks == [] {
      assert all[..0] == [] && all == [c];
    } else {
      var front, last := chunks[..|chunks| - 1], chunks[|chunks| - 1];
      assert all[..|all| - 1] == [c] + front;
      DataCons(c, front);
      assert (c.data + DataOf(front)) + last.data == c.data + (DataOf(front) + last.data);
    }
  }

  // Chunks that can stand before the last one.
  ghost predicate Open(sofar: Bytes, chunks: seq<Chunk>) {
    && (forall i :: 0 <= i < |chunks| ==> !chunks[i].eof && !chunks[i].owner)
    && (forall i :: 0 < i < |chunks| ==> chunks[i].version in {0, 3})
    && |sofar| + |DataOf(chunks)| <= LIMIT
  }

  // Open chunks are taken, and the check goes on behind them.
  lemma {:induction false} AcceptedSkips(sofar: Bytes, chunks: seq<Chunk>, next: Chunk, rest: seq<Arrival>)
    requires chunks != [] && Open(sofar, chunks) && next.version in {0, 3}
    ensures Accepted(sofar, chunks[0], Messages(chunks[1..]) + ([Message(next)] + rest)) ==
            Accepted(sofar + DataOf(chunks), next, rest)
    decreases |chunks|
  {
    hide Messages, DataOf;
    var first, more := chunks[0], chunks[1..];
    assert chunks == [first] + more;
    DataCons(first, more);
    AcceptedOnce(sofar, first, more, [Message(next)] + rest);
    if more == [] {
      NoData();
      assert first.data + [] == first.data;
      assert ([Message(next)] + rest)[1..] == rest;
    } else {
      assert forall i :: 0 <= i < |more| ==> more[i] == chunks[i + 1];
      AcceptedSkips(sofar + first.data, more, next, rest);
      assert sofar + (first.data + DataOf(more)) == (sofar + first.data) + DataOf(more);
    }
  }

  lemma {:induction false} AcceptedOnce(sofar: Bytes, first: Chunk, more: seq<Chunk>, rest: seq<Arrival>)
    requires !first.eof && !first.owner && |sofar| + |first.data| <= LIMIT
    requires rest != [] && rest[0].Message? && rest[0].chunk.version in {0, 3}
    requires more != [] ==> more[0].version in {0, 3}
    ensures Accepted(sofar, first, Messages(more) + rest) ==
            if more == [] then Accepted(sofar + first.data, rest[0].chunk, rest[1..])
            else Accepted(sofar + first.data, more[0], Messages(more[1..]) + rest)
  {
    var all := Messages(more) + rest;
    if more == [] {
      assert all == rest;
    } else {
      assert all[0] == Message(more[0]) && all[1..] == Messages(more[1..]) + rest;
    }
  }

  // What an upload whose chunks so far are open ends in, by what comes next.
  lemma {:induction false} UploadErrors(chunks: seq<Chunk>, next: Chunk, rest: seq<Arrival>)
    requires chunks != [] && Open([], chunks)
    ensures Accepted([], chunks[0], Messages(chunks[1..])) == Failure(EndedEarly)
    ensures Accepted([], chunks[0], Messages(chunks[1..]) + ([Broken] + rest)) == Failure(Transport)
    ensures next.version !in {0, 3} ==>
              Accepted([], chunks[0], Messages(chunks[1..]) + ([Message(next)] + rest)) == Failure(BadVersion)
    ensures next.version in {0, 3} ==>
              Accepted([], chunks[0], Messages(chunks[1..]) + ([Message(next)] + rest)) ==
              if next.owner then Failure(BadOwner)
              else if |DataOf(chunks)| + |next.data| > 67108864 then Failure(TooLarge)
              else if next.eof && rest != [] then Failure(if rest[0].Broken? then Transport else AfterEof)
              else Accepted(DataOf(chunks), next, rest)
  {
    hide Messages, DataOf;
    var n := |chunks| - 1;
    assert [] + DataOf(chunks) == DataOf(chunks);
    StopsBehind([], chunks, []);
    StopsBehind([], chunks, [Broken] + rest);
    assert Messages(chunks[1..]) + [] == Messages(chunks[1..]);
    if next.version in {0, 3} {
      AcceptedSkips([], chunks, next, rest);
    } else {
      StopsBehind([], chunks, [Message(next)] + rest);
    }
  }

  lemma {:induction false} StopsBehind(sofar: Bytes, chunks: seq<Chunk>, rest: seq<Arrival>)
    requires chunks != [] && Open(sofar, chunks)
    requires rest != [] && rest[0].Message? ==> rest[0].chunk.version !in {0, 3}
    ensures Accepted(sofar, chunks[0], Messages(chunks[1..]) + rest) ==
            Failure(if rest == [] then EndedEarly else if rest[0].Broken? then Transport else BadVersion)
    decreases |chunks|
  {
    hide DataOf;
    var first, more := chunks[0], chunks[1..];
    assert chunks == [first] + more;
    DataCons(first, more);
    var all := Messages(more) + rest;
    if more == [] {
      assert all == rest;
    } else {
      assert forall i :: 0 <= i < |more| ==> more[i] == chunks[i + 1];
      assert all[0] == Message(more[0]) && all[1..] == Messages(more[1..]) + rest;
      StopsBehind(sofar + first.data, more, rest);
    }
  }

  lemma {:induction false} AcceptedEnd(sofar: Bytes, chunk: Chunk)
    requires !chunk.owner && chunk.eof && |sofar| + |chunk.data| <= LIMIT
    ensures Accepted(sofar, chunk, Messages([])) == Success(sofar + chunk.data)
  {}

  // Open chunks and a last one are accepted.
  lemma {:induction false} CompleteFromHere(sofar: Bytes, chunks: seq<Chunk>)
    requires chunks != []
    requires forall i :: 0 <= i < |chunks| ==> chunks[i].eof == (i == |chunks| - 1) && !chunks[i].owner
    requires forall i :: 0 < i < |chunks| ==> chunks[i].version in {0, 3}
    requires |sofar| + |DataOf(chunks)| <= LIMIT
    ensures Accepted(sofar, chunks[0], Messages(chunks[1..])) == Success(sofar + DataOf(chunks))
  {
    hide Accepted, Messages, DataOf;
    var front, last := chunks[..|chunks| - 1], chunks[|chunks| - 1];
    assert chunks == front + [last];
    DataSnoc(front, last);
    assert sofar + (DataOf(front) + last.data) == (sofar + DataOf(front)) + last.data;
    AcceptedEnd(sofar + DataOf(front), last);
    NoMessages();
    if front == [] {
      NoData();
      assert sofar + DataOf(front) == sofar;
      assert chunks[1..] == [];
    } else {
      AcceptedSkips(sofar, front, last, []);
      MessagesSnoc(front[1..], last);
      TailOf(front, last);
    }
  }

  lemma TailOf(front: seq<Chunk>, last: Chunk)
    requires front != []
    ensures (front + [last])[1..] == front[1..] + [last] && (front + [last])[0] == front[0]
  {}

  lemma NoMessages()
    ensures Messages([]) == []
  {}

  lemma {:induction false} MessagesSnoc(chunks: seq<Chunk>, c: Chunk)
    ensures Messages(chunks + [c]) == Messages(chunks) + ([Message(c)] + [])
  {
    if chunks == [] {
      assert [] + [c] == [c] && [c][1..] == [];
    } else {
      assert (chunks + [c])[1..] == chunks[1..] + [c];
      MessagesSnoc(chunks[1..], c);
    }
  }

  // Every stream the client builds is accepted and reassembles to the data.
  lemma UploadReassembles(chunks: seq<Chunk>, data: Bytes)
    requires Complete(chunks, data) && |data| <= LIMIT
    ensures Accepted([], chunks[0], Messages(chunks[1..])) == Success(data)
  {
    CompleteFromHere([], chunks);
    assert [] + data == data;
  }

  // Nothing less than a whole stream is accepted: every arrival is a chunk in a known
  // version, none asks for an owner, exactly the last one ends the stream, and the result
  // is all their data, within the limit.
  lemma {:induction false} AcceptedIsWhole(sofar: Bytes, chunk: Chunk, rest: seq<Arrival>) returns (chunks: seq<Chunk>)
    requires Accepted(sofar, chunk, rest).Success?
    ensures |chunks| == |rest| + 1 && chunks[0] == chunk
    ensures rest == Messages(chunks[1..])
    ensures forall i :: 0 <= i < |chunks| ==> chunks[i].eof == (i == |chunks| - 1) && !chunks[i].owner
    ensures forall i :: 0 < i < |chunks| ==> chunks[i].version in {0, 3}
    ensures Accepted(sofar, chunk, rest).value == sofar + DataOf(chunks) && |sofar + DataOf(chunks)| <= LIMIT
    decreases |rest|
  {
    if chunk.eof {
      chunks := [chunk];
      DataCons(chunk, []);
      assert chunk.data + DataOf([]) == chunk.data;
      assert [chunk] + [] == [chunk];
    } else {
      var more := AcceptedIsWhole(sofar + chunk.data, rest[0].chunk, rest[1..]);
      chunks := [chunk] + more;
      DataCons(chunk, more);
      assert chunks[1..] == more;
      assert more == [more[0]] + more[1..];
      assert sofar + (chunk.data + DataOf(more)) == (sofar + chunk.data) + DataOf(more);
    }
  }

  // A stream of chunks is accepted exactly when it is whole.
  lemma {:induction false} WholeIsAccepted(chunks: seq<Chunk>, data: Bytes)
    requires chunks != []
    ensures Accepted([], chunks[0], Messages(chunks[1..])) == Success(data) <==>
            && (forall i :: 0 <= i < |chunks| ==> chunks[i].eof == (i == |chunks| - 1) && !chunks[i].owner)
            && (forall i :: 0 < i < |chunks| ==> chunks[i].version in {0, 3})
            && data == DataOf(chunks) && |data| <= 67108864
  {
    hide Accepted, Messages, DataOf;
    assert [] + DataOf(chunks) == DataOf(chunks);
    if Accepted([], chunks[0], Messages(chunks[1..])) == Success(data) {
      var same := AcceptedIsWhole([], chunks[0], Messages(chunks[1..]));
      MessagesInjective(same[1..], chunks[1..]);
      assert same == [same[0]] + same[1..] && chunks == [chunks[0]] + chunks[1..];
    } else if (forall i :: 0 <= i < |chunks| ==> chunks[i].eof == (i == |chunks| - 1) && !chunks[i].owner)
        && (forall i :: 0 < i < |chunks| ==> chunks[i].version in {0, 3})
        && |DataOf(chunks)| <= LIMIT {
      CompleteFromHere([], chunks);
    }
  }

  lemma {:induction false} MessagesInjective(a: seq<Chunk>, b: seq<Chunk>)
    requires Messages(a) == Messages(b)
    ensures a == b
  {
    if a != [] && b != [] {
      var m, n := Messages(a), Messages(b);
      assert m[0] == n[0] && m[1..] == n[1..];
      assert m[1..] == Messages(a[1..]) && n[1..] == Messages(b[1..]);
      MessagesInjective(a[1..], b[1..]);
    }
  }

  // What the client receives of a download.
  datatype Event = Part(chunk: Chunk) | Error(error: Error)

  // The client accepts exactly the whole downloads: only chunks, labelled with the
  // protocol at the first alone, ended by the last alone, within the limit.
  ghost predicate Whole(events: seq<Event>, data: Bytes) {
    && events != []
    && (forall i :: 0 <= i < |events| ==>
          && events[i].Part?
          && events[i].chunk.eof == (i == |events| - 1)
          && events[i].chunk.version == (if i == 0 then PROTOCOL else 0))
    && data == DataOf(Parts(events))
    && |data| <= LIMIT
  }

  // The chunks before the first error.
  function Parts(events: seq<Event>): seq<Chunk> {
    if events == [] then []
    else if events[|events| - 1].Part? then Parts(events[..|events| - 1]) + [events[|events| - 1].chunk]
    else Parts(events[..|events| - 1])
  }

  lemma NoParts()
    ensures DataOf(Parts([])) == []
  {
  }

  lemma PartsSnoc(events: seq<Event>, e: Event)
    requires e.Part?
    ensures Parts(events + [e]) == Parts(events) + [e.chunk]
    ensures DataOf(Parts(events + [e])) == DataOf(Parts(events)) + e.chunk.data
  {
    assert (events + [e])[..|events|] == events;
    DataSnoc(Parts(events), e.chunk);
  }

  lemma {:induction false} PartsPrefix(events: seq<Event>, n: nat)
    requires n <= |events|
    ensures |DataOf(Parts(events[..n]))| <= |DataOf(Parts(events))|
    decreases |events| - n
  {
    if n < |events| {
      var more := events[..n + 1];
      assert more[..|more| - 1] == events[..n];
      if more[n].Part? {
        PartsSnoc(events[..n], more[n]);
        assert events[..n] + [more[n]] == more;
      }
      PartsPrefix(events, n + 1);
    } else {
      assert events[..n] == events;
    }
  }

  // The client's side of a download: success exactly for a whole stream, with its data.
  method CollectFileStream(events: seq<Event>) returns (r: Result<Bytes, Error>)
    ensures r.Success? ==> Whole(events, r.value)
    ensures r.Failure? ==> forall data :: !Whole(events, data)
  {
    hide DataOf, Parts;
    var complete, first := false, true;
    NoParts();
    var data: Bytes := [];
    var n := 0;
    while n < |events|
      invariant 0 <= n <= |events| && first == (n == 0)
      invariant forall i :: 0 <= i < n ==>
                  && events[i].Part?
                  && events[i].chunk.version == (if i == 0 then PROTOCOL else 0)
                  && events[i].chunk.eof == (complete && i == n - 1)
      invariant complete ==> n > 0
      invariant data == DataOf(Parts(events[..n])) && |data| <= LIMIT
    {
      if events[n].Error? {
        return Failure(events[n].error);
      }
      var chunk := events[n].chunk;
      if complete {
        assert events[n - 1].chunk.eof;
        return Failure(AfterEof);
      }
      if first {
        if chunk.version != PROTOCOL {
          return Failure(BadVersion);
        }
        first := false;
      } else if chunk.version != 0 {
        return Failure(BadVersion);
      }
      assert events[..n] + [events[n]] == events[..n + 1];
      PartsSnoc(events[..n], events[n]);
      PartsPrefix(events, n + 1);
      if |data| + |chunk.data| > LIMIT {
        return Failure(TooLarge);
      }
      data := data + chunk.data;
      if chunk.eof {
        complete := true;
      }
      n := n + 1;
    }
    assert events[..n] == events;
    if !complete {
      assert n > 0 ==> !events[n - 1].chunk.eof;
      return Failure(EndedEarly);
    }
    r := Success(data);
  }

  // How reading the file ends.
  datatype Ending = AtEof | ReadFails

  function Label(path: string, mode: nat, first: bool, data: Bytes, eof: bool): Event {
    Part(Chunk(if first then path else "", if first then mode else 0, false, data, eof,
               if first then PROTOCOL else 0, false))
  }

  // What the agent sends for a file that is read in these pieces, when `total` bytes
  // were sent before.
  function Download(path: string, mode: nat, first: bool, total: nat, pieces: seq<Bytes>, ending: Ending): seq<Event>
    decreases |pieces|
  {
    if pieces == [] then
      [if ending.AtEof? then Label(path, mode, first, [], true) else Error(Io)]
    else if total + |pieces[0]| > LIMIT then [Error(TooLarge)]
    else
      [Label(path, mode, first, pieces[0], false)]
      + Download(path, mode, false, total + |pieces[0]|, pieces[1..], ending)
  }

  lemma DownloadAt(path: string, mode: nat, first: bool, total: nat, pieces: seq<Bytes>, ending: Ending, n: nat)
    requires n <= |pieces|
    ensures Download(path, mode, first, total, pieces[n..], ending) ==
            if n == |pieces| then [if ending.AtEof? then Label(path, mode, first, [], true) else Error(Io)]
            else if total + |pieces[n]| > LIMIT then [Error(TooLarge)]
            else [Label(path, mode, first, pieces[n], false)]
                 + Download(path, mode, false, total + |pieces[n]|, pieces[n + 1..], ending)
  {
    if n < |pieces| {
      assert pieces[n..][1..] == pieces[n + 1..];
    }
  }

  // What a receiver gets that takes this many events.
  function Cut(all: seq<Event>, taken: nat): seq<Event> {
    all[..Min(taken, |all|)]
  }

  lemma CutBehind(events: seq<Event>, rest: seq<Event>, taken: nat)
    requires |events| <= taken
    ensures |events| == taken ==> Cut(events + rest, taken) == events
    ensures |events + rest| <= taken ==> Cut(events + rest, taken) == events + rest
  {}

  lemma EventGoesOn(events: seq<Event>, event: Event, rest: seq<Event>)
    ensures events + ([event] + rest) == (events + [event]) + rest
  {}

  // The agent's side of a download; the receiver takes the first `taken` events.
  method ReadFile(path: string, regular: Result<nat, Error>, pieces: seq<Bytes>, ending: Ending, taken: nat)
    returns (events: seq<Event>)
    ensures var all := if regular.Failure? then [Error(regular.error)]
                       else Download(path, regular.value, true, 0, pieces, ending);
            events == Cut(all, taken)
  {
    hide Download, Label, Cut;
    events := [];
    if regular.Failure? {
      CutBehind([], [Error(regular.error)], taken);
      assert [] + [Error(regular.error)] == [Error(regular.error)];
      if taken > 0 {
        events := [Error(regular.error)];
      }
      return;
    }
    var first, total: nat, n := true, 0, 0;
    ghost var all := Download(path, regular.value, true, 0, pieces, ending);
    while true
      invariant 0 <= n <= |pieces| && |events| <= taken && first == (n == 0)
      invariant all == events + Download(path, regular.value, first, total, pieces[n..], ending)
      decreases |pieces| - n
    {
      DownloadAt(path, regular.value, first, total, pieces, ending, n);
      var last := n == |pieces| || total + |pieces[n]| > LIMIT;
      var event := if n == |pieces| then (if ending.AtEof? then Label(path, regular.value, first, [], true) else Error(Io))
                   else if last then Error(TooLarge)
                   else Label(path, regular.value, first, pieces[n], false);
      CutBehind(events, Download(path, regular.value, first, total, pieces[n..], ending), taken);
      if |events| == taken {
        return;
      }
      if last {
        events := events + [event];
        return;
      }
      ghost var rest := Download(path, regular.value, false, total + |pieces[n]|, pieces[n + 1..], ending);
      EventGoesOn(events, event, rest);
      events := events + [event];
      total := total + |pieces[n]|;
      first := false;
      n := n + 1;
    }
  }

  // The contents of a file read in pieces.
  function Joined(pieces: seq<Bytes>): Bytes {
    if pieces == [] then [] else pieces[0] + Joined(pieces[1..])
  }

  lemma {:induction false} PartsCons(e: Event, events: seq<Event>)
    requires e.Part?
    ensures Parts([e] + events) == [e.chunk] + Parts(events)
  {
    var all := [e] + events;
    if events == [] {
      assert all == [e] && all[..0] == [];
    } else {
      assert all[..|all| - 1] == [e] + events[..|events| - 1];
      PartsCons(e, events[..|events| - 1]);
    }
  }

  ghost predicate Fits(total: nat, pieces: seq<Bytes>, ending: Ending) {
    ending.AtEof? && total + |Joined(pieces)| <= LIMIT
  }

  // Every event but the last is data; the last is the end when the file fits and was
  // read to its end, and an error otherwise.
  lemma {:induction false} DownloadShape(path: string, mode: nat, first: bool, total: nat, pieces: seq<Bytes>,
                                         ending: Ending)
    requires total <= LIMIT
    ensures var all := Download(path, mode, first, total, pieces, ending);
            && all != []
            && (forall i :: 0 <= i < |all| - 1 ==> all[i].Part? && !all[i].chunk.eof)
            && (all[|all| - 1].Part? <==> Fits(total, pieces, ending))
            && (forall i :: 0 <= i < |all| && all[i].Part? ==>
                  var chunk := all[i].chunk;
                  if first && i == 0 then chunk.version == PROTOCOL && chunk.path == path && chunk.mode == mode
                  else chunk.version == 0 && chunk.path == "" && chunk.mode == 0)
    decreases |pieces|
  {
    if pieces != [] && total + |pieces[0]| <= LIMIT {
      var rest := Download(path, mode, false, total + |pieces[0]|, pieces[1..], ending);
      DownloadShape(path, mode, false, total + |pieces[0]|, pieces[1..], ending);
      var all := Download(path, mode, first, total, pieces, ending);
      assert all == [Label(path, mode, first, pieces[0], false)] + rest;
      assert forall i :: 0 < i < |all| ==> all[i] == rest[i - 1];
    }
  }

  lemma {:induction false} DownloadEnd(path: string, mode: nat, first: bool, total: nat, pieces: seq<Bytes>,
                                       ending: Ending)
    requires Fits(total, pieces, ending)
    ensures var all := Download(path, mode, first, total, pieces, ending);
            all != [] && all[|all| - 1].Part? && all[|all| - 1].chunk.eof && DataOf(Parts(all)) == Joined(pieces)
    decreases |pieces|
  {
    var all := Download(path, mode, first, total, pieces, ending);
    if pieces == [] {
      PartsCons(all[0], []);
      assert [all[0]] + [] == all;
      DataCons(all[0].chunk, []);
      assert [all[0].chunk] + [] == [all[0].chunk];
    } else {
      var rest := Download(path, mode, false, total + |pieces[0]|, pieces[1..], ending);
      DownloadEnd(path, mode, false, total + |pieces[0]|, pieces[1..], ending);
      assert all == [all[0]] + rest;
      PartsCons(all[0], rest);
      DataCons(all[0].chunk, Parts(rest));
    }
  }

  // A download is accepted exactly when the file could be read to its end and is within
  // the limit, however the reads cut it, and then it is the file; a download that is cut
  // short is never accepted.
  lemma {:induction false} DownloadIsTheFile(path: string, mode: nat, pieces: seq<Bytes>, ending: Ending)
    ensures var all := Download(path, mode, true, 0, pieces, ending);
            && (forall data :: Whole(all, data) <==>
                  ending.AtEof? && |Joined(pieces)| <= LIMIT && data == Joined(pieces))
            && (forall k, data :: 0 <= k < |all| ==> !Whole(all[..k], data))
  {
    hide Download, Joined, Parts, DataOf;
    var all := Download(path, mode, true, 0, pieces, ending);
    DownloadShape(path, mode, true, 0, pieces, ending);
    if Fits(0, pieces, ending) {
      DownloadEnd(path, mode, true, 0, pieces, ending);
    }
    forall k, data | 0 <= k < |all| ensures !Whole(all[..k], data) {
      if k > 0 {
        assert all[..k][k - 1] == all[k - 1];
      }
    }
  }
}
