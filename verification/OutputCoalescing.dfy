// Sending a process's output in pieces: short reads of a terminal are gathered for a
// moment before they are sent.
module OutputCoalescing {
  import opened Common

  const BUFFER: nat := 8192
  const COALESCE: nat := 1024

  // What the next wait for output brings. Data without bytes is the end of the stream;
  // the timer counts only while gathering.
  datatype Turn = Data(data: Bytes) | Gone | Fault | Timer

  datatype Reading = Read(data: Bytes) | PtyGone | ReadFault | Deadline

  // The bytes before the end or the first error.
  function Content(turns: seq<Turn>): Bytes {
    if turns == [] then []
    else
      match turns[0]
      case Timer => Content(turns[1..])
      case Data(data) => if data == [] then [] else data + Content(turns[1..])
      case _ => []
  }

  // How reading comes to its end.
  datatype Finish = Drained | Vanished | Faulted

  function Conclusion(turns: seq<Turn>): Finish {
    if turns == [] then Drained
    else
      match turns[0]
      case Data(data) => if data == [] then Drained else Conclusion(turns[1..])
      case Gone => Vanished
      case Fault => Faulted
      case _ => Conclusion(turns[1..])
  }

  function Size(turns: seq<Turn>): nat {
    if turns == [] then 0
    else 1 + (if turns[0].Data? then |turns[0].data| else 0) + Size(turns[1..])
  }

  // How often the gathering deadline passes.
  function Timers(turns: seq<Turn>): nat {
    if turns == [] then 0 else (if turns[0].Timer? then 1 else 0) + Timers(turns[1..])
  }

  // Payloads a terminal could have gathered more for.
  function Short(payloads: seq<Bytes>): nat {
    if payloads == [] then 0
    else Short(payloads[..|payloads| - 1]) + (if |payloads[|payloads| - 1]| < COALESCE then 1 else 0)
  }

  class Reader {
    var turns: seq<Turn>
    ghost var taken: Bytes

    constructor (turns: seq<Turn>)
      ensures this.turns == turns && taken == []
    {
      this.turns := turns;
      taken := [];
    }

    // Everything that is or can still be read.
    ghost function Whole(): Bytes
      reads this
    {
      taken + Content(turns)
    }

    // A read of at most `space` bytes; longer data is left for the next one.
    method Await(space: nat, timed: bool) returns (r: Reading)
      requires space > 0
      modifies this
      ensures r.Read? ==>
                && |r.data| <= space && taken == old(taken) + r.data
                && (r.data != [] ==> Whole() == old(Whole()) && Conclusion(turns) == old(Conclusion(turns)))
                && (r.data == [] ==> taken == old(Whole()) && old(Conclusion(turns)).Drained?)
      ensures r.PtyGone? || r.ReadFault? ==> taken == old(taken) == old(Whole())
      ensures r.PtyGone? ==> old(Conclusion(turns)).Vanished?
      ensures r.ReadFault? ==> old(Conclusion(turns)).Faulted?
      ensures r.Deadline? ==>
                timed && taken == old(taken) && Whole() == old(Whole()) && Conclusion(turns) == old(Conclusion(turns))
      ensures Timers(turns) <= old(Timers(turns)) && (r.Deadline? ==> Timers(turns) < old(Timers(turns)))
      ensures Size(turns) <= old(Size(turns))
      ensures Size(turns) < old(Size(turns)) || r == Read([])
    {
      while turns != [] && turns[0].Timer? && !timed
        invariant Timers(turns) <= old(Timers(turns))
        invariant taken == old(taken) && Content(turns) == old(Content(turns)) && Size(turns) <= old(Size(turns))
        invariant Conclusion(turns) == old(Conclusion(turns))
        decreases |turns|
      {
        turns := turns[1..];
      }
      if turns == [] {
        return Read([]);
      }
      var next, rest := turns[0], turns[1..];
      match next
      case Timer =>
        turns := rest;
        return Deadline;
      case Gone =>
        turns := rest;
        return PtyGone;
      case Fault =>
        turns := rest;
        return ReadFault;
      case Data(data) =>
        if |data| <= space {
          turns := rest;
          taken := taken + data;
          return Read(data);
        }
        turns := [Data(data[space..])] + rest;
        assert turns[1..] == rest;
        assert data == data[..space] + data[space..];
        taken := taken + data[..space];
        return Read(data[..space]);
    }
  }

  // How sending ended: everything was read, reading failed, or nobody takes the output.
  datatype Ending = AtEnd | ReadFailed | NotTaken

  // Copies data into the buffer behind the bytes it holds.
  method Fill(buffer: array<byte>, size: nat, data: Bytes)
    requires size + |data| <= buffer.Length
    modifies buffer
    ensures buffer[..size + |data|] == old(buffer[..size]) + data
  {
    forall i | 0 <= i < |data| {
      buffer[size + i] := data[i];
    }
    assert forall i :: 0 <= i < size ==> buffer[i] == old(buffer[i]);
    assert forall i :: 0 <= i < |data| ==> buffer[size + i] == data[i];
    assert buffer[..size + |data|] == buffer[..size] + buffer[size..size + |data|];
    assert buffer[size..size + |data|] == data;
    assert buffer[..size] == old(buffer[..size]);
  }

  // Gathers more output behind a short first read until there is enough of it, the
  // deadline passes, or the stream ends or fails.
  method Gather(reader: Reader, buffer: array<byte>, first: nat)
    returns (size: nat, eof: bool, failed: bool, ghost more: Bytes)
    requires buffer.Length == BUFFER && 0 < first < COALESCE
    modifies reader, buffer
    ensures first <= size <= BUFFER
    ensures buffer[..size] == old(buffer[..first]) + more && reader.taken == old(reader.taken) + more
    ensures if eof || failed then reader.taken == old(reader.Whole()) else reader.Whole() == old(reader.Whole())
    ensures !(eof && failed) && (failed ==> size < COALESCE)
    ensures eof || failed ==> failed == old(Conclusion(reader.turns)).Faulted?
    ensures !eof && !failed ==> Conclusion(reader.turns) == old(Conclusion(reader.turns))
    ensures Timers(reader.turns) <= old(Timers(reader.turns))
    ensures size < COALESCE ==> eof || failed || Timers(reader.turns) < old(Timers(reader.turns))
    ensures Size(reader.turns) <= old(Size(reader.turns))
  {
    size, eof, failed, more := first, false, false, [];
    while size < COALESCE
      invariant first <= size <= BUFFER
      invariant buffer[..size] == old(buffer[..first]) + more && reader.taken == old(reader.taken) + more
      invariant reader.Whole() == old(reader.Whole())
      invariant Conclusion(reader.turns) == old(Conclusion(reader.turns))
      invariant Size(reader.turns) <= old(Size(reader.turns)) && Timers(reader.turns) <= old(Timers(reader.turns))
      decreases Size(reader.turns)
    {
      var read := reader.Await(BUFFER - size, true);
      match read {
        case Deadline =>
          break;
        case Read(data) =>
          if data == [] {
            eof := true;
            break;
          }
          Fill(buffer, size, data);
          more := more + data;
          size := size + |data|;
        case PtyGone =>
          eof := true;
          break;
        case ReadFault =>
          failed := true;
          break;
      }
    }
  }

  // The end of a pipe and, for a terminal, also its disappearance are no errors.
  predicate EndsWell(finish: Finish, pty: bool) {
    finish.Drained? || (finish.Vanished? && pty)
  }

  // What one round of reading yields: bytes in the buffer and whether they are the last
  // ones, the end of the stream, or an error with the bytes it loses.
  datatype Round = Payload(size: nat, eof: bool) | Ended | Failed(gathered: nat)

  method ReadRound(reader: Reader, buffer: array<byte>, pty: bool) returns (r: Round)
    requires buffer.Length == BUFFER
    modifies reader, buffer
    ensures r.Payload? ==>
              && 0 < r.size <= BUFFER && reader.taken == old(reader.taken) + buffer[..r.size]
              && (if r.eof then reader.taken == old(reader.Whole()) else reader.Whole() == old(reader.Whole()))
    ensures r.Ended? ==> reader.taken == old(reader.taken) == old(reader.Whole())
    ensures r.Failed? ==>
              && r.gathered < COALESCE && (!pty ==> r.gathered == 0)
              && reader.taken == old(reader.taken) + buffer[..r.gathered] == old(reader.Whole())
    ensures r.Ended? || (r.Payload? && r.eof) ==> EndsWell(old(Conclusion(reader.turns)), pty)
    ensures r.Failed? ==> !EndsWell(old(Conclusion(reader.turns)), pty)
    ensures r.Payload? && !r.eof ==> Conclusion(reader.turns) == old(Conclusion(reader.turns))
    ensures r.Payload? ==> Size(reader.turns) < old(Size(reader.turns))
    ensures Timers(reader.turns) <= old(Timers(reader.turns))
    ensures r.Payload? && pty && r.size < COALESCE ==> r.eof || Timers(reader.turns) < old(Timers(reader.turns))
  {
    hide Content, Size, Timers, Conclusion;
    var start := reader.Await(BUFFER, false);
    if start.PtyGone? || start.ReadFault? {
      assert buffer[..0] == [];
      return if start.PtyGone? && pty then Ended else Failed(0);
    }
    if start.data == [] {
      return Ended;
    }
    Fill(buffer, 0, start.data);
    var size := |start.data|;
    assert buffer[..size] == start.data;
    if pty && size < COALESCE {
      var gathered, eof, failed;
      ghost var more;
      gathered, eof, failed, more := Gather(reader, buffer, size);
      assert buffer[..gathered] == start.data + more;
      assert old(reader.taken) + start.data + more == old(reader.taken) + (start.data + more);
      return if failed then Failed(gathered) else Payload(gathered, eof);
    }
    r := Payload(size, false);
  }

  lemma Nothing()
    ensures Flatten<byte>([]) == [] && Short([]) == 0
  {
  }

  lemma Onward(start: Bytes, payloads: seq<Bytes>, payload: Bytes)
    ensures start + Flatten(payloads + [payload]) == start + Flatten(payloads) + payload
    ensures Short(payloads + [payload]) == Short(payloads) + (if |payload| < COALESCE then 1 else 0)
  {
    FlattenSnoc(payloads, payload);
    assert (payloads + [payload])[..|payloads|] == payloads;
    assert start + (Flatten(payloads) + payload) == (start + Flatten(payloads)) + payload;
  }

  predicate Sized(payloads: seq<Bytes>) {
    forall i :: 0 <= i < |payloads| ==> 0 < |payloads[i]| <= BUFFER
  }

  // For every schedule of reads, deadlines and errors the payloads are, in order, what
  // was read, each of 1 to 8192 bytes. At the end of the stream nothing is missing; a
  // read error can lose the bytes just being gathered, fewer than 1024 of a terminal and
  // none otherwise; and when the receiver goes away, one payload. A terminal's payload is
  // shorter than 1024 bytes only when a deadline passed or the stream ended. Unless the
  // receiver goes away it ends as reading does: a terminal that is gone is no error.
  method SendOutput(reader: Reader, pty: bool, accepted: nat)
    returns (payloads: seq<Bytes>, ending: Ending, ghost lost: Bytes)
    modifies reader
    ensures Sized(payloads)
    ensures reader.taken == old(reader.taken) + Flatten(payloads) + lost
    ensures ending.AtEnd? ==> lost == []
    ensures ending.ReadFailed? ==> |lost| < COALESCE && (!pty ==> lost == [])
    ensures ending.NotTaken? ==> 0 < |lost| <= BUFFER && |payloads| == accepted
    ensures !ending.NotTaken? ==> reader.taken == old(reader.Whole())
    ensures !ending.NotTaken? ==>
              |payloads| <= accepted
              && ending == if EndsWell(old(Conclusion(reader.turns)), pty) then AtEnd else ReadFailed
    ensures pty ==> Short(payloads) + Timers(reader.turns) <= old(Timers(reader.turns)) + (if ending.AtEnd? then 1 else 0)
  {
    hide Flatten, Content, Size, Timers, Short, Conclusion;
    Nothing();
    payloads := [];
    lost := [];
    var buffer := new byte[BUFFER];
    while true
      invariant Sized(payloads) && |payloads| <= accepted
      invariant reader.taken == old(reader.taken) + Flatten(payloads)
      invariant reader.Whole() == old(reader.Whole())
      invariant Conclusion(reader.turns) == old(Conclusion(reader.turns))
      invariant Timers(reader.turns) <= old(Timers(reader.turns))
      invariant pty ==> Short(payloads) + Timers(reader.turns) <= old(Timers(reader.turns))
      decreases Size(reader.turns)
    {
      var round := ReadRound(reader, buffer, pty);
      match round {
        case Ended =>
          return payloads, AtEnd, [];
        case Failed(gathered) =>
          return payloads, ReadFailed, buffer[..gathered];
        case Payload(size, eof) =>
          var payload := buffer[..size];
          if |payloads| == accepted {
            return payloads, NotTaken, payload;
          }
          Onward(old(reader.taken), payloads, payload);
          payloads := payloads + [payload];
          if eof {
            return payloads, AtEnd, [];
          }
      }
    }
  }
}
