// Receiving an upload into a temporary file beside its destination and putting it in
// place when it is complete.
module Uploads {
  import opened Common
  import opened FileChunks
  import Decimal

  // A path as its directory part and its last component, if it has one.
  datatype Path = Path(dir: string, name: Option<string>)

  datatype File = File(data: Bytes, mode: nat)

  const PRIVATE: nat := 384 // rw-------

  // The nine permission bits.
  function SafeMode(mode: nat): (r: nat)
    ensures r < 512 && exists rest: nat :: mode == 512 * rest + r
  {
    assert mode == 512 * (mode / 512) + mode % 512;
    mode % 512
  }

  const MARK := ".pbox-upload-"

  // The temporary file of the upload with this number, in the destination's directory.
  function TemporaryPath(destination: Path, pid: nat, id: nat): Path {
    var name := if destination.name.Some? then destination.name.value else "upload";
    Path(destination.dir, Some("." + name + MARK + Decimal.Print(pid) + "-" + Decimal.Print(id)))
  }

  // A digit string after a last '-' can be cut off in one way only.
  lemma {:induction false} CutAtDash(a: string, b: string, x: string, y: string)
    requires Decimal.AllDigits(x) && Decimal.AllDigits(y)
    requires a + "-" + x == b + "-" + y
    ensures x == y
  {
    var s, t := a + "-" + x, b + "-" + y;
    assert s[|a|] == '-' && t[|b|] == '-';
    assert forall k :: |a| < k < |s| ==> s[k] == x[k - |a| - 1] && s[k] != '-';
    assert forall k :: |b| < k < |t| ==> t[k] == y[k - |b| - 1] && t[k] != '-';
    assert x == s[|s| - |x|..] && y == t[|t| - |y|..];
  }

  // Two uploads of one agent never share a temporary file, whatever their destinations.
  lemma {:induction false} TemporaryPathsDiffer(p: Path, q: Path, pid: nat, i: nat, j: nat)
    requires i != j
    ensures TemporaryPath(p, pid, i) != TemporaryPath(q, pid, j)
  {
    Decimal.ValuePrint(i);
    Decimal.ValuePrint(j);
    if TemporaryPath(p, pid, i) == TemporaryPath(q, pid, j) {
      var a := "." + (if p.name.Some? then p.name.value else "upload") + MARK + Decimal.Print(pid);
      var b := "." + (if q.name.Some? then q.name.value else "upload") + MARK + Decimal.Print(pid);
      CutAtDash(a, b, Decimal.Print(i), Decimal.Print(j));
    }
  }

  // It is another file of the same directory, so that a rename can put it in place.
  lemma TemporaryIsNotDestination(p: Path, pid: nat, id: nat)
    ensures TemporaryPath(p, pid, id) != p && TemporaryPath(p, pid, id).dir == p.dir
  {
    if p.name.Some? {
      assert |TemporaryPath(p, pid, id).name.value| > |p.name.value|;
    }
  }

  // The file system. Any call may fail; a failing write may have written a part. It
  // remembers how many calls failed and which files could not be removed.
  class FileSystem {
    var files: map<Path, File>
    ghost var faults: nat
    ghost var unremoved: set<Path>

    constructor (files: map<Path, File>)
      ensures this.files == files && faults == 0 && unremoved == {}
    {
      this.files := files;
      faults := 0;
      unremoved := {};
    }

    method CreateNew(path: Path) returns (ok: bool)
      modifies this
      ensures unremoved == old(unremoved) && faults == old(faults) + (if ok then 0 else 1)
      ensures ok ==> path !in old(files) && files == old(files)[path := File([], PRIVATE)]
      ensures !ok ==> files == old(files)
    {
      ok := *;
      if path in files || !ok {
        faults := faults + 1;
        return false;
      }
      files := files[path := File([], PRIVATE)];
    }

    method Append(path: Path, data: Bytes) returns (ok: bool)
      requires path in files
      modifies this
      ensures unremoved == old(unremoved) && faults == old(faults) + (if ok then 0 else 1)
      ensures exists n :: 0 <= n <= |data| && (ok ==> n == |data|)
                && files == old(files)[path := File(old(files)[path].data + data[..n], old(files)[path].mode)]
    {
      ok := *;
      faults := faults + (if ok then 0 else 1);
      var n: nat :| n <= |data| && (ok ==> n == |data|);
      files := files[path := File(files[path].data + data[..n], files[path].mode)];
    }

    method Flush() returns (ok: bool)
      modifies this
      ensures unremoved == old(unremoved) && faults == old(faults) + (if ok then 0 else 1)
      ensures files == old(files)
    {
      ok := *;
      faults := faults + (if ok then 0 else 1);
    }

    method SetMode(path: Path, mode: nat) returns (ok: bool)
      requires path in files
      modifies this
      ensures unremoved == old(unremoved) && faults == old(faults) + (if ok then 0 else 1)
      ensures files == if ok then old(files)[path := File(old(files)[path].data, mode)] else old(files)
    {
      ok := *;
      faults := faults + (if ok then 0 else 1);
      if ok {
        files := files[path := File(files[path].data, mode)];
      }
    }

    method Rename(from: Path, to: Path) returns (ok: bool)
      requires from in files
      modifies this
      ensures unremoved == old(unremoved) && faults == old(faults) + (if ok then 0 else 1)
      ensures files == if ok then (old(files) - {from})[to := old(files)[from]] else old(files)
    {
      ok := *;
      faults := faults + (if ok then 0 else 1);
      if ok {
        files := (files - {from})[to := files[from]];
      }
    }

    // Opening for writing empties the file or makes an empty one with some mode.
    method OpenEmpty(path: Path) returns (ok: bool)
      modifies this
      ensures unremoved == old(unremoved) && faults == old(faults) + (if ok then 0 else 1)
      ensures !ok ==> files == old(files)
      ensures ok ==> exists mode: nat :: files == old(files)[path := File([], mode)]
    {
      ok := *;
      faults := faults + (if ok then 0 else 1);
      if ok {
        var mode: nat :| mode < 512;
        files := files[path := File([], mode)];
      }
    }

    method Remove(path: Path) returns (ok: bool)
      modifies this
      ensures faults == old(faults) + (if ok then 0 else 1)
      ensures unremoved == if ok then old(unremoved) else old(unremoved) + {path}
      ensures files == if ok then old(files) - {path} else old(files)
    {
      ok := *;
      if ok {
        files := files - {path};
      } else {
        faults := faults + 1;
        unremoved := unremoved + {path};
      }
    }
  }

  datatype Receipt = Receipt(size: nat, hashed: Bytes)

  // The data of an upload goes to the temporary file.
  method ReceiveData(fs: FileSystem, first: Chunk, rest: seq<Arrival>, temporary: Path)
    returns (r: Result<Bytes, Error>)
    requires temporary in fs.files && fs.files[temporary] == File([], PRIVATE)
    modifies fs
    ensures temporary in fs.files
    ensures forall p :: p != temporary ==> (p in fs.files <==> p in old(fs.files))
    ensures forall p :: p != temporary && p in fs.files ==> fs.files[p] == old(fs.files)[p]
    ensures r.Success? ==> r == Accepted([], first, rest) && fs.files[temporary] == File(r.value, PRIVATE)
    ensures fs.faults == old(fs.faults) ==> r == Accepted([], first, rest)
    ensures fs.faults > old(fs.faults) ==> r == Failure(Io)
    ensures fs.faults >= old(fs.faults) && fs.unremoved == old(fs.unremoved)
  {
    ghost var before := fs.files;
    var data: Bytes := [];
    var chunk, n := first, 0;
    while true
      invariant 0 <= n <= |rest|
      invariant fs.faults == old(fs.faults) && fs.unremoved == old(fs.unremoved)
      invariant fs.files == before[temporary := File(data, PRIVATE)]
      invariant Accepted([], first, rest) == Accepted(data, chunk, rest[n..])
      decreases |rest| - n
    {
      if chunk.owner {
        return Failure(BadOwner);
      }
      if |chunk.data| > LIMIT - |data| {
        return Failure(TooLarge);
      }
      var ok := fs.Append(temporary, chunk.data);
      if !ok {
        return Failure(Io);
      }
      assert chunk.data[..|chunk.data|] == chunk.data;
      var last := chunk.eof;
      data := data + chunk.data;
      if last {
        break;
      }
      if n == |rest| {
        return Failure(EndedEarly);
      }
      if rest[n].Broken? {
        return Failure(Transport);
      }
      if rest[n].chunk.version != 0 && rest[n].chunk.version != PROTOCOL {
        return Failure(BadVersion);
      }
      assert rest[n..][1..] == rest[n + 1..];
      chunk := rest[n].chunk;
      n := n + 1;
    }
    if n < |rest| {
      return Failure(if rest[n].Broken? then Transport else AfterEof);
    }
    return Success(data);
  }

  ghost predicate SameExcept(now: map<Path, File>, before: map<Path, File>, except: set<Path>) {
    forall p :: p !in except ==> (p in now <==> p in before) && (p in now ==> now[p] == before[p])
  }

  // A complete temporary file becomes the destination: by renaming it, or by copying it
  // over and removing it.
  method Place(fs: FileSystem, first: Chunk, temporary: Path, destination: Path, ghost data: Bytes) returns (ok: bool)
    requires temporary != destination
    requires temporary in fs.files && fs.files[temporary] == File(data, PRIVATE)
    modifies fs
    ensures SameExcept(fs.files, old(fs.files), {temporary, destination})
    ensures ok ==>
              && temporary !in fs.files && destination in fs.files && fs.files[destination].data == data
              && (first.mode != 0 ==> fs.files[destination].mode == SafeMode(first.mode))
              && (first.mode == 0 && first.atomic ==> fs.files[destination].mode == PRIVATE)
    ensures !ok && first.atomic ==> SameExcept(fs.files, old(fs.files), {temporary})
    ensures if ok then fs.faults == old(fs.faults) else fs.faults > old(fs.faults)
    ensures fs.unremoved <= old(fs.unremoved) + {temporary}
  {
    ok := fs.Flush();
    if !ok {
      return false;
    }
    if first.mode != 0 {
      ok := fs.SetMode(temporary, SafeMode(first.mode));
      if !ok {
        return false;
      }
    }
    if first.atomic {
      ok := fs.Rename(temporary, destination);
      return;
    }
    ok := fs.OpenEmpty(destination);
    if !ok {
      return false;
    }
    ok := fs.Append(destination, fs.files[temporary].data);
    if !ok {
      return false;
    }
    assert [] + data[..|data|] == data;
    if first.mode != 0 {
      ok := fs.SetMode(destination, SafeMode(first.mode));
      if !ok {
        return false;
      }
    }
    ok := fs.Remove(temporary);
  }

  // One upload, whatever the stream holds and whichever file system calls fail. Success
  // means the destination holds exactly the accepted data; an atomic upload that fails
  // leaves the destination as it was; the temporary file is gone unless removing it
  // failed; and the upload succeeds exactly when its stream is accepted and no call to the
  // file system fails.
  method ReceiveUpload(fs: FileSystem, first: Chunk, rest: seq<Arrival>, temporary: Path, destination: Path)
    returns (r: Result<Receipt, Error>)
    requires temporary != destination
    modifies fs
    ensures SameExcept(fs.files, old(fs.files), {temporary, destination})
    ensures r.Success? ==>
              && Accepted([], first, rest).Success?
              && var data := Accepted([], first, rest).value;
              && r.value == Receipt(|data|, data)
              && destination in fs.files && fs.files[destination].data == data
              && (first.mode != 0 ==> fs.files[destination].mode == SafeMode(first.mode))
              && (first.mode == 0 && first.atomic ==> fs.files[destination].mode == PRIVATE)
              && temporary !in fs.files
    ensures r.Failure? && first.atomic ==> SameExcept(fs.files, old(fs.files), {temporary})
    ensures r.Failure? && temporary in fs.files ==> temporary in old(fs.files) || temporary in fs.unremoved
    ensures r.Success? <==> Accepted([], first, rest).Success? && fs.faults == old(fs.faults)
    ensures r.Failure? ==>
              (r.error == Io && fs.faults > old(fs.faults)) || Accepted([], first, rest) == Failure(r.error)
  {
    var created := fs.CreateNew(temporary);
    if !created {
      return Failure(Io);
    }
    var received := ReceiveData(fs, first, rest, temporary);
    if received.Success? {
      var placed := Place(fs, first, temporary, destination, received.value);
      if placed {
        return Success(Receipt(|received.value|, received.value));
      }
      received := Failure(Io);
    }
    // The armed cleanup: its own failure is ignored.
    var swept := fs.Remove(temporary);
    return Failure(received.error);
  }
}

// Any number of uploads at the same time, one step of one of them after another.
module ConcurrentUploads {
  import opened Common
  import opened Uploads
  import Decimal

  // What an upload was asked for. Its number is its place in the list of requests.
  datatype Request = Request(destination: Path, mode: nat, atomic: bool)

  datatype Phase = Begun | Receiving | Ready | ModeSet | Copying | Failing | Done | Failed | Stuck

  // data: what the stream has delivered so far; all of it once the upload is ready.
  datatype Upload = Upload(asked: Request, data: Bytes, phase: Phase)

  datatype State = State(start: map<Path, File>, files: map<Path, File>, pid: nat, uploads: seq<Upload>)

  datatype Step =
    | Begin(asked: Request)
    | Create(u: nat)
    | Abandon(u: nat)
    | Write(u: nat, data: Bytes)
    | WriteFails(u: nat, part: Bytes)
    | Accept(u: nat)
    | Chmod(u: nat)
    | Rename(u: nat)
    | Truncate(u: nat, mode: nat)
    | CopySome(u: nat, copied: File)
    | CopyDone(u: nat, mode: nat)
    | Fail(u: nat)
    | CleanUp(u: nat, works: bool)

  function Start(files: map<Path, File>, pid: nat): State {
    State(files, files, pid, [])
  }

  function TempOf(s: State, u: nat): Path
    requires u < |s.uploads|
  {
    TemporaryPath(s.uploads[u].asked.destination, s.pid, u)
  }

  function Move(s: State, u: nat, phase: Phase, files: map<Path, File>): State
    requires u < |s.uploads|
  {
    s.(uploads := s.uploads[u := s.uploads[u].(phase := phase)], files := files)
  }

  // What an upload leaves at its destination.
  function Final(u: Upload): File {
    File(u.data, if u.asked.mode == 0 then PRIVATE else SafeMode(u.asked.mode))
  }

  predicate Active(phase: Phase) {
    phase.Receiving? || phase.Ready? || phase.ModeSet? || phase.Copying?
  }

  // Writing to the open temporary file; its path may be gone.
  function Appended(files: map<Path, File>, temp: Path, data: Bytes): map<Path, File> {
    if temp in files then files[temp := File(files[temp].data + data, files[temp].mode)] else files
  }

  function Next(s: State, step: Step): Option<State> {
    if step.Begin? then
      Some(s.(uploads := s.uploads + [Upload(step.asked, [], Begun)]))
    else if step.u >= |s.uploads| then None
    else
      var u := s.uploads[step.u];
      var temp := TempOf(s, step.u);
      match step
      case Create(_) =>
        if !u.phase.Begun? || temp in s.files then None
        else Some(Move(s, step.u, Receiving, s.files[temp := File([], PRIVATE)]))
      // The call is dropped while the file is being created: nothing will remove it.
      case Abandon(_) =>
        if !u.phase.Begun? || temp in s.files then None
        else Some(Move(s, step.u, Stuck, s.files[temp := File([], PRIVATE)]))
      case Write(_, data) =>
        if !u.phase.Receiving? then None
        else
          Some(s.(uploads := s.uploads[step.u := u.(data := u.data + data)], files := Appended(s.files, temp, data)))
      case WriteFails(_, part) =>
        if u.phase.Receiving? then Some(Move(s, step.u, Failing, Appended(s.files, temp, part))) else None
      case Accept(_) => if u.phase.Receiving? then Some(Move(s, step.u, Ready, s.files)) else None
      case Chmod(_) =>
        if !u.phase.Ready? then None
        else if u.asked.mode == 0 then Some(Move(s, step.u, ModeSet, s.files))
        else if temp !in s.files then None
        else Some(Move(s, step.u, ModeSet, s.files[temp := File(s.files[temp].data, SafeMode(u.asked.mode))]))
      case Rename(_) =>
        if !u.phase.ModeSet? || !u.asked.atomic || temp !in s.files then None
        else Some(Move(s, step.u, Done, (s.files - {temp})[u.asked.destination := s.files[temp]]))
      case Truncate(_, mode) =>
        if !u.phase.ModeSet? || u.asked.atomic then None
        else Some(Move(s, step.u, Copying, s.files[u.asked.destination := File([], mode)]))
      case CopySome(_, copied) =>
        if !u.phase.Copying? then None
        else Some(Move(s, step.u, Copying, s.files[u.asked.destination := copied]))
      case CopyDone(_, mode) =>
        if !u.phase.Copying? || temp !in s.files then None
        else Some(Move(s, step.u, Done, s.files[u.asked.destination := File(u.data, mode)] - {temp}))
      case Fail(_) =>
        if u.phase.Begun? then Some(Move(s, step.u, Failed, s.files))
        else if Active(u.phase) then Some(Move(s, step.u, Failing, s.files))
        else None
      case CleanUp(_, works) =>
        if !u.phase.Failing? then None
        else if works then Some(Move(s, step.u, Failed, s.files - {temp}))
        else Some(Move(s, step.u, Stuck, s.files))
  }

  ghost predicate Runs(s: State, steps: seq<Step>, t: State)
    decreases |steps|
  {
    if steps == [] then s == t
    else
      var mid := Next(s, steps[0]);
      mid.Some? && Runs(mid.value, steps[1..], t)
  }

  // ---- which requests keep out of each other's way ----

  function Requests(s: State): (r: seq<Request>)
    ensures |r| == |s.uploads| && forall i :: 0 <= i < |r| ==> r[i] == s.uploads[i].asked
  {
    seq(|s.uploads|, i requires 0 <= i < |s.uploads| => s.uploads[i].asked)
  }

  function TempAsked(rs: seq<Request>, pid: nat, j: nat): Path
    requires j < |rs|
  {
    TemporaryPath(rs[j].destination, pid, j)
  }

  // Nobody is asked to put a file where this upload keeps its temporary file.
  ghost predicate Clean(rs: seq<Request>, pid: nat, j: nat) {
    j < |rs| && forall i :: 0 <= i < |rs| ==> rs[i].destination != TempAsked(rs, pid, j)
  }

  // Only atomic uploads are asked for this path, it is no temporary file, and the
  // temporary files of its uploads are nobody's destination.
  ghost predicate Guarded(rs: seq<Request>, pid: nat, d: Path) {
    forall j: nat :: j < |rs| ==>
      && d != TempAsked(rs, pid, j)
      && (rs[j].destination == d ==> rs[j].atomic && Clean(rs, pid, j))
  }

  // ---- the invariant ----

  ghost predicate UploadInv(u: Upload, temp: Path, files: map<Path, File>, start: map<Path, File>) {
    match u.phase
    case Begun => u.data == [] && (temp in files ==> temp in start)
    case Receiving => temp in files && files[temp] == File(u.data, PRIVATE)
    case Ready => temp in files && files[temp] == File(u.data, PRIVATE)
    case ModeSet => temp in files && files[temp] == Final(u)
    case Copying => temp in files && !u.asked.atomic
    case Failing => true
    case Stuck => true
    case _ => temp in files ==> temp in start
  }

  ghost predicate IsWhole(s: State, d: Path, i: nat) {
    i < |s.uploads| && s.uploads[i].phase.Done? && s.uploads[i].asked.destination == d
    && d in s.files && s.files[d] == Final(s.uploads[i])
  }

  // The destination holds what it held at the start, or one upload's whole contents.
  ghost predicate OldOrWhole(s: State, d: Path) {
    || ((d in s.files <==> d in s.start) && (d in s.files ==> s.files[d] == s.start[d]))
    || exists i: nat :: IsWhole(s, d, i)
  }

  // Whose file a path can be.
  ghost predicate Known(s: State, p: Path) {
    p in s.start
    || exists i: nat :: i < |s.uploads| && (p == TempOf(s, i) || p == s.uploads[i].asked.destination)
  }

  ghost predicate Inv(s: State) {
    && (forall p :: p in s.files ==> Known(s, p))
    && (forall i :: 0 <= i < |s.uploads| && Clean(Requests(s), s.pid, i) ==>
          UploadInv(s.uploads[i], TempOf(s, i), s.files, s.start))
    && (forall d :: Guarded(Requests(s), s.pid, d) ==> OldOrWhole(s, d))
  }

  // ---- one step of one upload ----

  // What any step of an upload can touch.
  ghost predicate Framed(s: State, u: nat, after: Upload, files: map<Path, File>)
    requires u < |s.uploads|
  {
    && after.asked == s.uploads[u].asked && s.uploads[u].phase != Done
    && SameExcept(files, s.files, {TempOf(s, u), after.asked.destination})
  }

  // What a step does while the upload's temporary file is its own.
  ghost predicate Proper(s: State, u: nat, after: Upload, files: map<Path, File>)
    requires u < |s.uploads|
  {
    && UploadInv(after, TempOf(s, u), files, s.start)
    && (SameExcept(files, s.files, {TempOf(s, u)})
        || !after.asked.atomic
        || (after.phase.Done? && after.asked.destination in files && files[after.asked.destination] == Final(after)))
  }

  predicate Places(step: Step) {
    step.Rename? || step.Truncate? || step.CopySome? || step.CopyDone?
  }

  lemma {:induction false} TemporaryStep(s: State, step: Step)
    requires !step.Begin? && step.u < |s.uploads| && Next(s, step).Some? && !Places(step)
    ensures var t := Next(s, step).value;
            && |t.uploads| == |s.uploads|
            && Framed(s, step.u, t.uploads[step.u], t.files)
            && SameExcept(t.files, s.files, {TempOf(s, step.u)})
            && t == s.(uploads := s.uploads[step.u := t.uploads[step.u]], files := t.files)
  {
    hide TempOf, SafeMode;
  }

  lemma {:induction false} TemporaryStepProper(s: State, step: Step)
    requires !step.Begin? && step.u < |s.uploads| && Next(s, step).Some? && !Places(step)
    requires UploadInv(s.uploads[step.u], TempOf(s, step.u), s.files, s.start)
    ensures var t := Next(s, step).value;
            |t.uploads| == |s.uploads| && UploadInv(t.uploads[step.u], TempOf(s, step.u), t.files, t.start)
  {
    hide TempOf, SafeMode;
  }

  lemma {:induction false} PlacingStep(s: State, step: Step)
    requires !step.Begin? && step.u < |s.uploads| && Next(s, step).Some? && Places(step)
    ensures var t := Next(s, step).value;
            && |t.uploads| == |s.uploads|
            && Framed(s, step.u, t.uploads[step.u], t.files)
            && t == s.(uploads := s.uploads[step.u := t.uploads[step.u]], files := t.files)
  {
    hide TempOf, SafeMode;
  }

  lemma {:induction false} PlacingStepProper(s: State, step: Step)
    requires !step.Begin? && step.u < |s.uploads| && Next(s, step).Some? && Places(step)
    requires UploadInv(s.uploads[step.u], TempOf(s, step.u), s.files, s.start)
    requires s.uploads[step.u].asked.destination != TempOf(s, step.u)
    ensures var t := Next(s, step).value;
            |t.uploads| == |s.uploads| && Proper(s, step.u, t.uploads[step.u], t.files)
  {
    hide TempOf, SafeMode;
  }

  lemma {:induction false} StepIsFramed(s: State, step: Step)
    requires !step.Begin? && step.u < |s.uploads| && Next(s, step).Some?
    ensures var t := Next(s, step).value;
            && |t.uploads| == |s.uploads|
            && t == s.(uploads := s.uploads[step.u := t.uploads[step.u]], files := t.files)
            && Framed(s, step.u, t.uploads[step.u], t.files)
            && (UploadInv(s.uploads[step.u], TempOf(s, step.u), s.files, s.start) ==>
                  Proper(s, step.u, t.uploads[step.u], t.files))
  {
    hide Next, TempOf, UploadInv, SameExcept, Final;
    if Places(step) {
      PlacingStep(s, step);
      if UploadInv(s.uploads[step.u], TempOf(s, step.u), s.files, s.start) {
        OwnTemporary(s, step.u);
        PlacingStepProper(s, step);
      }
    } else {
      TemporaryStep(s, step);
      if UploadInv(s.uploads[step.u], TempOf(s, step.u), s.files, s.start) {
        TemporaryStepProper(s, step);
      }
    }
  }

  lemma OwnTemporary(s: State, u: nat)
    requires u < |s.uploads|
    ensures s.uploads[u].asked.destination != TempOf(s, u)
  {
    TemporaryIsNotDestination(s.uploads[u].asked.destination, s.pid, u);
  }

  lemma TempsDiffer(s: State, i: nat, j: nat)
    requires i < |s.uploads| && j < |s.uploads| && i != j
    ensures TempOf(s, i) != TempOf(s, j)
  {
    TemporaryPathsDiffer(s.uploads[i].asked.destination, s.uploads[j].asked.destination, s.pid, i, j);
  }

  lemma OtherFilesKeepUpload(u: Upload, temp: Path, before: map<Path, File>, after: map<Path, File>,
                             start: map<Path, File>)
    requires UploadInv(u, temp, before, start)
    requires (temp in after <==> temp in before) && (temp in after ==> after[temp] == before[temp])
    ensures UploadInv(u, temp, after, start)
  {
  }

  // A step keeps the requests and with them every temporary path.
  lemma {:induction false} MoveKeepsRequests(s: State, u: nat, after: Upload, files: map<Path, File>)
    requires u < |s.uploads| && after.asked == s.uploads[u].asked
    ensures var t := s.(uploads := s.uploads[u := after], files := files);
            && Requests(t) == Requests(s)
            && (forall i :: 0 <= i < |s.uploads| ==> TempOf(t, i) == TempOf(s, i))
  {
    hide TemporaryPath;
  }

  lemma {:induction false} MoveKeepsKnown(s: State, u: nat, after: Upload, files: map<Path, File>)
    requires u < |s.uploads| && Framed(s, u, after, files)
    requires forall p :: p in s.files ==> Known(s, p)
    ensures var t := s.(uploads := s.uploads[u := after], files := files);
            forall p :: p in t.files ==> Known(t, p)
  {
    hide TempOf;
    var t := s.(uploads := s.uploads[u := after], files := files);
    MoveKeepsRequests(s, u, after, files);
    forall p | p in files ensures Known(t, p) {
      if p == TempOf(s, u) || p == after.asked.destination {
        assert p == TempOf(t, u) || p == t.uploads[u].asked.destination;
      } else {
        assert Known(s, p);
        if i: nat :| i < |s.uploads| && (p == TempOf(s, i) || p == s.uploads[i].asked.destination) {
          assert p == TempOf(t, i) || p == t.uploads[i].asked.destination;
        }
      }
    }
  }

  lemma {:induction false} MoveKeepsUpload(s: State, u: nat, after: Upload, files: map<Path, File>, i: nat)
    requires u < |s.uploads| && i < |s.uploads| && i != u && Framed(s, u, after, files)
    requires Clean(Requests(s), s.pid, i) && UploadInv(s.uploads[i], TempOf(s, i), s.files, s.start)
    ensures UploadInv(s.uploads[i], TempOf(s, i), files, s.start)
  {
    hide TemporaryPath, UploadInv;
    TempsDiffer(s, i, u);
    assert Requests(s)[u].destination != TempAsked(Requests(s), s.pid, i);
    OtherFilesKeepUpload(s.uploads[i], TempOf(s, i), s.files, files, s.start);
  }

  lemma {:induction false} MoveKeepsWhole(s: State, u: nat, after: Upload, files: map<Path, File>, d: Path)
    requires u < |s.uploads| && Framed(s, u, after, files)
    requires Guarded(Requests(s), s.pid, d) && OldOrWhole(s, d)
    requires after.asked.destination == d ==> Proper(s, u, after, files)
    ensures OldOrWhole(s.(uploads := s.uploads[u := after], files := files), d)
  {
    hide TemporaryPath, Final, UploadInv, Clean;
    var t := s.(uploads := s.uploads[u := after], files := files);
    assert d != TempAsked(Requests(s), s.pid, u);
    assert d != TempOf(s, u);
    if (d in files <==> d in s.files) && (d in files ==> files[d] == s.files[d]) {
      if i: nat :| IsWhole(s, d, i) {
        assert IsWhole(t, d, i);
      }
    } else {
      assert Requests(s)[u].atomic;
      assert IsWhole(t, d, u);
    }
  }

  lemma {:induction false} MoveKeepsInv(s: State, u: nat, after: Upload, files: map<Path, File>)
    requires Inv(s) && u < |s.uploads| && Framed(s, u, after, files)
    requires UploadInv(s.uploads[u], TempOf(s, u), s.files, s.start) ==> Proper(s, u, after, files)
    ensures Inv(s.(uploads := s.uploads[u := after], files := files))
  {
    hide TempOf, Final, UploadInv, Framed, Known, Clean, Guarded, OldOrWhole, Proper;
    var t := s.(uploads := s.uploads[u := after], files := files);
    FramedAsks(s, u, after, files);
    MoveKeepsRequests(s, u, after, files);
    MoveKeepsKnown(s, u, after, files);
    forall i | 0 <= i < |t.uploads| && Clean(Requests(t), t.pid, i)
      ensures UploadInv(t.uploads[i], TempOf(t, i), t.files, t.start)
    {
      if i == u {
        ProperKeepsUpload(s, u, after, files);
      } else {
        MoveKeepsUpload(s, u, after, files, i);
      }
    }
    forall d | Guarded(Requests(t), t.pid, d) ensures OldOrWhole(t, d) {
      if after.asked.destination == d {
        GuardedIsClean(Requests(s), s.pid, d, u);
      }
      MoveKeepsWhole(s, u, after, files, d);
    }
  }

  lemma FramedAsks(s: State, u: nat, after: Upload, files: map<Path, File>)
    requires u < |s.uploads| && Framed(s, u, after, files)
    ensures after.asked == s.uploads[u].asked
  {}

  lemma ProperKeepsUpload(s: State, u: nat, after: Upload, files: map<Path, File>)
    requires u < |s.uploads| && Proper(s, u, after, files)
    ensures UploadInv(after, TempOf(s, u), files, s.start)
  {}

  lemma GuardedIsClean(rs: seq<Request>, pid: nat, d: Path, j: nat)
    requires Guarded(rs, pid, d) && j < |rs| && rs[j].destination == d
    ensures Clean(rs, pid, j) && rs[j].atomic
  {}

  // ---- one more request ----

  lemma {:induction false} FewerStayClean(rs: seq<Request>, r: Request, pid: nat, j: nat)
    requires j < |rs| && Clean(rs + [r], pid, j)
    ensures Clean(rs, pid, j)
  {
    hide TemporaryPath;
    assert TempAsked(rs + [r], pid, j) == TempAsked(rs, pid, j);
    assert forall i :: 0 <= i < |rs| ==> (rs + [r])[i] == rs[i];
  }

  lemma {:induction false} FewerStayGuarded(rs: seq<Request>, r: Request, pid: nat, d: Path)
    requires Guarded(rs + [r], pid, d)
    ensures Guarded(rs, pid, d)
  {
    hide TemporaryPath, Clean;
    forall j: nat | j < |rs|
      ensures d != TempAsked(rs, pid, j) && (rs[j].destination == d ==> rs[j].atomic && Clean(rs, pid, j))
    {
      assert d != TempAsked(rs + [r], pid, j);
      assert (rs + [r])[j] == rs[j];
      if rs[j].destination == d {
        FewerStayClean(rs, r, pid, j);
      }
    }
  }

  // A new upload's temporary file is nobody's file yet, if it is nobody's destination.
  lemma {:induction false} NewTemporary(s: State, r: Request)
    requires forall p :: p in s.files ==> Known(s, p)
    requires Clean(Requests(s) + [r], s.pid, |s.uploads|)
    ensures TemporaryPath(r.destination, s.pid, |s.uploads|) in s.files ==>
              TemporaryPath(r.destination, s.pid, |s.uploads|) in s.start
  {
    hide TemporaryPath;
    var n := |s.uploads|;
    var rs := Requests(s) + [r];
    var temp := TempAsked(rs, s.pid, n);
    forall i | 0 <= i < n ensures temp != TempOf(s, i) && temp != s.uploads[i].asked.destination {
      TemporaryPathsDiffer(s.uploads[i].asked.destination, r.destination, s.pid, i, n);
      assert rs[i].destination != TempAsked(rs, s.pid, n);
    }
    assert temp in s.files ==> Known(s, temp);
  }

  lemma {:induction false} BeginKeepsInv(s: State, r: Request)
    requires Inv(s)
    ensures Inv(Next(s, Begin(r)).value)
  {
    hide TempOf, Final, UploadInv, Clean, Guarded, TemporaryPath;
    var t := Next(s, Begin(r)).value;
    var n := |s.uploads|;
    BeginFrames(s, r);
    forall p | p in t.files ensures Known(t, p) {
      assert Known(s, p);
      if i: nat :| i < n && (p == TempOf(s, i) || p == s.uploads[i].asked.destination) {
        assert p == TempOf(t, i) || p == t.uploads[i].asked.destination;
      }
    }
    forall i | 0 <= i < |t.uploads| && Clean(Requests(t), t.pid, i)
      ensures UploadInv(t.uploads[i], TempOf(t, i), t.files, t.start)
    {
      if i < n {
        FewerStayClean(Requests(s), r, s.pid, i);
      } else {
        NewTemporary(s, r);
        NewUpload(t.uploads[n], TempOf(t, n), t.files, t.start);
      }
    }
    forall d | Guarded(Requests(t), t.pid, d) ensures OldOrWhole(t, d) {
      FewerStayGuarded(Requests(s), r, s.pid, d);
      if i: nat :| IsWhole(s, d, i) {
        assert IsWhole(t, d, i);
      }
    }
  }

  lemma {:induction false} BeginFrames(s: State, r: Request)
    ensures var t := Next(s, Begin(r)).value;
            && Requests(t) == Requests(s) + [r]
            && (forall i :: 0 <= i < |s.uploads| ==> TempOf(t, i) == TempOf(s, i) && t.uploads[i] == s.uploads[i])
            && TempOf(t, |s.uploads|) == TemporaryPath(r.destination, s.pid, |s.uploads|)
  {
    hide TemporaryPath;
  }

  lemma NewUpload(u: Upload, temp: Path, files: map<Path, File>, start: map<Path, File>)
    requires u.phase.Begun? && u.data == [] && (temp in files ==> temp in start)
    ensures UploadInv(u, temp, files, start)
  {
  }

  // ---- every run ----

  lemma {:induction false} StepKeepsInv(s: State, step: Step)
    requires Inv(s) && Next(s, step).Some?
    ensures Inv(Next(s, step).value)
  {
    if step.Begin? {
      BeginKeepsInv(s, step.asked);
    } else {
      hide Inv, TempOf, UploadInv, Framed, Proper;
      var t := Next(s, step).value;
      StepIsFramed(s, step);
      MoveKeepsInv(s, step.u, t.uploads[step.u], t.files);
    }
  }

  lemma {:induction false} StepKeepsStart(s: State, step: Step)
    requires Next(s, step).Some?
    ensures Next(s, step).value.start == s.start && Next(s, step).value.pid == s.pid
  {
    hide TempOf, SafeMode;
  }

  lemma {:induction false} RunsKeepPid(s: State, steps: seq<Step>, t: State)
    requires Runs(s, steps, t)
    ensures t.start == s.start && t.pid == s.pid
    decreases |steps|
  {
    hide Next;
    if steps != [] {
      StepKeepsStart(s, steps[0]);
      RunsKeepPid(Next(s, steps[0]).value, steps[1..], t);
    }
  }

  lemma StartInv(files: map<Path, File>, pid: nat)
    ensures Inv(Start(files, pid))
  {
  }

  lemma {:induction false} RunsKeepInv(s: State, steps: seq<Step>, t: State)
    requires Inv(s) && Runs(s, steps, t)
    ensures Inv(t) && t.start == s.start && t.pid == s.pid
    decreases |steps|
  {
    hide Inv, Next;
    if steps != [] {
      StepKeepsStart(s, steps[0]);
      StepKeepsInv(s, steps[0]);
      RunsKeepInv(Next(s, steps[0]).value, steps[1..], t);
    }
  }

  // At every moment of every run a guarded destination holds what it held at the start
  // or the whole contents and mode of one finished upload.
  lemma {:induction false} DestinationIsOldOrWhole(files: map<Path, File>, pid: nat, steps: seq<Step>, t: State, d: Path)
    requires Runs(Start(files, pid), steps, t) && Guarded(Requests(t), pid, d)
    ensures || ((d in t.files <==> d in files) && (d in t.files ==> t.files[d] == files[d]))
            || exists i: nat :: IsWhole(t, d, i)
  {
    hide Guarded, IsWhole;
    RunsKeepInv(Start(files, pid), steps, t);
    assert OldOrWhole(t, d);
  }

  // An upload that is over leaves no temporary file, unless removing it failed or the
  // call was dropped while creating it.
  lemma {:induction false} NoTemporaryLeft(files: map<Path, File>, pid: nat, steps: seq<Step>, t: State, u: nat)
    requires Runs(Start(files, pid), steps, t) && Clean(Requests(t), pid, u)
    requires t.uploads[u].phase.Done? || t.uploads[u].phase.Failed?
    ensures TempOf(t, u) in t.files ==> TempOf(t, u) in files
  {
    hide TempOf;
    RunsKeepInv(Start(files, pid), steps, t);
    assert UploadInv(t.uploads[u], TempOf(t, u), t.files, t.start);
  }

  // ---- the condition is exact ----

  // Whatever the file system holds and however the uploads run, the path is old or whole
  // at every moment at which exactly these uploads have been asked for.
  ghost predicate AlwaysOldOrWhole(rs: seq<Request>, pid: nat, d: Path) {
    forall files, steps, t :: Runs(Start(files, pid), steps, t) && Requests(t) == rs ==> OldOrWhole(t, d)
  }

  lemma {:induction false} RunsOn(s: State, a: seq<Step>, m: State, b: seq<Step>, t: State)
    requires Runs(s, a, m) && Runs(m, b, t)
    ensures Runs(s, a + b, t)
    decreases |a|
  {
    hide Next;
    if a == [] {
      assert a + b == b;
    } else {
      RunsOn(Next(s, a[0]).value, a[1..], m, b, t);
      assert (a + b)[0] == a[0] && (a + b)[1..] == a[1..] + b;
    }
  }

  lemma {:induction false} RunsOne(s: State, steps: seq<Step>, m: State, step: Step)
    requires Runs(s, steps, m) && Next(m, step).Some?
    ensures Runs(s, steps + [step], Next(m, step).value)
  {
    hide Next;
    var t := Next(m, step).value;
    assert [step][1..] == [];
    assert Runs(t, [], t);
    assert Runs(m, [step], t);
    RunsOn(s, steps, m, [step], t);
  }

  // All uploads asked for and none gone further.
  function Asked(rs: seq<Request>, pid: nat): State {
    State(map[], map[], pid, seq(|rs|, i requires 0 <= i < |rs| => Upload(rs[i], [], Begun)))
  }

  lemma {:induction false} AskedRuns(rs: seq<Request>, pid: nat) returns (steps: seq<Step>)
    ensures Runs(Start(map[], pid), steps, Asked(rs, pid)) && Requests(Asked(rs, pid)) == rs
  {
    assert Requests(Asked(rs, pid)) == rs;
    if rs == [] {
      steps := [];
    } else {
      var front, last := rs[..|rs| - 1], rs[|rs| - 1];
      steps := AskedRuns(front, pid);
      RunsOne(Start(map[], pid), steps, Asked(front, pid), Begin(last));
      steps := steps + [Begin(last)];
      assert Next(Asked(front, pid), Begin(last)).value == Asked(rs, pid);
    }
  }

  // The upload has received this and is about to be put in place.
  function Prepared(s: State, j: nat, data: Bytes): State
    requires j < |s.uploads|
  {
    var u := Upload(s.uploads[j].asked, data, ModeSet);
    s.(uploads := s.uploads[j := u], files := s.files[TempOf(s, j) := Final(u)])
  }

  lemma {:induction false} PreparedRuns(s: State, steps: seq<Step>, m: State, j: nat, data: Bytes)
    returns (more: seq<Step>)
    requires Runs(s, steps, m) && j < |m.uploads|
    requires m.uploads[j].phase.Begun? && m.uploads[j].data == [] && TempOf(m, j) !in m.files
    ensures Runs(s, more, Prepared(m, j, data)) && Requests(Prepared(m, j, data)) == Requests(m)
  {
    hide TemporaryPath, SafeMode, Runs;
    var a := Next(m, Create(j)).value;
    RunsOne(s, steps, m, Create(j));
    assert TempOf(a, j) == TempOf(m, j);
    var b := Next(a, Write(j, data)).value;
    RunsOne(s, steps + [Create(j)], a, Write(j, data));
    assert TempOf(b, j) == TempOf(m, j);
    var c := Next(b, Accept(j)).value;
    RunsOne(s, steps + [Create(j)] + [Write(j, data)], b, Accept(j));
    assert TempOf(c, j) == TempOf(m, j);
    var t := Next(c, Chmod(j)).value;
    more := steps + [Create(j)] + [Write(j, data)] + [Accept(j)] + [Chmod(j)];
    RunsOne(s, steps + [Create(j)] + [Write(j, data)] + [Accept(j)], c, Chmod(j));
    assert [] + data == data;
    assert t == Prepared(m, j, data);
    MoveKeepsRequests(m, j, Prepared(m, j, data).uploads[j], Prepared(m, j, data).files);
  }

  // A path that is somebody's temporary file is neither old nor whole once that upload has
  // created it.
  lemma {:induction false} TemporaryIsNeither(rs: seq<Request>, pid: nat, j: nat) returns (steps: seq<Step>, t: State)
    requires j < |rs|
    ensures Runs(Start(map[], pid), steps, t) && Requests(t) == rs && !OldOrWhole(t, TempAsked(rs, pid, j))
  {
    hide TemporaryPath, Runs;
    var s := Asked(rs, pid);
    steps := AskedRuns(rs, pid);
    t := Next(s, Create(j)).value;
    RunsOne(Start(map[], pid), steps, s, Create(j));
    steps := steps + [Create(j)];
    MoveKeepsRequests(s, j, t.uploads[j], t.files);
    assert TempAsked(rs, pid, j) in t.files;
    assert forall i: nat :: !IsWhole(t, TempAsked(rs, pid, j), i);
  }

  // A destination that is copied to is neither while it is copied.
  lemma {:induction false} CopyingIsNeither(rs: seq<Request>, pid: nat, j: nat) returns (steps: seq<Step>, t: State)
    requires j < |rs| && !rs[j].atomic
    ensures Runs(Start(map[], pid), steps, t) && Requests(t) == rs && !OldOrWhole(t, rs[j].destination)
  {
    hide TemporaryPath, Runs;
    var s := Asked(rs, pid);
    steps := AskedRuns(rs, pid);
    steps := PreparedRuns(Start(map[], pid), steps, s, j, []);
    var m := Prepared(s, j, []);
    t := Next(m, Truncate(j, 0)).value;
    RunsOne(Start(map[], pid), steps, m, Truncate(j, 0));
    steps := steps + [Truncate(j, 0)];
    MoveKeepsRequests(m, j, t.uploads[j], t.files);
    assert rs[j].destination in t.files;
    assert forall i: nat :: !IsWhole(t, rs[j].destination, i);
  }

  // An upload whose destination is another one's temporary file puts its own bytes there,
  // and the other one then renames them to its destination.
  lemma {:induction false} ClashIsNeither(rs: seq<Request>, pid: nat, i: nat, j: nat)
    returns (steps: seq<Step>, t: State)
    requires i < |rs| && j < |rs| && rs[j].atomic && rs[i].destination == TempAsked(rs, pid, j)
    requires forall k: nat :: k < |rs| ==> rs[j].destination != TempAsked(rs, pid, k)
    ensures Runs(Start(map[], pid), steps, t) && Requests(t) == rs && !OldOrWhole(t, rs[j].destination)
  {
    hide TemporaryPath, Runs;
    var d, byte1 := rs[j].destination, [1 as byte];
    TemporaryIsNotDestination(d, pid, j);
    assert i != j;
    TemporaryPathsDiffer(rs[i].destination, d, pid, i, j);
    var s := Asked(rs, pid);
    steps := AskedRuns(rs, pid);
    assert TempOf(s, j) == TempAsked(rs, pid, j) && TempOf(s, i) == TempAsked(rs, pid, i);
    steps := PreparedRuns(Start(map[], pid), steps, s, j, byte1);
    var m := Prepared(s, j, byte1);
    assert TempOf(m, i) == TempOf(s, i);
    steps := PreparedRuns(Start(map[], pid), steps, m, i, []);
    var n := Prepared(m, i, []);
    assert TempOf(n, i) == TempOf(s, i) && TempOf(n, j) == TempOf(s, j);
    var put := if rs[i].atomic then Rename(i) else Truncate(i, 0);
    var o := Next(n, put).value;
    RunsOne(Start(map[], pid), steps, n, put);
    steps := steps + [put];
    MoveKeepsRequests(n, i, o.uploads[i], o.files);
    assert TempOf(o, j) == TempOf(s, j);
    assert o.files[TempOf(s, j)].data == [];
    t := Next(o, Rename(j)).value;
    RunsOne(Start(map[], pid), steps, o, Rename(j));
    steps := steps + [Rename(j)];
    MoveKeepsRequests(o, j, t.uploads[j], t.files);
    assert d in t.files && t.files[d].data == [];
    forall k: nat ensures !IsWhole(t, d, k) {
      OnlyTwoMoved(rs, pid, t, i, j, k);
    }
  }

  lemma OnlyTwoMoved(rs: seq<Request>, pid: nat, t: State, i: nat, j: nat, k: nat)
    requires i < |rs| && j < |rs| && i != j && Requests(t) == rs
    requires rs[i].destination != rs[j].destination
    requires forall l :: 0 <= l < |rs| && l != i && l != j ==> t.uploads[l].phase.Begun?
    requires t.uploads[j].data == [1] && rs[j].destination in t.files && t.files[rs[j].destination].data == []
    ensures !IsWhole(t, rs[j].destination, k)
  {}

  // The condition is exact: for any list of requests, a path is old or whole in every run
  // of them if and only if only atomic uploads are asked for it, it is no temporary file,
  // and no destination is the temporary file of one of its uploads.
  lemma {:induction false} AtomicExactlyWhenGuarded(rs: seq<Request>, pid: nat, d: Path)
    ensures AlwaysOldOrWhole(rs, pid, d) <==> Guarded(rs, pid, d)
  {
    hide TemporaryPath, Runs, OldOrWhole, IsWhole;
    if Guarded(rs, pid, d) {
      forall files, steps, t | Runs(Start(files, pid), steps, t) && Requests(t) == rs ensures OldOrWhole(t, d) {
        StartInv(files, pid);
        RunsKeepInv(Start(files, pid), steps, t);
      }
    } else if j: nat :| j < |rs| && d == TempAsked(rs, pid, j) {
      var steps, t := TemporaryIsNeither(rs, pid, j);
    } else {
      var j: nat :| j < |rs| && rs[j].destination == d && (rs[j].atomic ==> !Clean(rs, pid, j));
      if rs[j].atomic {
        var i :| 0 <= i < |rs| && rs[i].destination == TempAsked(rs, pid, j);
        var steps, t := ClashIsNeither(rs, pid, i, j);
      } else {
        var steps, t := CopyingIsNeither(rs, pid, j);
      }
    }
  }

  // ---- a condition callers can check ----

  // The last component contains the mark that all temporary names carry.
  ghost predicate Marked(p: Path) {
    p.name.Some? && exists k: nat :: MarkAt(p.name.value, k)
  }

  predicate MarkAt(name: string, k: nat) {
    k + |MARK| <= |name| && name[k..k + |MARK|] == MARK
  }

  lemma {:induction false} TemporaryIsMarked(p: Path, pid: nat, id: nat)
    ensures Marked(TemporaryPath(p, pid, id))
  {
    var head := "." + (if p.name.Some? then p.name.value else "upload");
    var tail := Decimal.Print(pid) + "-" + Decimal.Print(id);
    var name := TemporaryPath(p, pid, id).name.value;
    assert name == head + MARK + tail;
    assert MarkAt(name, |head|);
  }

  // A caller who keeps the mark out of every destination needs to know neither the agent's
  // process id nor its counter: a destination asked for by atomic uploads only is old or
  // whole at every moment.
  lemma {:induction false} UnmarkedDestinationIsOldOrWhole(files: map<Path, File>, pid: nat, steps: seq<Step>, t: State,
                                                           d: Path)
    requires Runs(Start(files, pid), steps, t) && !Marked(d)
    requires forall i :: 0 <= i < |t.uploads| ==> !Marked(t.uploads[i].asked.destination)
    requires forall i :: 0 <= i < |t.uploads| && t.uploads[i].asked.destination == d ==> t.uploads[i].asked.atomic
    ensures || ((d in t.files <==> d in files) && (d in t.files ==> t.files[d] == files[d]))
            || exists i: nat :: IsWhole(t, d, i)
  {
    hide TemporaryPath, Marked, IsWhole, Runs;
    var rs := Requests(t);
    forall j: nat | j < |rs|
      ensures d != TempAsked(rs, pid, j) && (rs[j].destination == d ==> rs[j].atomic && Clean(rs, pid, j))
    {
      TemporaryIsMarked(rs[j].destination, pid, j);
    }
    DestinationIsOldOrWhole(files, pid, steps, t, d);
  }

  // For example: from an empty file system an atomic upload to d, and another one to the
  // first one's temporary file, can leave d neither old nor whole although only an atomic
  // upload was asked for it.
  lemma {:induction false} TemporaryNameAsDestination(d: Path, pid: nat) returns (steps: seq<Step>, t: State)
    ensures Runs(Start(map[], pid), steps, t) && !OldOrWhole(t, d)
    ensures forall i :: 0 <= i < |t.uploads| ==>
              d != TempOf(t, i) && (t.uploads[i].asked.destination == d ==> t.uploads[i].asked.atomic)
  {
    var temp := TemporaryPath(d, pid, 0);
    var rs := [Request(d, 0, true), Request(temp, 0, false)];
    TemporaryIsNotDestination(d, pid, 0);
    TemporaryOfTemporary(d, pid);
    hide TemporaryPath, Runs, OldOrWhole;
    assert temp == TempAsked(rs, pid, 0);
    forall k: nat | k < |rs| ensures d != TempAsked(rs, pid, k) {
    }
    steps, t := ClashIsNeither(rs, pid, 1, 0);
    forall i | 0 <= i < |t.uploads|
      ensures d != TempOf(t, i) && (t.uploads[i].asked.destination == d ==> t.uploads[i].asked.atomic)
    {
      RunsKeepPid(Start(map[], pid), steps, t);
      assert t.uploads[i].asked == rs[i];
      assert TempOf(t, i) == TempAsked(rs, pid, i);
    }
  }

  lemma TemporaryOfTemporary(d: Path, pid: nat)
    ensures TemporaryPath(TemporaryPath(d, pid, 0), pid, 1) != d
  {
    if d.name.Some? {
      assert |TemporaryPath(TemporaryPath(d, pid, 0), pid, 1).name.value| > |d.name.value|;
    }
  }

  // ---- uploads can complete ----

  // From any state: an upload that has not begun, and whose temporary path is free, can go
  // on to put any data at its destination, with the permissions asked for, and to leave
  // nothing else behind.
  lemma {:induction false} UploadCanComplete(s: State, u: nat, data: Bytes) returns (steps: seq<Step>, t: State)
    requires u < |s.uploads| && s.uploads[u].phase.Begun? && s.uploads[u].data == [] && TempOf(s, u) !in s.files
    ensures Runs(s, steps, t) && |t.uploads| == |s.uploads| && t.uploads[u].phase.Done?
    ensures forall v :: 0 <= v < |s.uploads| && v != u ==> t.uploads[v] == s.uploads[v]
    ensures var asked := s.uploads[u].asked;
            t.files == s.files[asked.destination := File(data, if asked.mode == 0 then 384 else asked.mode % 512)]
  {
    hide TemporaryPath, Runs;
    TemporaryIsNotDestination(s.uploads[u].asked.destination, s.pid, u);
    assert Runs(s, [], s) by { RunsNone(s); }
    steps := PreparedRuns(s, [], s, u, data);
    var m := Prepared(s, u, data);
    assert TempOf(m, u) == TempOf(s, u);
    if s.uploads[u].asked.atomic {
      RunsOne(s, steps, m, Rename(u));
      t := Next(m, Rename(u)).value;
      steps := steps + [Rename(u)];
    } else {
      var mode := Final(m.uploads[u]).mode;
      RunsOne(s, steps, m, Truncate(u, mode));
      var n := Next(m, Truncate(u, mode)).value;
      assert TempOf(n, u) == TempOf(s, u);
      steps := steps + [Truncate(u, mode)];
      RunsOne(s, steps, n, CopyDone(u, mode));
      t := Next(n, CopyDone(u, mode)).value;
      steps := steps + [CopyDone(u, mode)];
    }
  }

  lemma RunsNone(s: State)
    ensures Runs(s, [], s)
  {}
}
