// Recipe provenance kept in the description of a container's configuration, under
// optimistic concurrency: a writer reads the configuration, changes the metadata
// and sends it back with the digest it read; a stale digest is refused.
module StringOrder {
  // Strings compare by their characters, shorter prefixes first.
  predicate Le(a: string, b: string) {
    a == "" || (b != "" && (a[0] < b[0] || (a[0] == b[0] && Le(a[1..], b[1..]))))
  }

  lemma {:induction false} Total(a: string, b: string)
    ensures Le(a, b) || Le(b, a)
    ensures Le(a, b) && Le(b, a) ==> a == b
  {
    if a != "" && b != "" && a[0] == b[0] {
      Total(a[1..], b[1..]);
      assert a == [a[0]] + a[1..] && b == [b[0]] + b[1..];
    }
  }

  lemma {:induction false} Transitive(a: string, b: string, c: string)
    requires Le(a, b) && Le(b, c)
    ensures Le(a, c)
  {
    if a != "" && a[0] == b[0] && b[0] == c[0] {
      Transitive(a[1..], b[1..], c[1..]);
    }
  }

  lemma {:induction false} Reflexive(a: string)
    ensures Le(a, a)
  {
    if a != "" {
      Reflexive(a[1..]);
    }
  }

  // The two strings agree up to k and there the first one has the smaller character.
  ghost predicate SmallerAt(a: string, b: string, k: nat) {
    k < |a| && k < |b| && a[..k] == b[..k] && a[k] < b[k]
  }

  // A prefix comes first, and otherwise the first difference decides.
  lemma {:induction false} LeIsLexicographic(a: string, b: string)
    ensures Le(a, b) <==> a <= b || exists k: nat :: SmallerAt(a, b, k)
  {
    if a != "" && b != "" {
      var x, y := a[1..], b[1..];
      assert a == [a[0]] + x && b == [b[0]] + y;
      LeIsLexicographic(x, y);
      assert a[0] < b[0] ==> SmallerAt(a, b, 0);
      if a[0] == b[0] {
        if k: nat :| SmallerAt(x, y, k) {
          assert a[..k + 1] == [a[0]] + x[..k] && b[..k + 1] == [b[0]] + y[..k];
          assert SmallerAt(a, b, k + 1);
        }
        if k: nat :| SmallerAt(a, b, k) {
          assert x[..k - 1] == a[..k][1..] && y[..k - 1] == b[..k][1..];
          assert SmallerAt(x, y, k - 1);
        }
      } else if k: nat :| SmallerAt(a, b, k) {
        assert k > 0 ==> a[..k][0] == b[..k][0];
      }
    }
  }
}

// A stable sort by a string key, as Vec::sort_by does it.
module StableSort {
  import opened Common
  import opened StringOrder

  ghost predicate Sorted<T>(s: seq<T>, key: T -> string) {
    forall i, j :: 0 <= i < j < |s| ==> Le(key(s[i]), key(s[j]))
  }

  // x goes behind every element whose key is not above its own.
  function Insert<T>(s: seq<T>, x: T, key: T -> string): seq<T> {
    if s == [] || Le(key(s[|s| - 1]), key(x)) then s + [x]
    else Insert(s[..|s| - 1], x, key) + [s[|s| - 1]]
  }

  function Sort<T>(s: seq<T>, key: T -> string): seq<T> {
    if s == [] then [] else Insert(Sort(s[..|s| - 1], key), s[|s| - 1], key)
  }

  lemma {:induction false} InsertPermutes<T>(s: seq<T>, x: T, key: T -> string)
    ensures multiset(Insert(s, x, key)) == multiset(s) + multiset{x}
  {
    if s != [] && !Le(key(s[|s| - 1]), key(x)) {
      InsertPermutes(s[..|s| - 1], x, key);
      assert s == s[..|s| - 1] + [s[|s| - 1]];
    }
  }

  lemma {:induction false} InsertSorts<T>(s: seq<T>, x: T, key: T -> string)
    requires Sorted(s, key)
    ensures Sorted(Insert(s, x, key), key)
  {
    var r := Insert(s, x, key);
    if s == [] {
    } else if Le(key(s[|s| - 1]), key(x)) {
      forall i, j | 0 <= i < j < |r| ensures Le(key(r[i]), key(r[j])) {
        if j == |s| {
          if i < |s| - 1 {
            Transitive(key(s[i]), key(s[|s| - 1]), key(x));
          }
        }
      }
    } else {
      var front, last := s[..|s| - 1], s[|s| - 1];
      InsertSorts(front, x, key);
      InsertPermutes(front, x, key);
      Total(key(last), key(x));
      forall y | y in Insert(front, x, key) ensures Le(key(y), key(last)) {
        assert y in multiset(Insert(front, x, key));
        assert y in multiset(front) || y == x;
      }
    }
  }

  lemma {:induction false} SortCorrect<T>(s: seq<T>, key: T -> string)
    ensures Sorted(Sort(s, key), key)
    ensures multiset(Sort(s, key)) == multiset(s)
  {
    if s != [] {
      hide Sorted, Insert;
      var front := s[..|s| - 1];
      SortCorrect(front, key);
      InsertSorts(Sort(front, key), s[|s| - 1], key);
      InsertPermutes(Sort(front, key), s[|s| - 1], key);
      assert s == front + [s[|s| - 1]];
    }
  }

  lemma {:induction false} SortSorted<T>(s: seq<T>, key: T -> string)
    requires Sorted(s, key)
    ensures Sort(s, key) == s
  {
    if s != [] {
      SortSorted(s[..|s| - 1], key);
      assert s == s[..|s| - 1] + [s[|s| - 1]];
    }
  }

  lemma SortMembers<T>(s: seq<T>, key: T -> string)
    ensures forall x :: x in Sort(s, key) <==> x in s
    ensures |Sort(s, key)| == |s|
  {
    SortCorrect(s, key);
    forall x ensures x in Sort(s, key) <==> x in s {
      assert x in Sort(s, key) <==> x in multiset(Sort(s, key));
      assert x in s <==> x in multiset(s);
    }
    assert |multiset(Sort(s, key))| == |multiset(s)|;
  }

  // The first element whose key is k.
  function Find<T>(s: seq<T>, key: T -> string, k: string): Option<T> {
    if s == [] then None
    else
      var earlier := Find(s[..|s| - 1], key, k);
      if earlier.Some? then earlier
      else if key(s[|s| - 1]) == k then Some(s[|s| - 1])
      else None
  }

  lemma FindSnoc<T>(s: seq<T>, x: T, key: T -> string, k: string)
    ensures Find(s + [x], key, k) ==
            if Find(s, key, k).Some? then Find(s, key, k) else if key(x) == k then Some(x) else None
  {
    assert (s + [x])[..|s|] == s;
  }

  // Stability, as far as a lookup can see it: an inserted element is found only
  // when no earlier element had its key.
  lemma {:induction false} InsertFind<T>(s: seq<T>, x: T, key: T -> string, k: string)
    ensures Find(Insert(s, x, key), key, k) == Find(s + [x], key, k)
  {
    if s != [] && !Le(key(s[|s| - 1]), key(x)) {
      var front, last := s[..|s| - 1], s[|s| - 1];
      InsertFind(front, x, key, k);
      FindSnoc(Insert(front, x, key), last, key, k);
      FindSnoc(front, x, key, k);
      FindSnoc(front, last, key, k);
      FindSnoc(s, x, key, k);
      Reflexive(key(x));
    }
  }

  lemma {:induction false} SortFind<T>(s: seq<T>, key: T -> string, k: string)
    ensures Find(Sort(s, key), key, k) == Find(s, key, k)
  {
    if s != [] {
      var front, last := s[..|s| - 1], s[|s| - 1];
      SortFind(front, key, k);
      InsertFind(Sort(front, key), last, key, k);
      FindSnoc(Sort(front, key), last, key, k);
    }
  }

  lemma {:induction false} FindMember<T>(s: seq<T>, key: T -> string, k: string)
    ensures Find(s, key, k).Some? ==> Find(s, key, k).value in s && key(Find(s, key, k).value) == k
    ensures Find(s, key, k).None? ==> forall x :: x in s ==> key(x) != k
  {
    if s != [] {
      FindMember(s[..|s| - 1], key, k);
      assert s == s[..|s| - 1] + [s[|s| - 1]];
    }
  }

  // No two elements share a key.
  ghost predicate Distinct<T>(s: seq<T>, key: T -> string) {
    forall i, j :: 0 <= i < j < |s| ==> key(s[i]) != key(s[j])
  }

  lemma {:induction false} InsertDistinct<T>(s: seq<T>, x: T, key: T -> string)
    requires Distinct(s, key)
    requires forall y :: y in s ==> key(y) != key(x)
    ensures Distinct(Insert(s, x, key), key)
  {
    if s != [] && !Le(key(s[|s| - 1]), key(x)) {
      var front, last := s[..|s| - 1], s[|s| - 1];
      InsertDistinct(front, x, key);
      InsertPermutes(front, x, key);
      forall y | y in Insert(front, x, key) ensures key(y) != key(last) {
        assert y in multiset(Insert(front, x, key));
        assert y in multiset(front) || y == x;
      }
    }
  }

  lemma {:induction false} SortDistinct<T>(s: seq<T>, key: T -> string)
    requires Distinct(s, key)
    ensures Distinct(Sort(s, key), key)
  {
    if s != [] {
      var front := s[..|s| - 1];
      SortDistinct(front, key);
      SortMembers(front, key);
      forall y | y in Sort(front, key) ensures key(y) != key(s[|s| - 1]) {
        SortCorrect(front, key);
        assert y in multiset(Sort(front, key));
        assert y in multiset(front);
        var i :| 0 <= i < |front| && front[i] == y;
        assert s[i] == y;
      }
      InsertDistinct(Sort(front, key), s[|s| - 1], key);
    }
  }
}

// The provenance entry of one recipe and what recording it does to the metadata.
module RecipeRecord {
  import opened Common
  import opened StableSort

  datatype Entry = Entry(id: string, repository: string, revision: string,
                         appliedAt: Option<string>, result: Option<string>)

  datatype Metadata = Metadata(id: string, vmid: nat,
                               image: Option<string>, snapshot: Option<string>, node: Option<string>,
                               recipes: seq<Entry>, capabilities: seq<string>)

  // One call's work: the entry to store and what the recipe provides.
  datatype Job = Job(entry: Entry, capabilities: seq<string>)

  const SUCCESS := Some("success")

  function EntryKey(e: Entry): string {
    e.id
  }

  function Itself(c: string): string {
    c
  }

  // The entry of recipe k.
  function Lookup(m: Metadata, k: string): Option<Entry> {
    Find(m.recipes, EntryKey, k)
  }

  function FirstIndex(s: seq<Entry>, id: string): (r: nat)
    ensures r <= |s|
    ensures r < |s| ==> s[r].id == id
    ensures forall j :: 0 <= j < r ==> s[j].id != id
  {
    if s == [] || s[0].id == id then 0 else 1 + FirstIndex(s[1..], id)
  }

  function Upsert(s: seq<Entry>, p: Entry): seq<Entry> {
    var i := FirstIndex(s, p.id);
    if i < |s| then s[i := p] else s + [p]
  }

  function AddMissing(s: seq<string>, extra: seq<string>): seq<string>
    decreases |extra|
  {
    if extra == [] then s
    else if extra[0] in s then AddMissing(s, extra[1..])
    else AddMissing(s + [extra[0]], extra[1..])
  }

  function Record(m: Metadata, job: Job): Metadata {
    var provided :=
      if job.entry.result == SUCCESS then AddMissing(m.capabilities, job.capabilities) else m.capabilities;
    m.(recipes := Sort(Upsert(m.recipes, job.entry), EntryKey), capabilities := Sort(provided, Itself))
  }

  lemma {:induction false} FindIsFirst(s: seq<Entry>, k: string)
    ensures var i := FirstIndex(s, k);
            Find(s, EntryKey, k) == if i < |s| then Some(s[i]) else None
  {
    if s != [] {
      var front := s[..|s| - 1];
      FindIsFirst(front, k);
      var i, j := FirstIndex(s, k), FirstIndex(front, k);
      assert forall n :: 0 <= n < |front| ==> front[n] == s[n];
      if j < |front| {
        assert s[j].id == k;
        assert i == j;
      }
    }
  }

  lemma UpsertFind(s: seq<Entry>, p: Entry, k: string)
    ensures Find(Upsert(s, p), EntryKey, k) == if k == p.id then Some(p) else Find(s, EntryKey, k)
  {
    var i := FirstIndex(s, p.id);
    var t := Upsert(s, p);
    FindIsFirst(s, k);
    FindIsFirst(t, k);
    var a, b := FirstIndex(s, k), FirstIndex(t, k);
    assert forall j :: 0 <= j < |s| && j != i ==> t[j] == s[j];
    assert t[i] == p;
    if k == p.id {
      assert b == i;
    } else if a < |s| {
      assert t[a].id == k;
      assert b == a;
    }
  }

  lemma {:induction false} AddMissingMembers(s: seq<string>, extra: seq<string>)
    ensures forall c :: c in AddMissing(s, extra) <==> c in s || c in extra
    decreases |extra|
  {
    if extra != [] {
      assert extra == [extra[0]] + extra[1..];
      AddMissingMembers(if extra[0] in s then s else s + [extra[0]], extra[1..]);
    }
  }

  lemma {:induction false} AddMissingNothing(s: seq<string>, extra: seq<string>)
    requires forall c :: c in extra ==> c in s
    ensures AddMissing(s, extra) == s
  {
    if extra != [] {
      AddMissingNothing(s, extra[1..]);
    }
  }

  // Only the entry of the job's own recipe changes; every other recipe keeps its own.
  lemma RecordLookup(m: Metadata, job: Job, k: string)
    ensures Lookup(Record(m, job), k) == if k == job.entry.id then Some(job.entry) else Lookup(m, k)
  {
    UpsertFind(m.recipes, job.entry, k);
    SortFind(Upsert(m.recipes, job.entry), EntryKey, k);
  }

  // Capabilities are never lost, and grow by the recipe's own on success only.
  lemma RecordCapabilities(m: Metadata, job: Job, c: string)
    ensures c in Record(m, job).capabilities <==>
            c in m.capabilities || (job.entry.result == SUCCESS && c in job.capabilities)
  {
    AddMissingMembers(m.capabilities, job.capabilities);
    var provided :=
      if job.entry.result == SUCCESS then AddMissing(m.capabilities, job.capabilities) else m.capabilities;
    SortMembers(provided, Itself);
  }

  lemma RecordKeepsDistinct(m: Metadata, job: Job)
    requires Distinct(m.recipes, EntryKey)
    ensures Distinct(Record(m, job).recipes, EntryKey)
  {
    SortDistinct(Upsert(m.recipes, job.entry), EntryKey);
  }

  // Nothing but the two lists changes; each comes out sorted, the recipes with at most one
  // more of them.
  lemma RecordKeepsRest(m: Metadata, job: Job)
    ensures var after := Record(m, job);
            && after.id == m.id && after.vmid == m.vmid && after.image == m.image && after.snapshot == m.snapshot
            && after.node == m.node
            && Sorted(after.recipes, EntryKey) && Sorted(after.capabilities, Itself)
            && |after.recipes| == |m.recipes| + (if Lookup(m, job.entry.id).Some? then 0 else 1)
  {
    hide Sorted;
    FindIsFirst(m.recipes, job.entry.id);
    SortCorrect(Upsert(m.recipes, job.entry), EntryKey);
    SortMembers(Upsert(m.recipes, job.entry), EntryKey);
    var provided :=
      if job.entry.result == SUCCESS then AddMissing(m.capabilities, job.capabilities) else m.capabilities;
    SortCorrect(provided, Itself);
  }

  lemma {:induction false} AddMissingDistinct(s: seq<string>, extra: seq<string>)
    requires Distinct(s, Itself)
    ensures Distinct(AddMissing(s, extra), Itself)
    decreases |extra|
  {
    if extra != [] {
      AddMissingDistinct(if extra[0] in s then s else s + [extra[0]], extra[1..]);
    }
  }

  // No capability is stored twice.
  lemma RecordCapabilitiesOnce(m: Metadata, job: Job)
    requires Distinct(m.capabilities, Itself)
    ensures Distinct(Record(m, job).capabilities, Itself)
  {
    AddMissingDistinct(m.capabilities, job.capabilities);
    var provided :=
      if job.entry.result == SUCCESS then AddMissing(m.capabilities, job.capabilities) else m.capabilities;
    SortDistinct(provided, Itself);
  }

  // Recording the same job again, after a reply was lost, changes nothing.
  lemma RecordIdempotent(m: Metadata, job: Job)
    ensures Record(Record(m, job), job) == Record(m, job)
  {
    var once := Record(m, job);
    RecordLookup(m, job, job.entry.id);
    FindIsFirst(once.recipes, job.entry.id);
    assert Upsert(once.recipes, job.entry) == once.recipes;
    SortCorrect(Upsert(m.recipes, job.entry), EntryKey);
    SortSorted(once.recipes, EntryKey);
    if job.entry.result == SUCCESS {
      forall c | c in job.capabilities ensures c in once.capabilities {
        RecordCapabilities(m, job, c);
      }
      AddMissingNothing(once.capabilities, job.capabilities);
    }
    var provided :=
      if job.entry.result == SUCCESS then AddMissing(m.capabilities, job.capabilities) else m.capabilities;
    SortCorrect(provided, Itself);
    SortSorted(once.capabilities, Itself);
  }
}

// Any number of writers recording provenance for one box at the same time.
module Provenance {
  import opened Common
  import opened RecipeRecord

  // A description either cannot be read, has no marker, or holds metadata among
  // the user's own notes.
  datatype Description = Unreadable | Plain(notes: string) | Marked(notes: string, metadata: Metadata)

  // The stored configuration. Its digest is collision free, so the configuration
  // itself stands for it.
  datatype Config = Config(description: Option<Description>, rest: string)

  datatype Target = Target(id: string, vmid: nat)

  datatype Fault = Unparsable | NoMetadata | OtherBox | Retries

  function Parse(d: Description): Result<Option<Metadata>, Fault> {
    match d
    case Unreadable => Failure(Unparsable)
    case Plain(_) => Success(None)
    case Marked(_, m) => Success(Some(m))
  }

  // The metadata replaces the old marker; the notes stay.
  function Preserve(d: Description, m: Metadata): Description
    requires !d.Unreadable?
    ensures Parse(Preserve(d, m)) == Success(Some(m))
  {
    Marked(d.notes, m)
  }

  // The description names this very box.
  predicate OwnMetadata(c: Config, box: Target) {
    c.description.Some? && c.description.value.Marked?
    && var m := c.description.value.metadata; m.id == box.id && m.vmid == box.vmid
  }

  // The metadata a writer accepts for its box.
  function Readable(c: Config, box: Target): (r: Result<Metadata, Fault>)
    ensures r.Success? <==> OwnMetadata(c, box)
    ensures r.Success? ==> r.value == c.description.value.metadata
    ensures r == Failure(Unparsable) <==> c.description == Some(Unreadable)
    ensures r == Failure(NoMetadata) <==> c.description.None? || c.description.value.Plain?
    ensures r != Failure(Retries)
  {
    var d := if c.description.Some? then c.description.value else Plain("");
    match Parse(d)
    case Failure(e) => Failure(e)
    case Success(None) => Failure(NoMetadata)
    case Success(Some(m)) => if m.id != box.id || m.vmid != box.vmid then Failure(OtherBox) else Success(m)
  }

  function Updated(c: Config, box: Target, job: Job): (r: Config)
    requires Readable(c, box).Success?
    ensures Readable(r, box) == Success(Record(Readable(c, box).value, job))
    ensures r.rest == c.rest && r.description.value.notes == c.description.value.notes
  {
    c.(description := Some(Preserve(c.description.value, Record(Readable(c, box).value, job))))
  }

  // One accepted change of the stored configuration, by a writer or by someone else.
  datatype Change = Change(before: Config, after: Config, writer: Option<nat>)

  datatype Phase =
    | Ready(left: nat)
    | Holding(left: nat, seen: Config, digest: Option<Config>)
    | Ended(recorded: bool)

  datatype State = State(box: Target, start: Config, config: Config, jobs: seq<Job>, phases: seq<Phase>,
                         log: seq<Change>)

  datatype Outcome = Replied | ReplyLost | Refused

  datatype Step =
    | ReadOk(w: nat, digestShown: bool)
    | ReadFailed(w: nat)
    | Update(w: nat, outcome: Outcome)
    | Edit(after: Config)

  const ATTEMPTS: nat := 3

  function Start(box: Target, config: Config, jobs: seq<Job>): State {
    State(box, config, config, jobs, seq(|jobs|, i => Ready(ATTEMPTS)), [])
  }

  function Failed(left: nat): Phase {
    if left <= 1 then Ended(false) else Ready(left - 1)
  }

  function Next(s: State, step: Step): Option<State>
    requires |s.phases| == |s.jobs|
    ensures Next(s, step).Some? ==> |Next(s, step).value.phases| == |s.jobs| == |Next(s, step).value.jobs|
  {
    match step
    case ReadOk(w, digestShown) =>
      if w < |s.phases| && s.phases[w].Ready? then
        Some(s.(phases := s.phases[w :=
          if Readable(s.config, s.box).Failure? then Ended(false)
          else Holding(s.phases[w].left, s.config, if digestShown then Some(s.config) else None)]))
      else None
    case ReadFailed(w) =>
      if w < |s.phases| && s.phases[w].Ready? then
        Some(s.(phases := s.phases[w := Failed(s.phases[w].left)]))
      else None
    case Update(w, outcome) =>
      if w < |s.phases| && s.phases[w].Holding? then
        var held := s.phases[w];
        var stale := held.digest.Some? && held.digest.value != s.config;
        if stale || outcome == Refused then
          Some(s.(phases := s.phases[w := Failed(held.left)]))
        else if Readable(held.seen, s.box).Success? then
          var after := Updated(held.seen, s.box, s.jobs[w]);
          Some(s.(config := after, log := s.log + [Change(s.config, after, Some(w))],
                  phases := s.phases[w := if outcome == Replied then Ended(true) else Failed(held.left)]))
        else None
      else None
    case Edit(after) =>
      Some(s.(config := after, log := s.log + [Change(s.config, after, None)]))
  }

  ghost predicate Runs(s: State, steps: seq<Step>, t: State)
    requires |s.phases| == |s.jobs|
    decreases |steps|
  {
    if steps == [] then s == t
    else
      var mid := Next(s, steps[0]);
      mid.Some? && Runs(mid.value, steps[1..], t)
  }

  ghost predicate DigestsShown(steps: seq<Step>) {
    forall i :: 0 <= i < |steps| && steps[i].ReadOk? ==> steps[i].digestShown
  }

  // Each change starts from the configuration the one before it left.
  ghost predicate Linked(start: Config, log: seq<Change>, end: Config) {
    if log == [] then start == end
    else log[|log| - 1].after == end && Linked(start, log[..|log| - 1], log[|log| - 1].before)
  }

  // The change is the writer's own record applied to the metadata stored immediately before it.
  ghost predicate IsRecord(c: Change, box: Target, jobs: seq<Job>) {
    c.writer.Some? ==>
      c.writer.value < |jobs| && Readable(c.before, box).Success?
      && c.after == Updated(c.before, box, jobs[c.writer.value])
  }

  ghost predicate Wrote(log: seq<Change>, w: nat) {
    exists i :: 0 <= i < |log| && log[i].writer == Some(w)
  }

  // What a writer knows: it holds a readable configuration with that configuration's
  // digest, and it only reports success after a write of its own.
  ghost predicate PhaseInv(p: Phase, w: nat, log: seq<Change>, box: Target) {
    match p
    case Ready(_) => true
    case Holding(_, seen, digest) => digest == Some(seen) && Readable(seen, box).Success?
    case Ended(recorded) => recorded ==> Wrote(log, w)
  }

  ghost predicate Inv(s: State) {
    && |s.phases| == |s.jobs|
    && Linked(s.start, s.log, s.config)
    && (forall i :: 0 <= i < |s.log| ==> IsRecord(s.log[i], s.box, s.jobs))
    && (forall w :: 0 <= w < |s.phases| ==> PhaseInv(s.phases[w], w, s.log, s.box))
  }

  lemma WroteGrows(log: seq<Change>, c: Change)
    ensures forall w: nat :: Wrote(log, w) ==> Wrote(log + [c], w)
    ensures c.writer.Some? ==> Wrote(log + [c], c.writer.value)
  {
    var all := log + [c];
    assert all[|log|] == c;
    forall w: nat | Wrote(log, w) ensures Wrote(all, w) {
      var i :| 0 <= i < |log| && log[i].writer == Some(w);
      assert all[i].writer == Some(w);
    }
  }

  lemma {:induction false} PhaseInvGrows(p: Phase, w: nat, log: seq<Change>, c: Change, box: Target)
    requires PhaseInv(p, w, log, box)
    ensures PhaseInv(p, w, log + [c], box)
  {
    WroteGrows(log, c);
  }

  lemma {:induction false} LinkedSnoc(start: Config, log: seq<Change>, c: Change)
    requires Linked(start, log, c.before)
    ensures Linked(start, log + [c], c.after)
  {
    assert (log + [c])[..|log|] == log;
  }

  // A change that starts from the stored configuration extends the chain.
  lemma {:induction false} AppendKeepsInv(s: State, c: Change)
    requires Inv(s) && c.before == s.config && IsRecord(c, s.box, s.jobs)
    ensures Inv(s.(config := c.after, log := s.log + [c]))
  {
    hide IsRecord, PhaseInv, Linked;
    LinkedSnoc(s.start, s.log, c);
    forall w | 0 <= w < |s.phases| ensures PhaseInv(s.phases[w], w, s.log + [c], s.box) {
      PhaseInvGrows(s.phases[w], w, s.log, c, s.box);
    }
  }

  lemma {:induction false} PhaseKeepsInv(s: State, w: nat, p: Phase)
    requires Inv(s) && w < |s.phases| && PhaseInv(p, w, s.log, s.box)
    ensures Inv(s.(phases := s.phases[w := p]))
  {
    hide IsRecord, PhaseInv, Linked;
  }

  lemma {:induction false} UpdateKeepsInv(s: State, w: nat, outcome: Outcome)
    requires Inv(s) && w < |s.phases| && s.phases[w].Holding?
    requires Next(s, Update(w, outcome)).Some?
    ensures Inv(Next(s, Update(w, outcome)).value)
  {
    hide Linked, Updated, Readable, Wrote;
    var held := s.phases[w];
    assert PhaseInv(held, w, s.log, s.box);
    if held.seen != s.config || outcome == Refused {
      PhaseKeepsInv(s, w, Failed(held.left));
    } else {
      var c := Change(s.config, Updated(s.config, s.box, s.jobs[w]), Some(w));
      AppendKeepsInv(s, c);
      WroteGrows(s.log, c);
      var p := if outcome == Replied then Ended(true) else Failed(held.left);
      PhaseKeepsInv(s.(config := c.after, log := s.log + [c]), w, p);
    }
  }

  lemma {:induction false} StepKeepsInv(s: State, step: Step)
    requires Inv(s)
    requires step.ReadOk? ==> step.digestShown
    requires Next(s, step).Some?
    ensures Inv(Next(s, step).value)
  {
    hide Linked, Updated, Readable;
    match step
    case ReadOk(w, digestShown) =>
      PhaseKeepsInv(s, w, if Readable(s.config, s.box).Failure? then Ended(false)
                          else Holding(s.phases[w].left, s.config, Some(s.config)));
    case ReadFailed(w) =>
      PhaseKeepsInv(s, w, Failed(s.phases[w].left));
    case Update(w, outcome) =>
      UpdateKeepsInv(s, w, outcome);
    case Edit(after) =>
      AppendKeepsInv(s, Change(s.config, after, None));
  }

  lemma {:induction false} StepKeepsJobs(s: State, step: Step)
    requires |s.phases| == |s.jobs| && Next(s, step).Some?
    ensures var t := Next(s, step).value; t.box == s.box && t.start == s.start && t.jobs == s.jobs
  {
    hide Updated, Readable;
  }

  lemma {:induction false} RunsKeepInv(s: State, steps: seq<Step>, t: State)
    requires Inv(s) && DigestsShown(steps) && Runs(s, steps, t)
    ensures Inv(t)
    ensures t.box == s.box && t.start == s.start && t.jobs == s.jobs
    decreases |steps|
  {
    if steps != [] {
      StepKeepsInv(s, steps[0]);
      StepKeepsJobs(s, steps[0]);
      RunsKeepInv(Next(s, steps[0]).value, steps[1..], t);
    }
  }

  // What the recorded jobs alone make of the metadata, in the order of the log.
  function Replay(m: Metadata, log: seq<Change>, jobs: seq<Job>): Metadata {
    if log == [] then m
    else
      var rest := Replay(m, log[..|log| - 1], jobs);
      var writer := log[|log| - 1].writer;
      if writer.Some? && writer.value < |jobs| then Record(rest, jobs[writer.value]) else rest
  }

  // The last writer in the log that recorded recipe k.
  function LastFor(log: seq<Change>, jobs: seq<Job>, k: string): (w: Option<nat>)
    ensures w.Some? ==> w.value < |jobs| && jobs[w.value].entry.id == k
  {
    if log == [] then None
    else
      var writer := log[|log| - 1].writer;
      if writer.Some? && writer.value < |jobs| && jobs[writer.value].entry.id == k then writer
      else LastFor(log[..|log| - 1], jobs, k)
  }

  ghost predicate NoEdits(log: seq<Change>) {
    forall i :: 0 <= i < |log| ==> log[i].writer.Some?
  }

  lemma {:induction false} ReplayIsStored(start: Config, log: seq<Change>, end: Config, box: Target, jobs: seq<Job>)
    requires Linked(start, log, end) && NoEdits(log)
    requires forall i :: 0 <= i < |log| ==> IsRecord(log[i], box, jobs)
    requires Readable(start, box).Success?
    ensures Readable(end, box) == Success(Replay(Readable(start, box).value, log, jobs))
    ensures end.rest == start.rest && end.description.Some? && end.description.value.Marked?
    ensures end.description.value.notes == start.description.value.notes
  {
    if log != [] {
      var front, last := log[..|log| - 1], log[|log| - 1];
      assert forall i :: 0 <= i < |front| ==> front[i] == log[i];
      ReplayIsStored(start, front, last.before, box, jobs);
    }
  }

  lemma {:induction false} ReplayLookup(m: Metadata, log: seq<Change>, jobs: seq<Job>, k: string)
    ensures var w := LastFor(log, jobs, k);
            Lookup(Replay(m, log, jobs), k) == if w.Some? then Some(jobs[w.value].entry) else Lookup(m, k)
  {
    if log != [] {
      var front, writer := log[..|log| - 1], log[|log| - 1].writer;
      ReplayLookup(m, front, jobs, k);
      if writer.Some? && writer.value < |jobs| {
        RecordLookup(Replay(m, front, jobs), jobs[writer.value], k);
      }
    }
  }

  ghost predicate SameRest(m: Metadata, n: Metadata) {
    m.id == n.id && m.vmid == n.vmid && m.image == n.image && m.snapshot == n.snapshot && m.node == n.node
  }

  lemma {:induction false} ReplayKeepsRest(m: Metadata, log: seq<Change>, jobs: seq<Job>)
    ensures SameRest(Replay(m, log, jobs), m)
  {
    hide Record;
    if log != [] {
      var front, writer := log[..|log| - 1], log[|log| - 1].writer;
      ReplayKeepsRest(m, front, jobs);
      if writer.Some? && writer.value < |jobs| {
        RecordKeepsRest(Replay(m, front, jobs), jobs[writer.value]);
      }
    }
  }

  ghost predicate Provided(log: seq<Change>, jobs: seq<Job>, c: string) {
    exists w: nat :: Wrote(log, w) && w < |jobs| && jobs[w].entry.result == SUCCESS && c in jobs[w].capabilities
  }

  lemma {:induction false} WroteSnoc(log: seq<Change>, w: nat)
    requires log != []
    ensures Wrote(log, w) <==> Wrote(log[..|log| - 1], w) || log[|log| - 1].writer == Some(w)
  {
    WroteGrows(log[..|log| - 1], log[|log| - 1]);
    assert log == log[..|log| - 1] + [log[|log| - 1]];
    if Wrote(log, w) {
      var i :| 0 <= i < |log| && log[i].writer == Some(w);
      if i < |log| - 1 {
        assert log[..|log| - 1][i].writer == Some(w);
      }
    }
  }

  lemma {:induction false} ReplayCapabilities(m: Metadata, log: seq<Change>, jobs: seq<Job>, c: string)
    ensures c in Replay(m, log, jobs).capabilities <==> c in m.capabilities || Provided(log, jobs, c)
  {
    if log != [] {
      var front, writer := log[..|log| - 1], log[|log| - 1].writer;
      ReplayCapabilities(m, front, jobs, c);
      forall w: nat ensures Wrote(log, w) <==> Wrote(front, w) || writer == Some(w) {
        WroteSnoc(log, w);
      }
      if writer.Some? && writer.value < |jobs| {
        RecordCapabilities(Replay(m, front, jobs), jobs[writer.value], c);
      }
      assert Provided(front, jobs, c) ==> Provided(log, jobs, c);
      if Provided(log, jobs, c) {
        var w: nat :| Wrote(log, w) && w < |jobs| && jobs[w].entry.result == SUCCESS && c in jobs[w].capabilities;
        assert writer == Some(w) || Wrote(front, w);
      }
    }
  }

  lemma {:induction false} LastForFound(log: seq<Change>, jobs: seq<Job>, w: nat)
    requires Wrote(log, w) && w < |jobs|
    ensures LastFor(log, jobs, jobs[w].entry.id).Some?
    ensures Wrote(log, LastFor(log, jobs, jobs[w].entry.id).value)
  {
    WroteSnoc(log, w);
    var writer := log[|log| - 1].writer;
    if writer.Some? && writer.value < |jobs| && jobs[writer.value].entry.id == jobs[w].entry.id {
      WroteSnoc(log, writer.value);
    } else {
      LastForFound(log[..|log| - 1], jobs, w);
      WroteSnoc(log, LastFor(log, jobs, jobs[w].entry.id).value);
    }
  }

  // Every accepted write of every run is the writer's record applied to the
  // metadata stored immediately before it, and writes form one unbroken chain.
  lemma {:induction false} AcceptedWritesAreRecords(box: Target, start: Config, jobs: seq<Job>, steps: seq<Step>,
                                                    t: State)
    requires Runs(Start(box, start, jobs), steps, t) && DigestsShown(steps)
    ensures Linked(start, t.log, t.config)
    ensures forall i :: 0 <= i < |t.log| ==> IsRecord(t.log[i], box, jobs)
    ensures forall w :: 0 <= w < |t.phases| && t.phases[w] == Ended(true) ==> Wrote(t.log, w)
  {
    RunsKeepInv(Start(box, start, jobs), steps, t);
  }

  // Without other edits, no update is lost: the stored metadata holds, for every
  // recipe, the entry of the last writer that recorded it, every recipe nobody
  // recorded is as before, and a capability is present exactly when it was there
  // or a recorded success provides it. Everything else is untouched.
  lemma {:induction false} NoLostUpdate(box: Target, start: Config, jobs: seq<Job>, steps: seq<Step>, t: State)
    requires Runs(Start(box, start, jobs), steps, t) && DigestsShown(steps)
    requires NoEdits(t.log)
    requires Readable(start, box).Success?
    ensures Readable(t.config, box).Success? && |t.phases| == |jobs|
    ensures t.config.rest == start.rest && t.config.description.value.notes == start.description.value.notes
    ensures var before, after := Readable(start, box).value, Readable(t.config, box).value;
            && (forall k :: var w := LastFor(t.log, jobs, k);
                  Lookup(after, k) == if w.Some? then Some(jobs[w.value].entry) else Lookup(before, k))
            && (forall c :: c in after.capabilities <==> c in before.capabilities || Provided(t.log, jobs, c))
            && SameRest(after, before)
    ensures forall w :: 0 <= w < |jobs| && t.phases[w] == Ended(true) ==>
              var last := LastFor(t.log, jobs, jobs[w].entry.id);
              && last.Some? && Wrote(t.log, last.value)
              && Lookup(Readable(t.config, box).value, jobs[w].entry.id) == Some(jobs[last.value].entry)
  {
    RunsKeepInv(Start(box, start, jobs), steps, t);
    ReplayIsStored(start, t.log, t.config, box, jobs);
    var before := Readable(start, box).value;
    ReplayKeepsRest(before, t.log, jobs);
    forall k {
      ReplayLookup(before, t.log, jobs, k);
    }
    forall c {
      ReplayCapabilities(before, t.log, jobs, c);
    }
    forall w | 0 <= w < |jobs| && t.phases[w] == Ended(true)
      ensures var last := LastFor(t.log, jobs, jobs[w].entry.id);
              && last.Some? && Wrote(t.log, last.value)
              && Lookup(Readable(t.config, box).value, jobs[w].entry.id) == Some(jobs[last.value].entry)
    {
      LastForFound(t.log, jobs, w);
      ReplayLookup(before, t.log, jobs, jobs[w].entry.id);
    }
  }

  // A writer whose turn has come succeeds when nobody interferes: from any state it can
  // read and then write its record, and is told so.
  lemma {:induction false} WriterCanRecord(s: State, w: nat) returns (steps: seq<Step>, t: State)
    requires |s.phases| == |s.jobs| && w < |s.phases| && s.phases[w].Ready? && Readable(s.config, s.box).Success?
    ensures Runs(s, steps, t) && DigestsShown(steps)
    ensures t.phases == s.phases[w := Ended(true)] && t.jobs == s.jobs && t.box == s.box
    ensures t.log == s.log + [Change(s.config, t.config, Some(w))]
    ensures Readable(t.config, s.box).Success?
    ensures Lookup(Readable(t.config, s.box).value, s.jobs[w].entry.id) == Some(s.jobs[w].entry)
  {
    hide Record, Lookup;
    steps := [ReadOk(w, true), Update(w, Replied)];
    var m := Next(s, steps[0]).value;
    t := Next(m, steps[1]).value;
    assert steps[1..][1..] == [] && Runs(t, [], t);
    assert Runs(m, steps[1..], t);
    RecordLookup(Readable(s.config, s.box).value, s.jobs[w], s.jobs[w].entry.id);
  }

  lemma {:induction false} RunsOn(s: State, a: seq<Step>, m: State, b: seq<Step>, t: State)
    requires |s.phases| == |s.jobs| && |m.phases| == |m.jobs| && Runs(s, a, m) && Runs(m, b, t)
    ensures Runs(s, a + b, t)
    decreases |a|
  {
    hide Next;
    if a == [] {
      assert a + b == b;
    } else {
      assert (a + b)[0] == a[0] && (a + b)[1..] == a[1..] + b;
      RunsOn(Next(s, a[0]).value, a[1..], m, b, t);
    }
  }

  // Two attempts may fail and the third still succeed; a third failure is the last.
  lemma {:induction false} ThreeAttempts(s: State, w: nat) returns (steps: seq<Step>, t: State, u: State)
    requires |s.phases| == |s.jobs| && w < |s.phases| && s.phases[w] == Ready(3) && Readable(s.config, s.box).Success?
    ensures Runs(s, [ReadFailed(w), ReadFailed(w)] + steps, t) && t.phases == s.phases[w := Ended(true)]
    ensures Runs(s, [ReadFailed(w), ReadFailed(w)] + [ReadFailed(w)], u) && u.phases == s.phases[w := Ended(false)]
    ensures u.config == s.config && u.log == s.log
  {
    var two := [ReadFailed(w), ReadFailed(w)];
    var m := Next(s, two[0]).value;
    var n := Next(m, two[1]).value;
    u := Next(n, ReadFailed(w)).value;
    hide Next;
    assert Runs(n, [], n) && Runs(u, [], u);
    assert two[1..][1..] == [] && two[1..][0] == two[1];
    assert Runs(m, two[1..], n);
    assert Runs(s, two, n);
    steps, t := WriterCanRecord(n, w);
    RunsOn(s, two, n, steps, t);
    assert [ReadFailed(w)][1..] == [];
    RunsOn(s, two, n, [ReadFailed(w)], u);
  }

  // So any number of writers can all record their work, one after the other.
  lemma {:induction false} AllCanRecord(s: State, w: nat) returns (steps: seq<Step>, t: State)
    requires |s.phases| == |s.jobs| && w <= |s.phases| && Readable(s.config, s.box).Success?
    requires forall v :: w <= v < |s.phases| ==> s.phases[v].Ready?
    ensures Runs(s, steps, t) && DigestsShown(steps)
    ensures |t.phases| == |s.phases| && forall v :: w <= v < |t.phases| ==> t.phases[v] == Ended(true)
    ensures forall v :: 0 <= v < w ==> t.phases[v] == s.phases[v]
    ensures NoEdits(s.log) ==> NoEdits(t.log)
    decreases |s.phases| - w
  {
    hide Next;
    if w == |s.phases| {
      steps, t := [], s;
    } else {
      var first, m := WriterCanRecord(s, w);
      var rest;
      rest, t := AllCanRecord(m, w + 1);
      RunsOn(s, first, m, rest, t);
      steps := first + rest;
    }
  }

  // The digest is what makes this so: when one writer's read carried none, its write
  // cannot be refused, and another writer that had its digest and was told it succeeded
  // may find its entry gone although nobody else edited the configuration.
  lemma {:induction false} MissingDigestLosesUpdate(box: Target, a: Job, b: Job)
    returns (start: Config, steps: seq<Step>, t: State)
    requires a.entry.id != b.entry.id
    ensures Runs(Start(box, start, [a, b]), steps, t) && NoEdits(t.log)
    ensures forall i :: 0 <= i < |steps| && steps[i].ReadOk? && steps[i].w != 1 ==> steps[i].digestShown
    ensures t.phases == [Ended(true), Ended(true)]
    ensures Readable(t.config, box).Success? && Lookup(Readable(t.config, box).value, a.entry.id) == None
  {
    hide Record, Runs, NoEdits, Next;
    var m := Metadata(box.id, box.vmid, None, None, None, [], []);
    start := Config(Some(Marked("", m)), "");
    steps, t := Race(box, start, a, b);
    RecordLookup(m, b, a.entry.id);
    assert Readable(t.config, box) == Success(Record(m, b));
    assert Lookup(m, a.entry.id) == None;
  }

  // Both writers read, then both write; only the second one's read showed no digest.
  lemma {:induction false} Race(box: Target, start: Config, a: Job, b: Job) returns (steps: seq<Step>, t: State)
    requires Readable(start, box).Success?
    ensures Runs(Start(box, start, [a, b]), steps, t) && NoEdits(t.log)
    ensures forall i :: 0 <= i < |steps| && steps[i].ReadOk? && steps[i].w != 1 ==> steps[i].digestShown
    ensures t.phases == [Ended(true), Ended(true)] && t.config == Updated(start, box, b)
  {
    hide Record, Runs, NoEdits, Readable, Updated;
    var s0 := Start(box, start, [a, b]);
    steps := [ReadOk(0, true), ReadOk(1, false), Update(0, Replied), Update(1, Replied)];
    var s1 := Next(s0, steps[0]).value;
    var s2 := Next(s1, steps[1]).value;
    var s3 := Next(s2, steps[2]).value;
    t := Next(s3, steps[3]).value;
    FourSteps(s0, s1, s2, s3, t, steps);
    TwoWrites(t.log);
  }

  lemma TwoWrites(log: seq<Change>)
    requires |log| == 2 && log[0].writer.Some? && log[1].writer.Some?
    ensures NoEdits(log)
  {
  }

  lemma {:induction false} FourSteps(s0: State, s1: State, s2: State, s3: State, t: State, steps: seq<Step>)
    requires |s0.phases| == |s0.jobs| && |s1.phases| == |s1.jobs| && |s2.phases| == |s2.jobs| && |s3.phases| == |s3.jobs|
    requires |steps| == 4
    requires Next(s0, steps[0]) == Some(s1) && Next(s1, steps[1]) == Some(s2)
    requires Next(s2, steps[2]) == Some(s3) && Next(s3, steps[3]) == Some(t)
    ensures Runs(s0, steps, t)
  {
    hide Next;
    var rest := steps[1..][1..][1..];
    assert rest[0] == steps[3] && rest[1..] == [];
    assert steps[1..][1..][0] == steps[2];
    assert Runs(t, [], t);
    assert Runs(s3, rest, t);
    assert Runs(s2, steps[1..][1..], t);
    assert Runs(s1, steps[1..], t);
  }
}

// The writer's retry loop, run against a configuration others may edit between its
// reads and its writes.
module ProvenanceWriter {
  import opened Common
  import opened StableSort
  import opened RecipeRecord
  import opened Provenance

  // What the surroundings do during one attempt: whether the read fails, what others
  // store between the read and the update, and how the update is answered.
  datatype Turn = Turn(readFails: bool, edits: seq<Config>, outcome: Outcome)

  class Pve {
    const start: Config
    var config: Config
    ghost var log: seq<Change>

    ghost predicate Valid()
      reads this
    {
      Linked(start, log, config)
    }

    constructor (stored: Config)
      ensures Valid() && config == stored && log == []
    {
      start, config, log := stored, stored, [];
    }

    method Store(after: Config, ghost writer: Option<nat>)
      requires Valid()
      modifies this
      ensures Valid() && config == after
      ensures log == old(log) + [Change(old(config), after, writer)]
    {
      log := log + [Change(config, after, writer)];
      assert log[..|log| - 1] == old(log);
      config := after;
    }

    method EditAll(edits: seq<Config>)
      requires Valid()
      modifies this
      ensures Valid() && |log| == |old(log)| + |edits| && old(log) <= log
      ensures forall i :: |old(log)| <= i < |log| ==> log[i].writer == None
      ensures edits == [] ==> config == old(config)
    {
      for k := 0 to |edits|
        invariant Valid() && |log| == |old(log)| + k && old(log) <= log
        invariant forall i :: |old(log)| <= i < |log| ==> log[i].writer == None
        invariant k == 0 ==> config == old(config)
      {
        Store(edits[k], None);
      }
    }

    // A stale digest is refused; a reply can be lost after the change was made.
    method UpdateConfig(digest: Config, after: Config, outcome: Outcome) returns (replied: bool)
      requires Valid()
      modifies this
      ensures Valid()
      ensures var accepted := digest == old(config) && outcome != Refused;
              && log == (if accepted then old(log) + [Change(old(config), after, Some(0))] else old(log))
              && config == (if accepted then after else old(config))
              && (replied <==> accepted && outcome == Replied)
    {
      if digest != config || outcome == Refused {
        return false;
      }
      Store(after, Some(0));
      replied := outcome == Replied;
    }
  }

  // The in-place edit of the metadata, proved to be Record.
  method Amend(metadata: Metadata, job: Job) returns (r: Metadata)
    ensures r == Record(metadata, job)
  {
    var recipes, capabilities := metadata.recipes, metadata.capabilities;
    var i := 0;
    while i < |recipes| && recipes[i].id != job.entry.id
      invariant 0 <= i <= |recipes|
      invariant forall j :: 0 <= j < i ==> recipes[j].id != job.entry.id
    {
      i := i + 1;
    }
    assert i == FirstIndex(recipes, job.entry.id);
    if i < |recipes| {
      recipes := recipes[i := job.entry];
    } else {
      recipes := recipes + [job.entry];
    }
    if job.entry.result == SUCCESS {
      for k := 0 to |job.capabilities|
        invariant AddMissing(capabilities, job.capabilities[k..]) ==
                  AddMissing(metadata.capabilities, job.capabilities)
      {
        assert job.capabilities[k..][1..] == job.capabilities[k + 1..];
        if job.capabilities[k] !in capabilities {
          capabilities := capabilities + [job.capabilities[k]];
        }
      }
    }
    r := metadata.(recipes := Sort(recipes, EntryKey), capabilities := Sort(capabilities, Itself));
  }

  // Whatever others do meanwhile: each write of this call is its record applied to the
  // metadata stored right then; success means the entry is stored; a fault in the
  // metadata is reported with the metadata left as found; and retries run out only when
  // no attempt went undisturbed.
  method RecordRecipeProvenance(pve: Pve, box: Target, job: Job, turns: seq<Turn>) returns (r: Result<(), Fault>)
    requires pve.Valid() && |turns| == 3
    modifies pve
    ensures pve.Valid() && old(pve.log) <= pve.log
    ensures forall i :: |old(pve.log)| <= i < |pve.log| ==> IsRecord(pve.log[i], box, [job])
    ensures r.Success? ==>
              && |pve.log| > |old(pve.log)| && pve.log[|pve.log| - 1].writer == Some(0)
              && Readable(pve.config, box).Success?
              && Lookup(Readable(pve.config, box).value, job.entry.id) == Some(job.entry)
              && (job.entry.result == SUCCESS ==>
                    forall c :: c in job.capabilities ==> c in Readable(pve.config, box).value.capabilities)
    ensures r.Failure? && r.error != Retries ==> Readable(pve.config, box) == Failure(r.error)
    ensures r == Failure(Retries) ==>
              forall k :: 0 <= k < ATTEMPTS ==>
                turns[k].readFails || turns[k].edits != [] || turns[k].outcome != Replied
  {
    hide Record, Lookup, Linked;
    ghost var before := pve.log;
    for attempt := 0 to ATTEMPTS
      invariant pve.Valid() && before <= pve.log
      invariant forall i :: |before| <= i < |pve.log| ==> IsRecord(pve.log[i], box, [job])
      invariant forall k :: 0 <= k < attempt ==>
                  turns[k].readFails || turns[k].edits != [] || turns[k].outcome != Replied
    {
      if turns[attempt].readFails {
        continue;
      }
      var seen := pve.config;
      var readable := Readable(seen, box);
      if readable.Failure? {
        return Failure(readable.error);
      }
      var metadata := Amend(readable.value, job);
      var after := seen.(description := Some(Preserve(seen.description.value, metadata)));
      pve.EditAll(turns[attempt].edits);
      var replied := pve.UpdateConfig(seen, after, turns[attempt].outcome);
      if replied {
        RecordLookup(readable.value, job, job.entry.id);
        forall c | job.entry.result == SUCCESS && c in job.capabilities
          ensures c in metadata.capabilities
        {
          RecordCapabilities(readable.value, job, c);
        }
        return Success(());
      }
    }
    r := Failure(Retries);
  }
}
