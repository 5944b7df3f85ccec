// Collecting a local directory for an upload: the walk follows symbolic links and stops
// at a link that leads back to a directory it is inside of.
module DirectoryWalk {
  import opened Common
  import opened StringOrder
  import opened StableSort

  const LIMIT: nat := 67108864

  // Directories are known by their canonical paths, here numbers.
  type Canonical = nat

  // What following an entry's links leads to: a directory (None when its path cannot be
  // resolved), a file with its size and mode (None when it cannot be read), something
  // special, or an error.
  datatype Kind =
    | Directory(at: Option<Canonical>)
    | Regular(size: nat, mode: Option<nat>)
    | Special
    | Dangling

  datatype Entry = Entry(name: string, kind: Kind)

  // A file system at rest: the entries of each directory, None when it cannot be read.
  type Tree = map<Canonical, Option<seq<Entry>>>

  type Path = seq<string>

  datatype LocalFile = LocalFile(path: Path, mode: nat)

  datatype Found = Found(directories: seq<Path>, files: seq<LocalFile>)

  datatype Why = Unresolved | Cyclic | Unreadable | BadMetadata | TooLarge | BadMode | SpecialFile

  datatype Fault = Fault(path: Path, why: Why)

  // Every directory entry leads to a directory of the file system.
  ghost predicate Closed(tree: Tree) {
    forall c, i ::
      c in tree && tree[c].Some? && 0 <= i < |tree[c].value| && tree[c].value[i].kind.Directory?
      && tree[c].value[i].kind.at.Some? ==>
        tree[c].value[i].kind.at.value in tree
  }

  function EntryName(e: Entry): string {
    e.name
  }

  // The directories the walk is not inside of.
  function Free(tree: Tree, ancestors: seq<Canonical>): set<Canonical> {
    set c | c in tree && c !in ancestors
  }

  lemma FewerFree(tree: Tree, ancestors: seq<Canonical>, c: Canonical)
    requires c in tree && c !in ancestors
    ensures Free(tree, ancestors + [c]) < Free(tree, ancestors)
  {
    assert c in Free(tree, ancestors) && c !in Free(tree, ancestors + [c]);
  }

  function Combine(a: Found, b: Found): Found {
    Found(a.directories + b.directories, a.files + b.files)
  }

  ghost predicate ClosedEntries(tree: Tree, entries: seq<Entry>) {
    forall i :: 0 <= i < |entries| && entries[i].kind.Directory? && entries[i].kind.at.Some? ==>
      entries[i].kind.at.value in tree
  }

  // The walk below the directory that the path `rel` leads to. The directories it is
  // inside of stay distinct, so each step down leaves fewer of them.
  ghost function WalkDirectory(tree: Tree, at: Option<Canonical>, rel: Path, ancestors: seq<Canonical>)
    : Result<Found, Fault>
    requires Closed(tree) && (at.Some? ==> at.value in tree)
    decreases Free(tree, ancestors), 0, 0
  {
    if at.None? then Failure(Fault(rel, Unresolved))
    else if at.value in ancestors then Failure(Fault(rel, Cyclic))
    else
      var inside := ancestors + [at.value];
      FewerFree(tree, ancestors, at.value);
      if tree[at.value].None? then Failure(Fault(rel, Unreadable))
      else
        var entries := Sort(tree[at.value].value, EntryName);
        SortedStaysClosed(tree, at.value);
        WalkEntries(tree, entries, rel, inside)
  }

  ghost function WalkEntry(tree: Tree, entry: Entry, path: Path, ancestors: seq<Canonical>): Result<Found, Fault>
    requires Closed(tree) && ClosedEntries(tree, [entry])
    decreases Free(tree, ancestors), 1, 0
  {
    match entry.kind
    case Directory(at) =>
      assert [entry][0] == entry;
      var below := WalkDirectory(tree, at, path, ancestors);
      if below.Failure? then below else Success(Combine(Found([path], []), below.value))
    case Regular(size, mode) =>
      if size > LIMIT then Failure(Fault(path, TooLarge))
      else if mode.None? then Failure(Fault(path, BadMode))
      else Success(Found([], [LocalFile(path, mode.value)]))
    case Special => Failure(Fault(path, SpecialFile))
    case Dangling => Failure(Fault(path, BadMetadata))
  }

  ghost function WalkEntries(tree: Tree, entries: seq<Entry>, rel: Path, ancestors: seq<Canonical>)
    : Result<Found, Fault>
    requires Closed(tree) && ClosedEntries(tree, entries)
    decreases Free(tree, ancestors), 2, |entries|
  {
    if entries == [] then Success(Found([], []))
    else
      var here := WalkEntry(tree, entries[0], rel + [entries[0].name], ancestors);
      if here.Failure? then here
      else
        var rest := WalkEntries(tree, entries[1..], rel, ancestors);
        if rest.Failure? then rest else Success(Combine(here.value, rest.value))
  }

  lemma SortedStaysClosed(tree: Tree, c: Canonical)
    requires Closed(tree) && c in tree && tree[c].Some?
    ensures ClosedEntries(tree, Sort(tree[c].value, EntryName))
  {
    var entries := tree[c].value;
    SortMembers(entries, EntryName);
    forall i | 0 <= i < |entries|
      ensures ClosedEntries(tree, [Sort(entries, EntryName)[i]])
    {
      assert Sort(entries, EntryName)[i] in entries;
    }
    forall i | 0 <= i < |Sort(entries, EntryName)|
      ensures var e := Sort(entries, EntryName)[i]; e.kind.Directory? && e.kind.at.Some? ==> e.kind.at.value in tree
    {
      var one := [Sort(entries, EntryName)[i]];
      assert ClosedEntries(tree, one);
      assert one[0] == Sort(entries, EntryName)[i];
    }
  }

  // Following a relative path from a directory, link by link, leads to this.
  ghost predicate Leads(tree: Tree, c: Canonical, path: Path, kind: Kind)
    decreases |path|, 0
  {
    c in tree &&
    if path == [] then kind == Directory(Some(c))
    else tree[c].Some? && exists e :: e in tree[c].value && e.name == path[0] && LeadsOn(tree, e, path[1..], kind)
  }

  ghost predicate LeadsOn(tree: Tree, e: Entry, rest: Path, kind: Kind)
    decreases |rest|, 1
  {
    if rest == [] then kind == e.kind
    else e.kind.Directory? && e.kind.at.Some? && Leads(tree, e.kind.at.value, rest, kind)
  }

  // What an upload can take.
  ghost predicate Fine(tree: Tree, kind: Kind) {
    match kind
    case Directory(at) => at.Some? && at.value in tree && tree[at.value].Some?
    case Regular(size, mode) => size <= LIMIT && mode.Some?
    case _ => false
  }

  // Nothing that can be reached is unfit, and no directory that can be reached leads
  // back to itself.
  ghost predicate Clean(tree: Tree, root: Canonical) {
    && (forall q, k :: Leads(tree, root, q, k) ==> Fine(tree, k))
    && (forall q, d, r :: Leads(tree, root, q, Directory(Some(d))) && r != [] ==>
          !Leads(tree, d, r, Directory(Some(d))))
  }

  lemma LeadsThrough(tree: Tree, c: Canonical, e: Entry, rest: Path, kind: Kind)
    requires Closed(tree) && c in tree && tree[c].Some? && e in tree[c].value
    requires if rest == [] then kind == e.kind
             else e.kind.Directory? && e.kind.at.Some? && Leads(tree, e.kind.at.value, rest, kind)
    ensures Leads(tree, c, [e.name] + rest, kind)
  {
    var path := [e.name] + rest;
    assert path[0] == e.name && path[1..] == rest;
    assert LeadsOn(tree, e, rest, kind);
  }

  // An entry of a walk that succeeds is fit, and so is everything below it; what it
  // contributes is part of the result.
  lemma {:induction false} EntrySucceeds(tree: Tree, entries: seq<Entry>, rel: Path, ancestors: seq<Canonical>, e: Entry)
    requires Closed(tree) && ClosedEntries(tree, entries)
    requires WalkEntries(tree, entries, rel, ancestors).Success? && e in entries
    ensures e.kind.Directory? ==>
              && (e.kind.at.Some? ==> e.kind.at.value in tree)
              && WalkDirectory(tree, e.kind.at, rel + [e.name], ancestors).Success?
    ensures !e.kind.Special? && !e.kind.Dangling? && (e.kind.Regular? ==> e.kind.size <= LIMIT && e.kind.mode.Some?)
    ensures var found := WalkEntries(tree, entries, rel, ancestors).value;
            && (e.kind.Regular? ==> LocalFile(rel + [e.name], e.kind.mode.value) in found.files)
            && (e.kind.Directory? ==>
                  var below := WalkDirectory(tree, e.kind.at, rel + [e.name], ancestors).value;
                  && rel + [e.name] in found.directories
                  && (forall p :: p in below.directories ==> p in found.directories)
                  && (forall f :: f in below.files ==> f in found.files))
    decreases |entries|
  {
    assert entries == [entries[0]] + entries[1..];
    if e != entries[0] {
      assert forall i :: 0 <= i < |entries[1..]| ==> entries[1..][i] == entries[i + 1];
      EntrySucceeds(tree, entries[1..], rel, ancestors, e);
    }
  }

  // A walk that succeeds could read the directory, was not inside of it before, and
  // succeeded for each of its entries.
  lemma {:induction false} DirectorySucceeds(tree: Tree, c: Canonical, rel: Path, ancestors: seq<Canonical>)
    requires Closed(tree) && c in tree && WalkDirectory(tree, Some(c), rel, ancestors).Success?
    ensures c !in ancestors && tree[c].Some?
    ensures ClosedEntries(tree, Sort(tree[c].value, EntryName))
    ensures forall e :: e in tree[c].value ==> e in Sort(tree[c].value, EntryName)
    ensures forall e :: e in Sort(tree[c].value, EntryName) ==> e in tree[c].value
    ensures WalkDirectory(tree, Some(c), rel, ancestors)
            == WalkEntries(tree, Sort(tree[c].value, EntryName), rel, ancestors + [c])
  {
    SortMembers(tree[c].value, EntryName);
    SortedStaysClosed(tree, c);
  }

  // Everything below a directory whose walk succeeds is fit, is none of the directories
  // the walk is inside of, and is not the directory itself again; it is also listed.
  lemma {:induction false} BelowIsFine(tree: Tree, c: Canonical, rel: Path, ancestors: seq<Canonical>, q: Path, k: Kind)
    returns (inside: seq<Canonical>)
    requires Closed(tree) && c in tree
    requires WalkDirectory(tree, Some(c), rel, ancestors).Success? && Leads(tree, c, q, k)
    ensures Fine(tree, k)
    ensures k.Directory? ==>
              && k.at.value !in ancestors && (q != [] ==> k.at.value != c)
              && WalkDirectory(tree, k.at, rel + q, inside).Success?
    ensures var found := WalkDirectory(tree, Some(c), rel, ancestors).value;
            && (k.Directory? && q != [] ==> rel + q in found.directories)
            && (k.Regular? ==> LocalFile(rel + q, k.mode.value) in found.files)
    decreases |q|
  {
    hide WalkDirectory, WalkEntries, Sort, ClosedEntries, Closed, Free;
    DirectorySucceeds(tree, c, rel, ancestors);
    inside := ancestors;
    if q == [] {
      assert rel + q == rel;
    } else {
      var e :| e in tree[c].value && e.name == q[0] && LeadsOn(tree, e, q[1..], k);
      var deeper := ancestors + [c];
      EntrySucceeds(tree, Sort(tree[c].value, EntryName), rel, deeper, e);
      var path := rel + [e.name];
      assert rel + q == path + q[1..];
      if q[1..] == [] {
        assert rel + q == path;
        if k.Directory? {
          EntryDirectoryIsFine(tree, e.kind.at, path, deeper);
          inside := deeper;
        }
      } else {
        inside := BelowIsFine(tree, e.kind.at.value, path, deeper, q[1..], k);
      }
    }
  }

  lemma EntryDirectoryIsFine(tree: Tree, at: Option<Canonical>, path: Path, ancestors: seq<Canonical>)
    requires Closed(tree) && (at.Some? ==> at.value in tree) && WalkDirectory(tree, at, path, ancestors).Success?
    ensures at.Some? && at.value !in ancestors && Fine(tree, Directory(at))
  {
  }

  // Which entry a listed path comes from.
  lemma {:induction false} ListedByEntry(tree: Tree, entries: seq<Entry>, rel: Path, ancestors: seq<Canonical>,
                                         p: Option<Path>, f: Option<LocalFile>)
    returns (e: Entry)
    requires Closed(tree) && ClosedEntries(tree, entries)
    requires WalkEntries(tree, entries, rel, ancestors).Success?
    requires p.Some? || f.Some?
    requires p.Some? ==> p.value in WalkEntries(tree, entries, rel, ancestors).value.directories
    requires p.None? ==> f.value in WalkEntries(tree, entries, rel, ancestors).value.files
    ensures e in entries
    ensures e.kind.Directory? && e.kind.at.Some? ==> e.kind.at.value in tree
    ensures p.Some? ==> e.kind.Directory?
    ensures e.kind.Directory? ==> WalkDirectory(tree, e.kind.at, rel + [e.name], ancestors).Success?
    ensures p.Some? ==>
              p.value == rel + [e.name] || p.value in WalkDirectory(tree, e.kind.at, rel + [e.name], ancestors).value.directories
    ensures p.None? ==>
              if e.kind.Directory? then f.value in WalkDirectory(tree, e.kind.at, rel + [e.name], ancestors).value.files
              else e.kind.Regular? && e.kind.mode == Some(f.value.mode) && f.value.path == rel + [e.name]
    decreases |entries|
  {
    var rest := WalkEntries(tree, entries[1..], rel, ancestors).value;
    if if p.Some? then p.value in rest.directories else f.value in rest.files {
      e := ListedByEntry(tree, entries[1..], rel, ancestors, p, f);
    } else {
      e := entries[0];
    }
  }

  // Every listed path is a path below the directory that leads to what it is listed as.
  lemma {:induction false} ListedLeads(tree: Tree, c: Canonical, rel: Path, ancestors: seq<Canonical>,
                                       p: Option<Path>, f: Option<LocalFile>)
    returns (q: Path, k: Kind)
    requires Closed(tree) && c in tree
    requires WalkDirectory(tree, Some(c), rel, ancestors).Success?
    requires p.Some? || f.Some?
    requires p.Some? ==> p.value in WalkDirectory(tree, Some(c), rel, ancestors).value.directories
    requires p.None? ==> f.value in WalkDirectory(tree, Some(c), rel, ancestors).value.files
    ensures q != [] && Leads(tree, c, q, k)
    ensures p.Some? ==> p.value == rel + q && k.Directory?
    ensures p.None? ==> f.value.path == rel + q && k.Regular? && k.mode == Some(f.value.mode)
    decreases Free(tree, ancestors)
  {
    hide WalkDirectory, WalkEntries, Sort, ClosedEntries, Closed, Leads;
    DirectorySucceeds(tree, c, rel, ancestors);
    var deeper := ancestors + [c];
    FewerFree(tree, ancestors, c);
    var e := ListedByEntry(tree, Sort(tree[c].value, EntryName), rel, deeper, p, f);
    if e.kind.Directory? {
      EntryDirectoryIsFine(tree, e.kind.at, rel + [e.name], deeper);
    }
    if (p.Some? && p.value == rel + [e.name]) || e.kind.Regular? {
      q, k := [e.name], e.kind;
      LeadsThrough(tree, c, e, [], k);
      assert [e.name] + [] == q;
      assert rel + q == rel + [e.name];
    } else {
      var below;
      below, k := ListedLeads(tree, e.kind.at.value, rel + [e.name], deeper, p, f);
      q := [e.name] + below;
      assert rel + q == (rel + [e.name]) + below;
      LeadsThrough(tree, c, e, below, k);
    }
  }

  // What is wrong at the place a fault names.
  ghost predicate Explains(tree: Tree, c: Canonical, ancestors: seq<Canonical>, why: Why, q: Path, k: Kind) {
    match why
    case Unresolved => k == Directory(None)
    case Unreadable => k.Directory? && k.at.Some? && k.at.value in tree && tree[k.at.value].None?
    case BadMetadata => k.Dangling?
    case SpecialFile => k.Special?
    case TooLarge => k.Regular? && k.size > LIMIT
    case BadMode => k.Regular? && k.mode.None?
    case Cyclic => k.Directory? && k.at.Some? && (k.at.value in ancestors || ReachedTwice(tree, c, q, k.at.value))
  }

  // The path comes through this directory before it leads to it.
  ghost predicate ReachedTwice(tree: Tree, c: Canonical, q: Path, d: Canonical) {
    exists i :: 0 <= i < |q| && Leads(tree, c, q[..i], Directory(Some(d))) && Leads(tree, d, q[i..], Directory(Some(d)))
  }

  lemma {:induction false} FailingEntry(tree: Tree, entries: seq<Entry>, rel: Path, ancestors: seq<Canonical>)
    returns (e: Entry)
    requires Closed(tree) && ClosedEntries(tree, entries)
    requires WalkEntries(tree, entries, rel, ancestors).Failure?
    ensures e in entries
    ensures e.kind.Directory? && e.kind.at.Some? ==> e.kind.at.value in tree
    ensures var fault := WalkEntries(tree, entries, rel, ancestors).error;
            if e.kind.Directory? then
              WalkDirectory(tree, e.kind.at, rel + [e.name], ancestors) == Failure(fault)
            else
              fault.path == rel + [e.name] && !fault.why.Cyclic? && Explains(tree, 0, [], fault.why, [], e.kind)
    decreases |entries|
  {
    var head := [entries[0]];
    assert entries == head + entries[1..];
    assert ClosedEntries(tree, head);
    if WalkEntries(tree, entries[1..], rel, ancestors).Failure?
       && WalkEntries(tree, entries, rel, ancestors) == WalkEntries(tree, entries[1..], rel, ancestors) {
      e := FailingEntry(tree, entries[1..], rel, ancestors);
    } else {
      e := entries[0];
    }
  }

  // A walk that fails names a path that leads to something unfit, for the reason given;
  // a cycle is a directory the walk is inside of.
  lemma {:induction false} FaultExplained(tree: Tree, c: Canonical, rel: Path, ancestors: seq<Canonical>)
    returns (q: Path, k: Kind)
    requires Closed(tree) && c in tree && WalkDirectory(tree, Some(c), rel, ancestors).Failure?
    ensures var fault := WalkDirectory(tree, Some(c), rel, ancestors).error;
            && fault.path == rel + q && Leads(tree, c, q, k)
            && Explains(tree, c, ancestors, fault.why, q, k)
    decreases Free(tree, ancestors)
  {
    if c in ancestors || tree[c].None? {
      q, k := [], Directory(Some(c));
      assert rel + [] == rel;
    } else {
      var entries := Sort(tree[c].value, EntryName);
      SortMembers(tree[c].value, EntryName);
      SortedStaysClosed(tree, c);
      FewerFree(tree, ancestors, c);
      var e := FailingEntry(tree, entries, rel, ancestors + [c]);
      q, k := FaultBelow(tree, c, rel, ancestors, e, WalkDirectory(tree, Some(c), rel, ancestors).error);
    }
  }

  lemma {:induction false} FaultBelow(tree: Tree, c: Canonical, rel: Path, ancestors: seq<Canonical>, e: Entry,
                                      fault: Fault)
    returns (q: Path, k: Kind)
    requires Closed(tree) && c in tree && tree[c].Some? && e in tree[c].value && c !in ancestors
    requires e.kind.Directory? && e.kind.at.Some? ==> e.kind.at.value in tree
    requires if e.kind.Directory? then
               WalkDirectory(tree, e.kind.at, rel + [e.name], ancestors + [c]) == Failure(fault)
             else
               fault.path == rel + [e.name] && !fault.why.Cyclic? && Explains(tree, 0, [], fault.why, [], e.kind)
    ensures fault.path == rel + q && Leads(tree, c, q, k) && Explains(tree, c, ancestors, fault.why, q, k)
    decreases Free(tree, ancestors), 0
  {
    if e.kind.Directory? && e.kind.at.Some? {
      FewerFree(tree, ancestors, c);
      var below;
      below, k := FaultExplained(tree, e.kind.at.value, rel + [e.name], ancestors + [c]);
      q := [e.name] + below;
      assert rel + q == (rel + [e.name]) + below;
      EntryLeads(tree, c, e, below, k);
      if fault.why.Cyclic? && k.at.value !in ancestors {
        CycleFromBelow(tree, c, ancestors, e, below, k.at.value);
      }
    } else {
      q, k := [e.name], e.kind;
      LeadsThrough(tree, c, e, [], k);
      assert [e.name] + [] == q;
    }
  }

  lemma EntryLeads(tree: Tree, c: Canonical, e: Entry, below: Path, k: Kind)
    requires Closed(tree) && c in tree && tree[c].Some? && e in tree[c].value
    requires e.kind.Directory? && e.kind.at.Some? && Leads(tree, e.kind.at.value, below, k)
    ensures Leads(tree, c, [e.name] + below, k)
  {
    LeadsThrough(tree, c, e, below, k);
  }

  lemma CycleFromBelow(tree: Tree, c: Canonical, ancestors: seq<Canonical>, e: Entry, below: Path, d: Canonical)
    requires Closed(tree) && c in tree && tree[c].Some? && e in tree[c].value && d !in ancestors
    requires e.kind.Directory? && e.kind.at.Some? && Leads(tree, e.kind.at.value, below, Directory(Some(d)))
    requires d in ancestors + [c] || ReachedTwice(tree, e.kind.at.value, below, d)
    ensures ReachedTwice(tree, c, [e.name] + below, d)
  {
    var q := [e.name] + below;
    EntryLeads(tree, c, e, below, Directory(Some(d)));
    if d in ancestors + [c] {
      assert d == c;
      assert q[..0] == [] && q[0..] == q;
      assert Leads(tree, c, q[..0], Directory(Some(d)));
    } else {
      var i :| 0 <= i < |below| && Leads(tree, e.kind.at.value, below[..i], Directory(Some(d)))
               && Leads(tree, d, below[i..], Directory(Some(d)));
      EntryLeads(tree, c, e, below[..i], Directory(Some(d)));
      assert q[..i + 1] == [e.name] + below[..i] && q[i + 1..] == below[i..];
    }
  }

  // The walk of any finite file system ends, and succeeds exactly when nothing unfit can
  // be reached and no directory that can be reached leads back to itself.
  lemma {:induction false} CollectDecides(tree: Tree, root: Canonical)
    requires Closed(tree) && root in tree
    ensures WalkDirectory(tree, Some(root), [], []).Success? <==> Clean(tree, root)
  {
    if WalkDirectory(tree, Some(root), [], []).Success? {
      forall q, k | Leads(tree, root, q, k) ensures Fine(tree, k) {
        var _ := BelowIsFine(tree, root, [], [], q, k);
      }
      forall q, d, r | Leads(tree, root, q, Directory(Some(d))) && r != []
        ensures !Leads(tree, d, r, Directory(Some(d)))
      {
        var inside := BelowIsFine(tree, root, [], [], q, Directory(Some(d)));
        if Leads(tree, d, r, Directory(Some(d))) {
          var _ := BelowIsFine(tree, d, [] + q, inside, r, Directory(Some(d)));
        }
      }
    } else {
      var q, k := FaultExplained(tree, root, [], []);
      var fault := WalkDirectory(tree, Some(root), [], []).error;
      if fault.why.Cyclic? {
        var d := k.at.value;
        var i :| 0 <= i < |q| && Leads(tree, root, q[..i], Directory(Some(d))) && Leads(tree, d, q[i..], Directory(Some(d)));
        assert q[i..] != [];
      }
    }
  }

  // On success the lists are exactly the relative paths that lead to a directory or to a
  // file, each file with its mode.
  lemma {:induction false} CollectListsReachable(tree: Tree, root: Canonical)
    requires Closed(tree) && root in tree
    requires WalkDirectory(tree, Some(root), [], []).Success?
    ensures var found := WalkDirectory(tree, Some(root), [], []).value;
            && (forall p :: p in found.directories <==> p != [] && exists at :: Leads(tree, root, p, Directory(at)))
            && (forall p, mode :: LocalFile(p, mode) in found.files <==>
                  exists size :: Leads(tree, root, p, Regular(size, Some(mode))))
  {
    var found := WalkDirectory(tree, Some(root), [], []).value;
    forall p
      ensures p in found.directories <==> p != [] && exists at :: Leads(tree, root, p, Directory(at))
    {
      if p in found.directories {
        var q, k := ListedLeads(tree, root, [], [], Some(p), None);
        assert [] + q == q;
        assert Leads(tree, root, p, Directory(k.at));
      }
      if p != [] && exists at :: Leads(tree, root, p, Directory(at)) {
        var at :| Leads(tree, root, p, Directory(at));
        var _ := BelowIsFine(tree, root, [], [], p, Directory(at));
        assert [] + p == p;
      }
    }
    forall p, mode
      ensures LocalFile(p, mode) in found.files <==> exists size :: Leads(tree, root, p, Regular(size, Some(mode)))
    {
      if LocalFile(p, mode) in found.files {
        var q, k := ListedLeads(tree, root, [], [], None, Some(LocalFile(p, mode)));
        assert [] + q == q;
        assert Leads(tree, root, p, Regular(k.size, Some(mode)));
      }
      if size :| Leads(tree, root, p, Regular(size, Some(mode))) {
        var _ := BelowIsFine(tree, root, [], [], p, Regular(size, Some(mode)));
        assert [] + p == p;
      }
    }
  }

  // Paths compare name by name, a path before the paths below it.
  predicate PathLe(a: Path, b: Path) {
    a == [] || (b != [] && if a[0] == b[0] then PathLe(a[1..], b[1..]) else Le(a[0], b[0]))
  }

  lemma {:induction false} BelowIsNotBefore(p: Path, name: string)
    ensures !PathLe(p + [name], p)
  {
    if p != [] {
      assert (p + [name])[1..] == p[1..] + [name];
      BelowIsNotBefore(p[1..], name);
    }
  }

  // Once the directories are sorted, whatever the sort, each one follows its parent,
  // which is the root or is listed too.
  lemma {:induction false} ParentsFirst(tree: Tree, root: Canonical, sorted: seq<Path>, i: nat)
    requires Closed(tree) && root in tree
    requires WalkDirectory(tree, Some(root), [], []).Success?
    requires multiset(sorted) == multiset(WalkDirectory(tree, Some(root), [], []).value.directories)
    requires forall j, k :: 0 <= j < k < |sorted| ==> PathLe(sorted[j], sorted[k])
    requires i < |sorted|
    ensures sorted[i] != []
    ensures |sorted[i]| > 1 ==> exists j :: 0 <= j < i && sorted[j] == sorted[i][..|sorted[i]| - 1]
  {
    hide WalkDirectory;
    var found := WalkDirectory(tree, Some(root), [], []).value;
    CollectListsReachable(tree, root);
    var p := sorted[i];
    assert p in multiset(sorted);
    assert p in multiset(found.directories);
    assert p in found.directories;
    if |p| > 1 {
      var parent := p[..|p| - 1];
      var at :| Leads(tree, root, p, Directory(at));
      var d := ParentLeads(tree, root, p, Directory(at));
      assert parent in found.directories;
      assert parent in multiset(sorted);
      var j :| 0 <= j < |sorted| && sorted[j] == parent;
      BelowIsNotBefore(parent, p[|p| - 1]);
      assert parent + [p[|p| - 1]] == p;
      assert j < i;
    }
  }

  lemma {:induction false} ParentLeads(tree: Tree, c: Canonical, p: Path, k: Kind) returns (d: Canonical)
    requires Closed(tree) && Leads(tree, c, p, k) && p != []
    ensures Leads(tree, c, p[..|p| - 1], Directory(Some(d)))
    decreases |p|
  {
    if |p| == 1 {
      d := c;
    } else {
      var e :| e in tree[c].value && e.name == p[0] && LeadsOn(tree, e, p[1..], k);
      d := ParentLeads(tree, e.kind.at.value, p[1..], k);
      EntryLeads(tree, c, e, p[1..][..|p| - 2], Directory(Some(d)));
      assert [e.name] + p[1..][..|p| - 2] == p[..|p| - 1];
    }
  }

  // No directory has two entries of one name.
  ghost predicate Named(tree: Tree) {
    forall c :: c in tree && tree[c].Some? ==> Distinct(tree[c].value, EntryName)
  }

  ghost predicate Under(found: Found, path: Path) {
    && (forall p :: p in found.directories ==> path <= p)
    && (forall f :: f in found.files ==> path <= f.path)
  }

  ghost predicate UnderSome(found: Found, rel: Path, entries: seq<Entry>) {
    && (forall p :: p in found.directories ==> exists e :: e in entries && rel + [e.name] <= p)
    && (forall f :: f in found.files ==> exists e :: e in entries && rel + [e.name] <= f.path)
  }

  ghost predicate NoRepeats(found: Found) {
    && (forall i, j :: 0 <= i < j < |found.directories| ==> found.directories[i] != found.directories[j])
    && (forall i, j :: 0 <= i < j < |found.files| ==> found.files[i].path != found.files[j].path)
  }

  lemma NextName(rel: Path, name: string, p: Path)
    requires rel + [name] <= p
    ensures rel <= p && |p| > |rel| && p[|rel|] == name
  {
    assert p[|rel|] == (rel + [name])[|rel|];
    assert forall k :: 0 <= k < |rel| ==> rel[k] == (rel + [name])[k] == p[k];
  }

  lemma UnderOne(found: Found, rel: Path, entries: seq<Entry>)
    requires UnderSome(found, rel, entries)
    ensures Under(found, rel)
    ensures forall p :: p in found.directories ==> p != rel
  {
    forall p | p in found.directories ensures rel <= p && p != rel {
      var e :| e in entries && rel + [e.name] <= p;
      NextName(rel, e.name, p);
    }
    forall f | f in found.files ensures rel <= f.path {
      var e :| e in entries && rel + [e.name] <= f.path;
      NextName(rel, e.name, f.path);
    }
  }

  // Results below entries of different names have nothing in common.
  lemma {:induction false} ApartByName(here: Found, rest: Found, rel: Path, name: string, others: seq<Entry>)
    requires Under(here, rel + [name]) && UnderSome(rest, rel, others)
    requires forall e :: e in others ==> e.name != name
    requires NoRepeats(here) && NoRepeats(rest)
    ensures NoRepeats(Combine(here, rest))
  {
    forall p | p in here.directories ensures |p| > |rel| && p[|rel|] == name {
      NextName(rel, name, p);
    }
    forall f | f in here.files ensures |f.path| > |rel| && f.path[|rel|] == name {
      NextName(rel, name, f.path);
    }
    forall p | p in rest.directories ensures |p| > |rel| && p[|rel|] != name {
      var e :| e in others && rel + [e.name] <= p;
      NextName(rel, e.name, p);
    }
    forall f | f in rest.files ensures |f.path| > |rel| && f.path[|rel|] != name {
      var e :| e in others && rel + [e.name] <= f.path;
      NextName(rel, e.name, f.path);
    }
    var all := Combine(here, rest);
    forall i, j | 0 <= i < j < |all.directories| ensures all.directories[i] != all.directories[j] {
      if i < |here.directories| <= j {
        assert all.directories[i] in here.directories && all.directories[j] in rest.directories;
      }
    }
    forall i, j | 0 <= i < j < |all.files| ensures all.files[i].path != all.files[j].path {
      if i < |here.files| <= j {
        assert all.files[i] in here.files && all.files[j] in rest.files;
      }
    }
  }

  lemma {:induction false} DirectoryRepeatsNothing(tree: Tree, at: Option<Canonical>, rel: Path, ancestors: seq<Canonical>)
    requires Closed(tree) && Named(tree) && (at.Some? ==> at.value in tree)
    requires WalkDirectory(tree, at, rel, ancestors).Success?
    ensures var found := WalkDirectory(tree, at, rel, ancestors).value;
            NoRepeats(found) && Under(found, rel) && rel !in found.directories
    decreases Free(tree, ancestors), 0, 0
  {
    var entries := Sort(tree[at.value].value, EntryName);
    DirectorySucceeds(tree, at.value, rel, ancestors);
    SortDistinct(tree[at.value].value, EntryName);
    FewerFree(tree, ancestors, at.value);
    EntriesRepeatNothing(tree, entries, rel, ancestors + [at.value]);
    UnderOne(WalkEntries(tree, entries, rel, ancestors + [at.value]).value, rel, entries);
  }

  lemma {:induction false} EntryRepeatsNothing(tree: Tree, entry: Entry, path: Path, ancestors: seq<Canonical>)
    requires Closed(tree) && Named(tree) && ClosedEntries(tree, [entry])
    requires WalkEntry(tree, entry, path, ancestors).Success?
    ensures var found := WalkEntry(tree, entry, path, ancestors).value;
            NoRepeats(found) && Under(found, path)
    decreases Free(tree, ancestors), 1, 0
  {
    assert [entry][0] == entry;
    if entry.kind.Directory? {
      DirectoryRepeatsNothing(tree, entry.kind.at, path, ancestors);
    }
  }

  lemma {:induction false} EntriesRepeatNothing(tree: Tree, entries: seq<Entry>, rel: Path, ancestors: seq<Canonical>)
    requires Closed(tree) && Named(tree) && ClosedEntries(tree, entries) && Distinct(entries, EntryName)
    requires WalkEntries(tree, entries, rel, ancestors).Success?
    ensures var found := WalkEntries(tree, entries, rel, ancestors).value;
            NoRepeats(found) && UnderSome(found, rel, entries)
    decreases Free(tree, ancestors), 2, |entries|
  {
    hide WalkEntry, NoRepeats;
    if entries == [] {
      NothingRepeats();
    } else {
      var path := rel + [entries[0].name];
      var rest := entries[1..];
      assert entries == [entries[0]] + rest;
      EntryRepeatsNothing(tree, entries[0], path, ancestors);
      EntriesRepeatNothing(tree, rest, rel, ancestors);
      forall e | e in rest ensures e.name != entries[0].name {
        var i :| 0 <= i < |rest| && rest[i] == e;
        assert EntryName(entries[0]) != EntryName(entries[i + 1]);
      }
      ApartByName(WalkEntry(tree, entries[0], path, ancestors).value, WalkEntries(tree, rest, rel, ancestors).value,
                  rel, entries[0].name, rest);
      assert forall e :: e in rest ==> e in entries;
    }
  }

  lemma NothingRepeats()
    ensures NoRepeats(Found([], []))
  {
  }

  // The recursion with its shared stack of ancestors and its two growing lists.
  class Walker {
    const tree: Tree
    var ancestors: seq<Canonical>
    var directories: seq<Path>
    var files: seq<LocalFile>

    constructor (tree: Tree)
      ensures this.tree == tree && ancestors == [] && directories == [] && files == []
    {
      this.tree := tree;
      ancestors, directories, files := [], [], [];
    }

    // The stack is as before whatever happens.
    method CollectAt(at: Option<Canonical>, rel: Path) returns (r: Result<(), Fault>)
      requires Closed(tree) && (at.Some? ==> at.value in tree)
      modifies this
      ensures ancestors == old(ancestors)
      ensures var walked := old(WalkDirectory(tree, at, rel, ancestors));
              if walked.Failure? then r == Failure(walked.error)
              else
                && r.Success?
                && directories == old(directories) + walked.value.directories
                && files == old(files) + walked.value.files
      decreases Free(tree, ancestors), 0
    {
      if at.None? {
        return Failure(Fault(rel, Unresolved));
      }
      if at.value in ancestors {
        return Failure(Fault(rel, Cyclic));
      }
      ghost var outside := ancestors;
      FewerFree(tree, ancestors, at.value);
      ancestors := ancestors + [at.value];
      if tree[at.value].None? {
        r := Failure(Fault(rel, Unreadable));
      } else {
        var entries := Sort(tree[at.value].value, EntryName);
        SortedStaysClosed(tree, at.value);
        r := CollectEntries(entries, rel);
      }
      assert ancestors[..|ancestors| - 1] == outside;
      ancestors := ancestors[..|ancestors| - 1];
    }

    method CollectEntry(entry: Entry, path: Path) returns (r: Result<(), Fault>)
      requires Closed(tree) && ClosedEntries(tree, [entry])
      modifies this
      ensures ancestors == old(ancestors)
      ensures var walked := old(WalkEntry(tree, entry, path, ancestors));
              if walked.Failure? then r == Failure(walked.error)
              else
                && r.Success?
                && directories == old(directories) + walked.value.directories
                && files == old(files) + walked.value.files
      decreases Free(tree, ancestors), 1
    {
      assert [entry][0] == entry;
      match entry.kind
      case Directory(at) =>
        directories := directories + [path];
        r := CollectAt(at, path);
      case Regular(size, mode) =>
        if size > LIMIT {
          return Failure(Fault(path, TooLarge));
        }
        if mode.None? {
          return Failure(Fault(path, BadMode));
        }
        files := files + [LocalFile(path, mode.value)];
        r := Success(());
      case Special =>
        r := Failure(Fault(path, SpecialFile));
      case Dangling =>
        r := Failure(Fault(path, BadMetadata));
    }

    method CollectEntries(entries: seq<Entry>, rel: Path) returns (r: Result<(), Fault>)
      requires Closed(tree) && ClosedEntries(tree, entries)
      modifies this
      ensures ancestors == old(ancestors)
      ensures var walked := old(WalkEntries(tree, entries, rel, ancestors));
              if walked.Failure? then r == Failure(walked.error)
              else
                && r.Success?
                && directories == old(directories) + walked.value.directories
                && files == old(files) + walked.value.files
      decreases Free(tree, ancestors), 2
    {
      hide WalkEntry;
      ghost var walked := WalkEntries(tree, entries, rel, ancestors);
      ghost var done := Found([], []);
      var n := 0;
      assert entries[0..] == entries;
      CombineNothing(walked);
      while n < |entries|
        invariant 0 <= n <= |entries| && ancestors == old(ancestors)
        invariant directories == old(directories) + done.directories && files == old(files) + done.files
        invariant walked == Onto(done, WalkEntries(tree, entries[n..], rel, ancestors))
      {
        var entry := entries[n];
        ghost var rest := entries[n..];
        assert rest[0] == entry && rest[1..] == entries[n + 1..];
        ghost var here := WalkEntry(tree, entry, rel + [entry.name], ancestors);
        r := CollectEntry(entry, rel + [entry.name]);
        if r.Failure? {
          return;
        }
        CombineAgain(done, here.value, WalkEntries(tree, entries[n + 1..], rel, ancestors));
        done := Combine(done, here.value);
        n := n + 1;
      }
      assert entries[n..] == [];
      assert Combine(done, Found([], [])) == done;
      r := Success(());
    }
  }

  function Onto(done: Found, rest: Result<Found, Fault>): Result<Found, Fault> {
    if rest.Failure? then rest else Success(Combine(done, rest.value))
  }

  lemma CombineNothing(walked: Result<Found, Fault>)
    ensures Onto(Found([], []), walked) == walked
  {
    if walked.Success? {
      assert Combine(Found([], []), walked.value) == walked.value;
    }
  }

  lemma CombineAgain(done: Found, here: Found, rest: Result<Found, Fault>)
    ensures Onto(done, Onto(here, rest)) == Onto(Combine(done, here), rest)
  {
    if rest.Success? {
      assert Combine(done, Combine(here, rest.value)) == Combine(Combine(done, here), rest.value);
    }
  }
}
