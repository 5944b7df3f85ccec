// Choosing the process a session shows: the deepest process in the foreground.
module ProcessTree {
  import opened Common

  datatype Process = Process(pid: nat, parent: nat, foreground: bool)

  // Process ids are distinct: each is a directory of /proc.
  ghost predicate DistinctPids(ps: seq<Process>) {
    forall i, j :: 0 <= i < j < |ps| ==> ps[i].pid != ps[j].pid
  }

  function Find(ps: seq<Process>, pid: nat): (r: Option<Process>)
    ensures r.Some? ==> r.value in ps && r.value.pid == pid
    ensures r.None? ==> forall p :: p in ps ==> p.pid != pid
  {
    if ps == [] then None
    else
      assert ps == [ps[0]] + ps[1..];
      if ps[0].pid == pid then Some(ps[0]) else Find(ps[1..], pid)
  }

  // Exactly n listed processes follow each other upwards from this process id, and the
  // last one's parent is not listed.
  ghost predicate Ancestors(ps: seq<Process>, pid: nat, n: nat)
    decreases n
  {
    var p := Find(ps, pid);
    if n == 0 then p.None? else p.Some? && Ancestors(ps, p.value.parent, n - 1)
  }

  // The count of a walk upwards that gives up after `fuel` steps.
  function Climb(ps: seq<Process>, pid: nat, fuel: nat): nat
    decreases fuel
  {
    if fuel == 0 then 0
    else
      var p := Find(ps, pid);
      if p.None? then 0 else 1 + Climb(ps, p.value.parent, fuel - 1)
  }

  function Depth(ps: seq<Process>, p: Process): nat {
    Climb(ps, p.parent, |ps|)
  }

  // The process ids of a chain of n ancestors.
  ghost function Chain(ps: seq<Process>, pid: nat, n: nat): (r: seq<nat>)
    requires Ancestors(ps, pid, n)
    ensures |r| == n
    decreases n
  {
    if n == 0 then [] else [pid] + Chain(ps, Find(ps, pid).value.parent, n - 1)
  }

  lemma {:induction false} AncestorsUnique(ps: seq<Process>, pid: nat, m: nat, n: nat)
    requires Ancestors(ps, pid, m) && Ancestors(ps, pid, n)
    ensures m == n
    decreases m
  {
    if m > 0 && n > 0 {
      AncestorsUnique(ps, Find(ps, pid).value.parent, m - 1, n - 1);
    }
  }

  lemma {:induction false} ChainMember(ps: seq<Process>, pid: nat, n: nat, i: nat)
    requires Ancestors(ps, pid, n) && i < n
    ensures Ancestors(ps, Chain(ps, pid, n)[i], n - i)
    ensures Find(ps, Chain(ps, pid, n)[i]).Some?
    decreases n
  {
    if i > 0 {
      ChainMember(ps, Find(ps, pid).value.parent, n - 1, i - 1);
    }
  }

  // A chain that ends never meets a process twice, so it is no longer than the list.
  lemma {:induction false} ChainFits(ps: seq<Process>, pid: nat, n: nat)
    requires Ancestors(ps, pid, n)
    ensures n <= |ps|
  {
    var chain := Chain(ps, pid, n);
    forall i, j | 0 <= i < j < n ensures chain[i] != chain[j] {
      ChainMember(ps, pid, n, i);
      ChainMember(ps, pid, n, j);
      if chain[i] == chain[j] {
        AncestorsUnique(ps, chain[i], n - i, n - j);
      }
    }
    forall i | 0 <= i < n ensures chain[i] in Pids(ps) {
      ChainMember(ps, pid, n, i);
    }
    PigeonHole(chain, Pids(ps));
    PidsBounded(ps);
  }

  function Pids(ps: seq<Process>): set<nat> {
    set p | p in ps :: p.pid
  }

  lemma {:induction false} PidsBounded(ps: seq<Process>)
    ensures |Pids(ps)| <= |ps|
  {
    if ps != [] {
      PidsBounded(ps[1..]);
      assert ps == [ps[0]] + ps[1..];
      assert Pids(ps) == Pids(ps[1..]) + {ps[0].pid};
    }
  }

  lemma {:induction false} PigeonHole(s: seq<nat>, within: set<nat>)
    requires forall i, j :: 0 <= i < j < |s| ==> s[i] != s[j]
    requires forall i :: 0 <= i < |s| ==> s[i] in within
    ensures |s| <= |within|
  {
    if s != [] {
      PigeonHole(s[1..], within - {s[0]});
    }
  }

  lemma {:induction false} ClimbCounts(ps: seq<Process>, pid: nat, n: nat, fuel: nat)
    requires Ancestors(ps, pid, n) && n <= fuel
    ensures Climb(ps, pid, fuel) == n
    decreases n
  {
    if n > 0 {
      ClimbCounts(ps, Find(ps, pid).value.parent, n - 1, fuel - 1);
    }
  }

  lemma {:induction false} ClimbFindsEnd(ps: seq<Process>, pid: nat, fuel: nat)
    ensures Climb(ps, pid, fuel) <= fuel
    ensures Climb(ps, pid, fuel) < fuel ==> Ancestors(ps, pid, Climb(ps, pid, fuel))
    decreases fuel
  {
    if fuel > 0 && Find(ps, pid).Some? {
      ClimbFindsEnd(ps, Find(ps, pid).value.parent, fuel - 1);
    }
  }

  // As many steps as there are processes always suffice: the computed depth is the number
  // of listed ancestors whenever the way up ends, and the number of processes when it
  // runs into a cycle.
  lemma DepthIsExact(ps: seq<Process>, p: Process)
    ensures forall n: nat :: Ancestors(ps, p.parent, n) ==> Depth(ps, p) == n
    ensures (forall n: nat :: !Ancestors(ps, p.parent, n)) ==> Depth(ps, p) == |ps|
  {
    forall n: nat | Ancestors(ps, p.parent, n) ensures Depth(ps, p) == n {
      ChainFits(ps, p.parent, n);
      ClimbCounts(ps, p.parent, n, |ps|);
    }
    ClimbFindsEnd(ps, p.parent, |ps|);
  }

  // The listed process k steps up.
  function Up(ps: seq<Process>, pid: nat, k: nat): (r: Option<nat>)
    ensures r.Some? ==> r.value in Pids(ps)
    decreases k
  {
    var p := Find(ps, pid);
    if p.None? then None
    else if k == 0 then Some(pid)
    else Up(ps, p.value.parent, k - 1)
  }

  ghost predicate Acyclic(ps: seq<Process>) {
    forall pid: nat, k: nat :: k > 0 ==> Up(ps, pid, k) != Some(pid)
  }

  lemma {:induction false} UpAdds(ps: seq<Process>, pid: nat, i: nat, j: nat)
    requires Up(ps, pid, i).Some?
    ensures Up(ps, pid, i + j) == Up(ps, Up(ps, pid, i).value, j)
    decreases i
  {
    if i > 0 {
      UpAdds(ps, Find(ps, pid).value.parent, i - 1, j);
    }
  }

  lemma {:induction false} ClimbIsUp(ps: seq<Process>, pid: nat, fuel: nat, k: nat)
    requires Climb(ps, pid, fuel) == fuel && k < fuel
    ensures Up(ps, pid, k).Some?
    decreases k
  {
    if k > 0 {
      ClimbIsUp(ps, Find(ps, pid).value.parent, fuel - 1, k - 1);
    }
  }

  // Without cycles every way up ends.
  lemma {:induction false} AcyclicEnds(ps: seq<Process>, pid: nat) returns (n: nat)
    requires Acyclic(ps)
    ensures Ancestors(ps, pid, n)
  {
    var fuel := |ps| + 1;
    n := Climb(ps, pid, fuel);
    ClimbFindsEnd(ps, pid, fuel);
    if n == fuel {
      forall k | 0 <= k < fuel ensures Up(ps, pid, k).Some? {
        ClimbIsUp(ps, pid, fuel, k);
      }
      var trail := seq(fuel, k requires 0 <= k < fuel => Up(ps, pid, k).value);
      forall i, j | 0 <= i < j < fuel ensures trail[i] != trail[j] {
        UpAdds(ps, pid, i, j - i);
        assert Up(ps, trail[i], j - i) != Some(trail[i]);
      }
      PigeonHole(trail, Pids(ps));
      PidsBounded(ps);
      assert false;
    }
  }

  ghost predicate Deeper(ps: seq<Process>, p: Process, q: Process) {
    Depth(ps, p) < Depth(ps, q) || (Depth(ps, p) == Depth(ps, q) && p.pid <= q.pid)
  }

  // The deepest process in the foreground, and of equally deep ones the one with the
  // largest id; none exactly when nothing is in the foreground.
  method SelectForeground(ps: seq<Process>) returns (selected: Option<Process>)
    ensures selected.None? <==> forall p :: p in ps ==> !p.foreground
    ensures selected.Some? ==>
              && selected.value in ps && selected.value.foreground
              && forall p :: p in ps && p.foreground ==> Deeper(ps, p, selected.value)
  {
    selected := None;
    var best: (nat, nat) := (0, 0);
    for i := 0 to |ps|
      invariant selected.None? <==> forall k :: 0 <= k < i ==> !ps[k].foreground
      invariant selected.Some? ==>
                  && selected.value in ps && selected.value.foreground
                  && best == (Depth(ps, selected.value), selected.value.pid)
                  && forall k :: 0 <= k < i && ps[k].foreground ==> Deeper(ps, ps[k], selected.value)
    {
      if ps[i].foreground {
        var depth, parent, n := 0, ps[i].parent, 0;
        while n < |ps|
          invariant 0 <= n <= |ps|
          invariant Depth(ps, ps[i]) == depth + Climb(ps, parent, |ps| - n)
        {
          var ancestor := Find(ps, parent);
          if ancestor.None? {
            break;
          }
          depth := depth + 1;
          parent := ancestor.value.parent;
          n := n + 1;
        }
        if selected.None? || best.0 < depth || (best.0 == depth && best.1 <= ps[i].pid) {
          selected := Some(ps[i]);
          best := (depth, ps[i].pid);
        }
      }
    }
  }

  // When the parents form no cycle the choice is by the true number of listed ancestors,
  // and no other process qualifies.
  lemma {:induction false} SelectionIsDeepest(ps: seq<Process>, selected: Process, p: Process) returns (m: nat, n: nat)
    requires DistinctPids(ps) && Acyclic(ps)
    requires selected in ps && p in ps && Deeper(ps, p, selected)
    ensures Ancestors(ps, selected.parent, m) && Ancestors(ps, p.parent, n)
    ensures n < m || (n == m && (p.pid < selected.pid || p == selected))
  {
    m := AcyclicEnds(ps, selected.parent);
    n := AcyclicEnds(ps, p.parent);
    DepthIsExact(ps, selected);
    DepthIsExact(ps, p);
    var i :| 0 <= i < |ps| && ps[i] == selected;
    var j :| 0 <= j < |ps| && ps[j] == p;
  }
}
