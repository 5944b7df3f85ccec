// Reading the scrollback of a terminal through a window of its visible rows.
module Scrollback {
  import opened Common

  const BUDGET: nat := 1048576
  const OVERHEAD: nat := 8

  type Line = Bytes

  // The normal grid of a terminal: the lines that scrolled off, the rows on the screen,
  // and how many scrollback lines are scrolled into view.
  class Grid {
    const scrolled: seq<Line>
    const screen: seq<Line>
    var offset: nat

    ghost predicate Valid()
      reads this
    {
      offset <= |scrolled|
    }

    constructor (scrolled: seq<Line>, screen: seq<Line>)
      ensures Valid() && this.scrolled == scrolled && this.screen == screen
    {
      this.scrolled := scrolled;
      this.screen := screen;
      offset := 0;
    }

    method SetScrollback(n: nat)
      requires Valid()
      modifies this
      ensures Valid() && offset == Min(n, |scrolled|)
    {
      offset := Min(n, |scrolled|);
    }

    // As many rows as the screen has, from the scrolled position on.
    function Visible(): seq<Line>
      requires Valid()
      reads this
    {
      (scrolled[|scrolled| - offset..] + screen)[..|screen|]
    }
  }

  // What lines cost in a response.
  function Cost(lines: seq<Line>): nat {
    if lines == [] then 0 else |lines[0]| + OVERHEAD + Cost(lines[1..])
  }

  lemma {:induction false} CostGrows(lines: seq<Line>, i: nat, j: nat)
    requires i <= j <= |lines|
    ensures Cost(lines[j..]) <= Cost(lines[i..])
    decreases j - i
  {
    if i < j {
      assert lines[i..][1..] == lines[i + 1..];
      CostGrows(lines, i + 1, j);
    }
  }

  // The longest suffix within the budget.
  ghost predicate LongestSuffix(all: seq<Line>, kept: seq<Line>) {
    && |kept| <= |all| && kept == all[|all| - |kept|..]
    && Cost(kept) <= BUDGET
    && forall i :: 0 <= i < |all| - |kept| ==> Cost(all[i..]) > BUDGET
  }

  // The rows taken from a window are the next lines of the scrollback.
  lemma WindowExtends(all: seq<Line>, screen: seq<Line>, remaining: nat, take: nat)
    requires take <= remaining <= |all| && take <= |screen|
    ensures all[..|all| - remaining] + (all[|all| - remaining..] + screen)[..|screen|][..take]
            == all[..|all| - remaining + take]
  {
    var window := (all[|all| - remaining..] + screen)[..|screen|];
    assert forall k :: 0 <= k < take ==> window[..take][k] == all[|all| - remaining + k];
  }

  // The window moves over the scrollback in steps of the screen's height, the last one
  // overlapping the screen itself; every line is taken exactly once, in order, and the
  // oldest ones are dropped when the response would be too large. A screen without rows
  // would make no progress; a session's screen has the rows SessionRequests.Dimensions
  // gave it, at least one.
  method TerminalHistory(grid: Grid) returns (lines: seq<Line>)
    requires grid.Valid() && |grid.screen| >= 1
    modifies grid
    ensures LongestSuffix(grid.scrolled, lines)
  {
    var all := grid.scrolled;
    grid.SetScrollback(|grid.scrolled|);
    var remaining := grid.offset;
    lines := [];
    while remaining > 0
      invariant grid.Valid() && 0 <= remaining <= |all|
      invariant lines == all[..|all| - remaining]
    {
      grid.SetScrollback(remaining);
      var take := Min(remaining, |grid.screen|);
      var visible := grid.Visible();
      WindowExtends(all, grid.screen, remaining, take);
      lines := lines + visible[..take];
      remaining := remaining - take;
    }
    assert lines == all;
    var keep, bytes := 0, 0;
    while keep < |lines|
      invariant 0 <= keep <= |lines| && bytes == Cost(lines[|lines| - keep..]) <= BUDGET
    {
      var line := lines[|lines| - 1 - keep];
      assert lines[|lines| - 1 - keep..][1..] == lines[|lines| - keep..];
      bytes := bytes + |line| + OVERHEAD;
      if bytes > BUDGET {
        forall i | 0 <= i < |all| - keep ensures Cost(all[i..]) > BUDGET {
          CostGrows(all, i, |lines| - 1 - keep);
        }
        break;
      }
      keep := keep + 1;
    }
    lines := lines[|lines| - keep..];
  }

  // The longest suffix is unique, so the answer does not depend on the window's height.
  lemma LongestSuffixUnique(all: seq<Line>, a: seq<Line>, b: seq<Line>)
    requires LongestSuffix(all, a) && LongestSuffix(all, b)
    ensures a == b
  {
    var i, j := |all| - |a|, |all| - |b|;
    assert a == all[i..] && b == all[j..];
  }
}
