/**
 * The reference meaning of one move on one line of the board. Position 0 of a
 * line is the cell at the edge the tiles move towards; the line is read from
 * there outwards, which is the order in which Grid.move visits its cells.
 */
module Lines {
  import opened Tiles

  /** A tile of the packed part of a line: its value and whether it came out of a merge in this move. */
  datatype Slot = Slot(value: int, merged: bool)

  /** The value v joins the packed tiles merges with the last of them. */
  predicate Merges(packed: seq<Slot>, v: int) {
    v != 0 && |packed| > 0 && Mergeable(packed[|packed| - 1].value, packed[|packed| - 1].merged, v, false)
  }

  /**
   * Adds the next value of the line to the packed tiles in front of it: an empty
   * cell adds nothing, an equal tile that has not merged yet is doubled, any other
   * value lands right behind the last tile.
   */
  function Push(packed: seq<Slot>, v: int): seq<Slot> {
    if v == 0 then packed
    else if Merges(packed, v) then packed[..|packed| - 1] + [Slot(2 * v, true)]
    else packed + [Slot(v, false)]
  }

  function MergeCount(s: seq<Slot>): nat {
    if s == [] then 0 else MergeCount(s[..|s| - 1]) + (if s[|s| - 1].merged then 1 else 0)
  }

  lemma MergeCountSnoc(s: seq<Slot>, x: Slot)
    ensures MergeCount(s + [x]) == MergeCount(s) + (if x.merged then 1 else 0)
  {
    assert (s + [x])[..|s|] == s;
  }

  /**
   * The tiles of a line after the move, in order from the destination edge. Every
   * merge takes one cell, so tiles plus merges never exceed the cells of the line,
   * and no packed tile is empty.
   */
  function Pack(line: seq<int>): (r: seq<Slot>)
    ensures |r| + MergeCount(r) <= |line|
    ensures forall q :: 0 <= q < |r| ==> r[q].value != 0
  {
    if line == [] then []
    else
      var p := Pack(line[..|line| - 1]);
      var v := line[|line| - 1];
      if v != 0 && Merges(p, v) then
        assert p == p[..|p| - 1] + [p[|p| - 1]];
        MergeCountSnoc(p[..|p| - 1], p[|p| - 1]);
        MergeCountSnoc(p[..|p| - 1], Slot(2 * v, true));
        Push(p, v)
      else
        MergeCountSnoc(p, Slot(v, false));
        Push(p, v)
  }

  lemma PackPrefix(line: seq<int>, k: nat)
    requires k < |line|
    ensures Pack(line[..k + 1]) == Push(Pack(line[..k]), line[k])
  {
    assert line[..k + 1][..k] == line[..k];
  }

  /** The packed tiles followed by empty cells up to length n. */
  function Padded(p: seq<Slot>, n: nat): (r: seq<int>)
    ensures |r| == n
  {
    seq(n, q requires 0 <= q < n => if q < |p| then p[q].value else 0)
  }

  /** The line after the move. */
  function Collapse(line: seq<int>): seq<int> {
    Padded(Pack(line), |line|)
  }

  /** The merge flags of the line's cells after the move (before they are cleared); a flagged cell holds a tile. */
  function MergedFlags(line: seq<int>): (r: seq<bool>)
    ensures |r| == |line|
    ensures forall q :: 0 <= q < |line| && r[q] ==> Collapse(line)[q] != 0
  {
    var p := Pack(line);
    seq(|line|, q requires 0 <= q < |line| => q < |p| && p[q].merged)
  }

  function MergedSum(s: seq<Slot>): int {
    if s == [] then 0 else MergedSum(s[..|s| - 1]) + (if s[|s| - 1].merged then s[|s| - 1].value else 0)
  }

  /** The points a move earns on a line: the sum of the tiles its merges produced. */
  function Gain(line: seq<int>): int {
    MergedSum(Pack(line))
  }

  function Sum(s: seq<int>): int {
    if s == [] then 0 else Sum(s[..|s| - 1]) + s[|s| - 1]
  }

  function SlotSum(s: seq<Slot>): int {
    if s == [] then 0 else SlotSum(s[..|s| - 1]) + s[|s| - 1].value
  }

  /** A line the move leaves as it is: every tile is directly behind a tile of a different value. */
  predicate Stable(line: seq<int>) {
    forall k :: 1 <= k < |line| && line[k] != 0 ==> line[k - 1] != 0 && line[k - 1] != line[k]
  }

  /**
   * What the dry run of Grid.move looks for at position k: the cell in front of
   * it exists and is empty, or holds an equal, mergeable number.
   */
  predicate PairAvailable(line: seq<int>, k: int)
    requires 0 <= k < |line|
  {
    k >= 1 && (line[k - 1] == 0 || Mergeable(line[k - 1], false, line[k], false))
  }

  predicate LineAvailable(line: seq<int>) {
    exists k :: 0 <= k < |line| && PairAvailable(line, k)
  }

  // ---------------------------------------------------------------------------
  // States of a line while Grid.move works on it

  /** The line once its positions 0..p-1 have been resolved and the rest is still untouched. */
  function PartialLine(line: seq<int>, p: nat): (r: seq<int>)
    requires p <= |line|
    ensures |r| == |line|
  {
    Collapse(line[..p]) + line[p..]
  }

  /** The merge flags of the line once its positions 0..p-1 have been resolved. */
  function PartialFlags(line: seq<int>, p: nat): (r: seq<bool>)
    requires p <= |line|
    ensures |r| == |line|
  {
    MergedFlags(line[..p]) + seq(|line| - p, _ => false)
  }

  /** The line while the value taken from position k has slid forward to position c. */
  function InFlightLine(line: seq<int>, k: nat, c: nat): (r: seq<int>)
    requires c <= k < |line|
    ensures |r| == |line|
  {
    seq(|line|, q requires 0 <= q < |line| =>
      if q == c then line[k] else if q == k then 0 else PartialLine(line, k)[q])
  }

  /** Before the pass nothing is resolved: the line is as it was and no cell has merged. */
  lemma PartialStart(line: seq<int>)
    ensures PartialLine(line, 0) == line
    ensures forall q :: 0 <= q < |line| ==> !PartialFlags(line, 0)[q]
  {
    assert line[..0] == [];
    assert line[0..] == line;
  }

  /** Once every position is resolved, the line is the collapsed line. */
  lemma PartialEnd(line: seq<int>)
    ensures PartialLine(line, |line|) == Collapse(line)
    ensures PartialFlags(line, |line|) == MergedFlags(line)
  {
    assert line[..|line|] == line;
  }

  /** A slide starts with the value still in its own cell. */
  lemma InFlightStart(line: seq<int>, k: nat)
    requires k < |line|
    ensures InFlightLine(line, k, k) == PartialLine(line, k)
  {
  }

  /** A stable prefix is resolved to itself, with its tiles first and no merge flag set. */
  lemma StablePrefix(line: seq<int>, k: nat)
    requires k <= |line| && Stable(line[..k])
    ensures PartialLine(line, k) == line
    ensures forall q :: 0 <= q < |line| ==> !PartialFlags(line, k)[q]
    ensures forall q :: |Pack(line[..k])| <= q < k ==> line[q] == 0
    ensures forall q :: 0 <= q < |Pack(line[..k])| ==> line[q] != 0
  {
    var l := line[..k];
    StablePack(l);
    CollapseFixedIffStable(l);
    assert line == l + line[k..];
    forall q | 0 <= q < |Pack(l)| ensures line[q] != 0 {
      assert l[q] == Pack(l)[q].value;
    }
  }

  lemma UnstableExtends(line: seq<int>, k: nat)
    requires k < |line| && !Stable(line[..k])
    ensures !Stable(line[..k + 1])
  {
    var m :| 1 <= m < k && line[..k][m] != 0 && !(line[..k][m - 1] != 0 && line[..k][m - 1] != line[..k][m]);
    assert line[..k + 1][m] == line[m] && line[..k + 1][m - 1] == line[m - 1];
  }

  /** The pair of positions k - 1, k of a line whose prefix up to k is stable breaks stability. */
  lemma StableExtends(line: seq<int>, k: nat)
    requires k < |line| && Stable(line[..k])
    ensures Stable(line[..k + 1]) <==> line[k] == 0 || k == 0 || (line[k - 1] != 0 && line[k - 1] != line[k])
  {
    var l := line[..k + 1];
    if line[k] == 0 || k == 0 || (line[k - 1] != 0 && line[k - 1] != line[k]) {
      forall m | 1 <= m < |l| && l[m] != 0 ensures l[m - 1] != 0 && l[m - 1] != l[m] {
        if m < k {
          assert line[..k][m] == l[m] && line[..k][m - 1] == l[m - 1];
        }
      }
    } else {
      assert l[k] != 0 && !(l[k - 1] != 0 && l[k - 1] != l[k]);
    }
  }

  /** Cells behind the resolved tiles carry no merge flag. */
  lemma FlagsBeyondPack(line: seq<int>, k: nat, q: nat)
    requires k <= |line| && |Pack(line[..k])| <= q < |line|
    ensures !PartialFlags(line, k)[q]
  {
  }

  // ---------------------------------------------------------------------------
  // Steps of the slide, as Grid.move takes them

  /** The value slides on into the empty cell at position c - 1 in front of it. */
  lemma SlideOn(line: seq<int>, k: nat, c: nat)
    requires 1 <= c <= k < |line|
    requires |Pack(line[..k])| <= c
    requires PartialLine(line, k)[c - 1] == 0
    ensures |Pack(line[..k])| <= c - 1
    ensures InFlightLine(line, k, c - 1) == InFlightLine(line, k, c)[c - 1 := line[k]][c := 0]
  {
    assert PartialLine(line, k)[c] == 0 || c == k by {
      if c < k {
        assert PartialLine(line, k)[c] == Collapse(line[..k])[c];
      }
    }
  }

  /**
   * The slide stops at position c, at the edge or behind a tile it cannot merge
   * with: the line is then resolved up to and including position k, and it turns
   * unstable exactly when a tile has moved.
   */
  lemma SettleAt(line: seq<int>, k: nat, c: nat)
    requires c <= k < |line|
    requires |Pack(line[..k])| <= c
    requires c == 0 || (PartialLine(line, k)[c - 1] != 0 &&
                        !Mergeable(PartialLine(line, k)[c - 1], PartialFlags(line, k)[c - 1], line[k], false))
    ensures PartialLine(line, k + 1) == InFlightLine(line, k, c)
    ensures PartialFlags(line, k + 1) == PartialFlags(line, k)
    ensures Gain(line[..k + 1]) == Gain(line[..k])
    ensures Stable(line[..k + 1]) <==> Stable(line[..k]) && (line[k] == 0 || c == k)
  {
    SettleResolves(line, k, c);
    SettleStability(line, k, c);
  }

  lemma SettleResolves(line: seq<int>, k: nat, c: nat)
    requires c <= k < |line|
    requires |Pack(line[..k])| <= c
    requires c == 0 || (PartialLine(line, k)[c - 1] != 0 &&
                        !Mergeable(PartialLine(line, k)[c - 1], PartialFlags(line, k)[c - 1], line[k], false))
    ensures |Pack(line[..k])| == c
    ensures PartialLine(line, k + 1) == InFlightLine(line, k, c)
    ensures PartialFlags(line, k + 1) == PartialFlags(line, k)
    ensures Gain(line[..k + 1]) == Gain(line[..k])
  {
    var p := Pack(line[..k]);
    var v := line[k];
    PackPrefix(line, k);
    if c > 0 {
      assert PartialLine(line, k)[c - 1] == Collapse(line[..k])[c - 1];
      assert PartialFlags(line, k)[c - 1] == MergedFlags(line[..k])[c - 1];
    }
    assert |p| == c;
    assert !Merges(p, v);
    var r := Pack(line[..k + 1]);
    assert r == if v == 0 then p else p + [Slot(v, false)];
    AppendedCells(line, k, p, r);
    PushMergedSum(p, v);
  }

  /** When the tiles resolved up to k are those up to k - 1 with at most one more behind them. */
  lemma AppendedCells(line: seq<int>, k: nat, p: seq<Slot>, r: seq<Slot>)
    requires k < |line|
    requires p == Pack(line[..k]) && r == Pack(line[..k + 1])
    requires r == if line[k] == 0 then p else p + [Slot(line[k], false)]
    ensures PartialLine(line, k + 1) == InFlightLine(line, k, |p|)
    ensures PartialFlags(line, k + 1) == PartialFlags(line, k)
  {
    AppendedValues(line, k, p, r);
    AppendedFlags(line, k, p, r);
  }

  lemma AppendedValues(line: seq<int>, k: nat, p: seq<Slot>, r: seq<Slot>)
    requires k < |line|
    requires p == Pack(line[..k]) && r == Pack(line[..k + 1])
    requires r == if line[k] == 0 then p else p + [Slot(line[k], false)]
    ensures PartialLine(line, k + 1) == InFlightLine(line, k, |p|)
  {
    forall q | 0 <= q < |line| ensures PartialLine(line, k + 1)[q] == InFlightLine(line, k, |p|)[q] {
      AppendedValueAt(line, k, p, r, q);
    }
  }

  lemma AppendedValueAt(line: seq<int>, k: nat, p: seq<Slot>, r: seq<Slot>, q: nat)
    requires k < |line| && q < |line|
    requires p == Pack(line[..k]) && r == Pack(line[..k + 1])
    requires r == if line[k] == 0 then p else p + [Slot(line[k], false)]
    ensures PartialLine(line, k + 1)[q] == InFlightLine(line, k, |p|)[q]
  {
    PartialLineAt(line, k, q);
    PartialLineAt(line, k + 1, q);
    if q < |p| {
      assert r[q] == p[q];
    } else if q == |p| && line[k] != 0 {
      assert r[q] == Slot(line[k], false);
    }
  }

  lemma AppendedFlags(line: seq<int>, k: nat, p: seq<Slot>, r: seq<Slot>)
    requires k < |line|
    requires p == Pack(line[..k]) && r == Pack(line[..k + 1])
    requires r == if line[k] == 0 then p else p + [Slot(line[k], false)]
    ensures PartialFlags(line, k + 1) == PartialFlags(line, k)
  {
    forall q | 0 <= q < |line| ensures PartialFlags(line, k + 1)[q] == PartialFlags(line, k)[q] {
      AppendedFlagAt(line, k, p, r, q);
    }
  }

  lemma AppendedFlagAt(line: seq<int>, k: nat, p: seq<Slot>, r: seq<Slot>, q: nat)
    requires k < |line| && q < |line|
    requires p == Pack(line[..k]) && r == Pack(line[..k + 1])
    requires r == if line[k] == 0 then p else p + [Slot(line[k], false)]
    ensures PartialFlags(line, k + 1)[q] == PartialFlags(line, k)[q]
  {
    PartialFlagsAt(line, k, q);
    PartialFlagsAt(line, k + 1, q);
    if q < |p| {
      assert r[q] == p[q];
    }
  }

  /** Cell q of a partly resolved line: a packed tile, an emptied cell, or the cell as it was. */
  lemma PartialLineAt(line: seq<int>, k: nat, q: nat)
    requires k <= |line| && q < |line|
    ensures var p := Pack(line[..k]);
      PartialLine(line, k)[q] == if q < |p| then p[q].value else if q < k then 0 else line[q]
  {
  }

  /** The merge flag of cell q of a partly resolved line. */
  lemma PartialFlagsAt(line: seq<int>, k: nat, q: nat)
    requires k <= |line| && q < |line|
    ensures var p := Pack(line[..k]); PartialFlags(line, k)[q] == (q < |p| && p[q].merged)
  {
  }

  lemma SettleStability(line: seq<int>, k: nat, c: nat)
    requires c <= k < |line|
    requires |Pack(line[..k])| == c
    requires c == 0 || (PartialLine(line, k)[c - 1] != 0 &&
                        !Mergeable(PartialLine(line, k)[c - 1], PartialFlags(line, k)[c - 1], line[k], false))
    ensures Stable(line[..k + 1]) <==> Stable(line[..k]) && (line[k] == 0 || c == k)
  {
    if Stable(line[..k]) {
      StablePrefix(line, k);
      StableExtends(line, k);
      if line[k] != 0 && c < k {
        assert line[k - 1] == 0;
      }
    } else {
      UnstableExtends(line, k);
    }
  }

  /**
   * The slide stops at position c by merging into position c - 1: the line is
   * then resolved up to and including position k, with one more merge, the
   * doubled value gained, and the line unstable.
   */
  lemma MergeAt(line: seq<int>, k: nat, c: nat)
    requires 1 <= c <= k < |line|
    requires |Pack(line[..k])| <= c
    requires PartialLine(line, k)[c - 1] != 0
    requires Mergeable(PartialLine(line, k)[c - 1], PartialFlags(line, k)[c - 1], line[k], false)
    ensures PartialLine(line, k + 1) == InFlightLine(line, k, c)[c - 1 := 2 * line[k]][c := 0]
    ensures PartialFlags(line, k + 1) == PartialFlags(line, k)[c - 1 := true]
    ensures Gain(line[..k + 1]) == Gain(line[..k]) + 2 * line[k]
    ensures !Stable(line[..k + 1])
  {
    MergePacks(line, k, c);
    MergeCells(line, k, c);
    var p := Pack(line[..k]);
    PushMergedSum(p, line[k]);
    if Stable(line[..k]) {
      StablePrefix(line, k);
      StableExtends(line, k);
      if c < k {
        assert line[k - 1] == 0;
      }
    } else {
      UnstableExtends(line, k);
    }
  }

  /** The value of position k merges with the last packed tile, which sits at position c - 1. */
  lemma MergePacks(line: seq<int>, k: nat, c: nat)
    requires 1 <= c <= k < |line|
    requires |Pack(line[..k])| <= c
    requires PartialLine(line, k)[c - 1] != 0
    requires Mergeable(PartialLine(line, k)[c - 1], PartialFlags(line, k)[c - 1], line[k], false)
    ensures |Pack(line[..k])| == c && Merges(Pack(line[..k]), line[k])
    ensures Pack(line[..k + 1]) == Pack(line[..k])[..c - 1] + [Slot(2 * line[k], true)]
  {
    PackPrefix(line, k);
    assert PartialLine(line, k)[c - 1] == Collapse(line[..k])[c - 1];
    assert PartialFlags(line, k)[c - 1] == MergedFlags(line[..k])[c - 1];
  }

  lemma MergeCells(line: seq<int>, k: nat, c: nat)
    requires 1 <= c <= k < |line|
    requires |Pack(line[..k])| == c && Merges(Pack(line[..k]), line[k])
    requires Pack(line[..k + 1]) == Pack(line[..k])[..c - 1] + [Slot(2 * line[k], true)]
    ensures PartialLine(line, k + 1) == InFlightLine(line, k, c)[c - 1 := 2 * line[k]][c := 0]
    ensures PartialFlags(line, k + 1) == PartialFlags(line, k)[c - 1 := true]
  {
    var p := Pack(line[..k]);
    var r := Pack(line[..k + 1]);
    var v := line[k];
    var after := InFlightLine(line, k, c)[c - 1 := 2 * v][c := 0];
    var flags := PartialFlags(line, k)[c - 1 := true];
    assert |r| == c;
    forall q | 0 <= q < |line| ensures PartialLine(line, k + 1)[q] == after[q] {
      if q > k {
        assert PartialLine(line, k + 1)[q] == line[q];
        assert after[q] == PartialLine(line, k)[q] == line[q];
      } else if q < c - 1 {
        assert PartialLine(line, k + 1)[q] == Collapse(line[..k + 1])[q] == r[q].value;
        assert r[q] == p[q];
        assert after[q] == PartialLine(line, k)[q] == Collapse(line[..k])[q] == p[q].value;
      } else if q == c - 1 {
        assert PartialLine(line, k + 1)[q] == Collapse(line[..k + 1])[q] == r[q].value;
      } else {
        assert PartialLine(line, k + 1)[q] == Collapse(line[..k + 1])[q] == 0;
        if q != c && q != k {
          assert after[q] == PartialLine(line, k)[q] == Collapse(line[..k])[q] == 0;
        }
      }
    }
    forall q | 0 <= q < |line| ensures PartialFlags(line, k + 1)[q] == flags[q] {
      if q < c - 1 {
        assert r[q] == p[q];
      }
    }
  }

  /**
   * The value taken from position k is in flight at position c: cur is the line
   * and flags the merge flags, with the positions before k resolved.
   */
  predicate InFlight(line: seq<int>, k: nat, c: nat, cur: seq<int>, flags: seq<bool>) {
    c <= k < |line| && |Pack(line[..k])| <= c && cur == InFlightLine(line, k, c) && flags == PartialFlags(line, k)
  }

  lemma InFlightBegin(line: seq<int>, k: nat)
    requires k < |line|
    ensures InFlight(line, k, k, PartialLine(line, k), PartialFlags(line, k))
  {
    InFlightStart(line, k);
  }

  /** The value in flight is line[k] and its cell carries no flag. */
  lemma InFlightCell(line: seq<int>, k: nat, c: nat, cur: seq<int>, flags: seq<bool>)
    requires InFlight(line, k, c, cur, flags)
    ensures |cur| == |line| && |flags| == |line| && cur[c] == line[k] && !flags[c]
  {
    FlagsBeyondPack(line, k, c);
  }

  /** One step of the slide into the empty cell in front. */
  lemma SlideStep(line: seq<int>, k: nat, c: nat, cur: seq<int>, flags: seq<bool>)
    requires InFlight(line, k, c, cur, flags) && c >= 1 && cur[c - 1] == 0
    ensures InFlight(line, k, c - 1, cur[c - 1 := line[k]][c := 0], flags)
    ensures line[k] == 0 ==> cur[c - 1 := line[k]][c := 0] == cur
  {
    assert PartialLine(line, k)[c - 1] == cur[c - 1];
    SlideOn(line, k, c);
    if line[k] == 0 {
      var next := cur[c - 1 := line[k]][c := 0];
      forall q | 0 <= q < |line| ensures next[q] == cur[q] {
      }
    }
  }

  /** The slide ends in a merge with the cell in front. */
  lemma MergeStep(line: seq<int>, k: nat, c: nat, cur: seq<int>, flags: seq<bool>)
    requires InFlight(line, k, c, cur, flags) && c >= 1 && cur[c - 1] != 0
    requires Mergeable(cur[c - 1], flags[c - 1], line[k], false)
    ensures PartialLine(line, k + 1) == cur[c - 1 := 2 * line[k]][c := 0]
    ensures PartialFlags(line, k + 1) == flags[c - 1 := true]
    ensures Gain(line[..k + 1]) == Gain(line[..k]) + 2 * line[k]
    ensures !Stable(line[..k + 1])
  {
    assert PartialLine(line, k)[c - 1] == cur[c - 1];
    MergeAt(line, k, c);
  }

  /** The slide ends at the edge or behind a tile it cannot merge with. */
  lemma SettleStep(line: seq<int>, k: nat, c: nat, cur: seq<int>, flags: seq<bool>)
    requires InFlight(line, k, c, cur, flags)
    requires c == 0 || (cur[c - 1] != 0 && !Mergeable(cur[c - 1], flags[c - 1], line[k], false))
    ensures PartialLine(line, k + 1) == cur && PartialFlags(line, k + 1) == flags
    ensures Gain(line[..k + 1]) == Gain(line[..k])
    ensures Stable(line[..k + 1]) <==> Stable(line[..k]) && (line[k] == 0 || c == k)
  {
    if c >= 1 {
      assert PartialLine(line, k)[c - 1] == cur[c - 1];
    }
    SettleAt(line, k, c);
  }

  /**
   * What the inner loop of Grid.move leaves behind: the numbers and the flags,
   * the points won, whether the tile moved or merged, and whether a dry run
   * found a move.
   */
  datatype Outcome<B, M> = Slide(board: B, marks: M, gain: int, moved: bool, found: bool)

  /**
   * The inner loop of Grid.move on one line, for the tile now at position c,
   * with numbers cur and merge flags flags. The cell in front is position c - 1;
   * there is none at c == 0. An empty cell in front takes the tile, which goes on
   * from there (a tile holding 0 or less changes nothing, as in chaneNumber); a
   * mergeable cell in front takes the merged tile and ends the loop; any other
   * cell ends it. A dry run stops at the first empty or mergeable cell and reports it.
   */
  function SlideLine(cur: seq<int>, flags: seq<bool>, c: nat, checking: bool): (r: Outcome<seq<int>, seq<bool>>)
    requires |flags| == |cur| && c < |cur|
    ensures |r.board| == |cur| && |r.marks| == |cur|
    ensures !r.moved ==> r.board == cur && r.marks == flags && r.gain == 0
    ensures checking ==> !r.moved
    ensures r.found ==> checking
    decreases c
  {
    if c == 0 then Slide(cur, flags, 0, false, false)
    else if cur[c - 1] == 0 then
      if checking then Slide(cur, flags, 0, false, true)
      else if cur[c] > 0 then SlideLine(cur[c - 1 := cur[c]][c := 0], flags, c - 1, checking).(moved := true)
      else SlideLine(cur, flags, c - 1, checking)
    else if Mergeable(cur[c - 1], flags[c - 1], cur[c], flags[c]) then
      if checking then Slide(cur, flags, 0, false, true)
      else Slide(cur[c - 1 := 2 * cur[c - 1]][c := 0], flags[c - 1 := true], 2 * cur[c - 1], true, false)
    else Slide(cur, flags, 0, false, false)
  }

  /**
   * In a real move, sliding the value of position k, now in flight at position
   * c, resolves position k: the line and the flags become the reference pass
   * resolved up to k + 1, the points are those the merge at k wins, and the line
   * stops being stable exactly when it was not before, the tile moves in this
   * slide, or it had already moved away from k.
   */
  lemma {:induction false} SlideLineResolves(line: seq<int>, k: nat, c: nat, cur: seq<int>, flags: seq<bool>)
    requires InFlight(line, k, c, cur, flags) && line[k] >= 0
    ensures |flags| == |cur|
    ensures var r := SlideLine(cur, flags, c, false);
      r.board == PartialLine(line, k + 1) && r.marks == PartialFlags(line, k + 1) &&
      r.gain == Gain(line[..k + 1]) - Gain(line[..k]) && !r.found &&
      (!Stable(line[..k + 1]) <==> !Stable(line[..k]) || r.moved || (c < k && line[k] > 0))
    decreases c
  {
    InFlightCell(line, k, c, cur, flags);
    if c >= 1 && cur[c - 1] == 0 {
      SlideStep(line, k, c, cur, flags);
      SlideLineResolves(line, k, c - 1, cur[c - 1 := line[k]][c := 0], flags);
    } else if c >= 1 && Mergeable(cur[c - 1], flags[c - 1], line[k], false) {
      MergeStep(line, k, c, cur, flags);
    } else {
      SettleStep(line, k, c, cur, flags);
    }
  }

  /** In a dry run the loop changes nothing, and finds a move exactly when the cell in front is empty or mergeable. */
  lemma SlideLineProbe(cur: seq<int>, flags: seq<bool>, c: nat)
    requires |flags| == |cur| && c < |cur| && !flags[c] && (c >= 1 ==> !flags[c - 1])
    ensures var r := SlideLine(cur, flags, c, true);
      r.board == cur && r.marks == flags && r.gain == 0 && !r.moved && (r.found <==> PairAvailable(cur, c))
  {
  }

  // ---------------------------------------------------------------------------
  // Properties of the reference

  lemma PushSum(p: seq<Slot>, v: int)
    ensures SlotSum(Push(p, v)) == SlotSum(p) + v
  {
    if v != 0 {
      if Merges(p, v) {
        var r := p[..|p| - 1] + [Slot(2 * v, true)];
        assert r[..|r| - 1] == p[..|p| - 1];
      } else {
        assert (p + [Slot(v, false)])[..|p|] == p;
      }
    }
  }

  lemma {:induction false} PackSum(line: seq<int>)
    ensures SlotSum(Pack(line)) == Sum(line)
  {
    if line != [] {
      PackSum(line[..|line| - 1]);
      PushSum(Pack(line[..|line| - 1]), line[|line| - 1]);
    }
  }

  lemma {:induction false} PaddedSum(p: seq<Slot>, n: nat)
    requires |p| <= n
    ensures Sum(Padded(p, n)) == SlotSum(p)
    decreases n
  {
    if n > 0 {
      if n == |p| {
        assert Padded(p, n)[..n - 1] == Padded(p[..n - 1], n - 1);
        PaddedSum(p[..n - 1], n - 1);
      } else {
        assert Padded(p, n)[..n - 1] == Padded(p, n - 1);
        PaddedSum(p, n - 1);
      }
    }
  }

  /** A move keeps the sum of a line: a merge turns v, v into 2v and an empty cell. */
  lemma CollapseSum(line: seq<int>)
    ensures Sum(Collapse(line)) == Sum(line)
  {
    PaddedSum(Pack(line), |line|);
    PackSum(line);
  }

  lemma PushMergedSum(p: seq<Slot>, v: int)
    ensures MergedSum(Push(p, v)) == MergedSum(p) + (if Merges(p, v) then 2 * v else 0)
  {
    if v != 0 {
      if Merges(p, v) {
        var r := p[..|p| - 1] + [Slot(2 * v, true)];
        assert r[..|r| - 1] == p[..|p| - 1];
        assert p == p[..|p| - 1] + [p[|p| - 1]];
      } else {
        assert (p + [Slot(v, false)])[..|p|] == p;
      }
    }
  }

  /** With non-negative numbers on the line, each merge adds a non-negative amount. */
  lemma {:induction false} GainNonNegative(line: seq<int>)
    requires forall q :: 0 <= q < |line| ==> line[q] >= 0
    ensures Gain(line) >= 0
  {
    if line != [] {
      var l := line[..|line| - 1];
      GainNonNegative(l);
      PushMergedSum(Pack(l), line[|line| - 1]);
    }
  }

  /** Tiles stay 0 or powers of two: a merge doubles a power of two. */
  lemma {:induction false} PackTileValues(line: seq<int>)
    requires forall q :: 0 <= q < |line| ==> IsTileValue(line[q])
    ensures forall q :: 0 <= q < |Pack(line)| ==> IsPowerOfTwo(Pack(line)[q].value)
  {
    if line != [] {
      var l := line[..|line| - 1];
      var v := line[|line| - 1];
      PackTileValues(l);
      var p := Pack(l);
      if Merges(p, v) {
        DoubleIsPowerOfTwo(v);
      }
    }
  }

  lemma CollapseTileValues(line: seq<int>)
    requires forall q :: 0 <= q < |line| ==> IsTileValue(line[q])
    ensures forall q :: 0 <= q < |line| ==> IsTileValue(Collapse(line)[q])
  {
    PackTileValues(line);
  }

  /** A move changes a line exactly when the line is not stable. */
  lemma CollapseFixedIffStable(line: seq<int>)
    ensures Collapse(line) == line <==> Stable(line)
  {
    if Stable(line) {
      StablePack(line);
      var p := Pack(line);
      forall q | 0 <= q < |line| ensures Collapse(line)[q] == line[q] {
        if q < |p| {
          assert p[q] == Slot(line[q], false);
        }
      }
    }
    if Collapse(line) == line {
      FixedIsStable(line);
    }
  }

  /** The tiles of a stable line are its leading cells, none merged, followed only by empty cells. */
  lemma {:induction false} StablePack(line: seq<int>)
    requires Stable(line)
    ensures forall q :: 0 <= q < |Pack(line)| ==> Pack(line)[q] == Slot(line[q], false)
    ensures forall q :: |Pack(line)| <= q < |line| ==> line[q] == 0
  {
    if line != [] {
      var n := |line|;
      var l := line[..n - 1];
      var v := line[n - 1];
      assert line == l + [v];
      StableInit(l, v);
      StablePack(l);
      StablePush(l, Pack(l), v);
    }
  }

  lemma StableInit(l: seq<int>, v: int)
    requires Stable(l + [v])
    ensures Stable(l)
  {
    forall k | 1 <= k < |l| && l[k] != 0 ensures l[k - 1] != 0 && l[k - 1] != l[k] {
      assert (l + [v])[k] == l[k] && (l + [v])[k - 1] == l[k - 1];
    }
  }

  /** One more cell of a stable line keeps its packed tiles equal to its leading cells. */
  lemma StablePush(l: seq<int>, p: seq<Slot>, v: int)
    requires Stable(l + [v]) && |p| <= |l|
    requires forall q :: 0 <= q < |p| ==> p[q] == Slot(l[q], false)
    requires forall q :: |p| <= q < |l| ==> l[q] == 0
    ensures forall q :: 0 <= q < |Push(p, v)| ==> Push(p, v)[q] == Slot((l + [v])[q], false)
    ensures forall q :: |Push(p, v)| <= q < |l| + 1 ==> (l + [v])[q] == 0
  {
    var line := l + [v];
    if v != 0 && |l| >= 1 {
      assert line[|l|] == v;
      assert line[|l| - 1] != 0 && line[|l| - 1] != v;
      assert l[|l| - 1] != 0;
      assert |p| == |l|;
      assert !Merges(p, v);
    }
  }

  lemma {:induction false} NoMergeCount(s: seq<Slot>)
    requires MergeCount(s) == 0
    ensures forall q :: 0 <= q < |s| ==> !s[q].merged
  {
    if s != [] {
      NoMergeCount(s[..|s| - 1]);
      forall q | 0 <= q < |s| ensures !s[q].merged {
        if q < |s| - 1 {
          assert s[q] == s[..|s| - 1][q];
        }
      }
    }
  }

  lemma {:induction false} UnmergedSum(s: seq<Slot>)
    requires forall q :: 0 <= q < |s| ==> !s[q].merged
    ensures MergedSum(s) == 0
  {
    if s != [] {
      UnmergedSum(s[..|s| - 1]);
    }
  }

  /** A stable line earns no points: none of its tiles merges. */
  lemma StableGainsNothing(line: seq<int>)
    requires Stable(line)
    ensures Gain(line) == 0
  {
    StablePack(line);
    UnmergedSum(Pack(line));
  }

  /** A line the move leaves as it is is stable. */
  lemma {:induction false} FixedIsStable(line: seq<int>)
    requires Collapse(line) == line
    ensures Stable(line)
  {
    if line != [] {
      var n := |line|;
      var l := line[..n - 1];
      FixedPrefix(line);
      FixedIsStable(l);
      forall k | 1 <= k < n && line[k] != 0 ensures line[k - 1] != 0 && line[k - 1] != line[k] {
        if k < n - 1 {
          assert l[k] == line[k] && l[k - 1] == line[k - 1];
        }
      }
    }
  }

  /** The prefix of a line the move leaves as it is is left as it is, and its last tile differs from the next. */
  lemma FixedPrefix(line: seq<int>)
    requires line != [] && Collapse(line) == line
    ensures Collapse(line[..|line| - 1]) == line[..|line| - 1]
    ensures |line| >= 2 && line[|line| - 1] != 0 ==> line[|line| - 2] != 0 && line[|line| - 2] != line[|line| - 1]
  {
    var n := |line|;
    var l := line[..n - 1];
    var v := line[n - 1];
    var p := Pack(l);
    var r := Pack(line);
    PackPrefix(line, n - 1);
    assert line[..n] == line;
    assert r == Push(p, v);
    if v != 0 {
      assert Padded(r, n)[n - 1] != 0;
      assert !Merges(p, v) && |p| == n - 1;
      assert r == p + [Slot(v, false)];
      if n >= 2 {
        NoMergeCount(p);
        assert l[n - 2] == Padded(r, n)[n - 2] == p[n - 2].value;
      }
    }
    forall q | 0 <= q < n - 1 ensures Collapse(l)[q] == l[q] {
      assert Collapse(l)[q] == Padded(p, n - 1)[q];
      assert l[q] == Padded(r, n)[q];
      if q < |p| {
        assert r[q] == p[q];
      }
    }
  }

  /** A line whose packed tiles fill it is left as it is. */
  lemma {:induction false} FullPackIsFixed(line: seq<int>)
    requires |Pack(line)| == |line|
    ensures Collapse(line) == line
    decreases |line|
  {
    if line != [] {
      var n := |line|;
      var l := line[..n - 1];
      var v := line[n - 1];
      var p := Pack(l);
      PushFills(p, v, n - 1);
      FullPackIsFixed(l);
      PaddedSnoc(p, v);
      assert line == l + [v];
    }
  }

  /** Pushing a value makes the packed tiles one longer only when it is a tile that does not merge. */
  lemma PushFills(p: seq<Slot>, v: int, n: nat)
    requires |p| + MergeCount(p) <= n && |Push(p, v)| == n + 1
    ensures v != 0 && !Merges(p, v) && |p| == n && Push(p, v) == p + [Slot(v, false)]
  {
  }

  lemma PaddedSnoc(p: seq<Slot>, v: int)
    ensures Padded(p + [Slot(v, false)], |p| + 1) == Padded(p, |p|) + [v]
  {
    var a, b := Padded(p + [Slot(v, false)], |p| + 1), Padded(p, |p|) + [v];
    forall q | 0 <= q < |p| + 1 ensures a[q] == b[q] {
      if q < |p| {
        assert (p + [Slot(v, false)])[q] == p[q];
      }
    }
  }

  /** A line the move changes ends in an empty cell, so the spawn that follows has room. */
  lemma ChangedLineEndsEmpty(line: seq<int>)
    requires Collapse(line) != line
    ensures |Pack(line)| < |line| && Collapse(line)[|line| - 1] == 0
  {
    if |Pack(line)| == |line| {
      FullPackIsFixed(line);
    }
  }

  lemma UnstableIsAvailable(line: seq<int>)
    requires !Stable(line)
    ensures LineAvailable(line)
  {
    var k :| 1 <= k < |line| && line[k] != 0 && !(line[k - 1] != 0 && line[k - 1] != line[k]);
    assert PairAvailable(line, k);
  }

  // ---------------------------------------------------------------------------
  // Examples

  lemma PackSnoc(l: seq<int>, v: int)
    ensures Pack(l + [v]) == Push(Pack(l), v)
  {
    assert (l + [v])[..|l|] == l;
  }

  /** No tile merges twice: four equal tiles make two merges, not one tile of eight. */
  lemma FourEqualTiles()
    ensures Collapse([2, 2, 2, 2]) == [4, 4, 0, 0]
    ensures Gain([2, 2, 2, 2]) == 8
  {
    PackSnoc([], 2);
    assert Pack([2]) == [Slot(2, false)];
    PackSnoc([2], 2);
    assert Pack([2, 2]) == [Slot(4, true)];
    PackSnoc([2, 2], 2);
    assert Pack([2, 2, 2]) == [Slot(4, true), Slot(2, false)];
    PackSnoc([2, 2, 2], 2);
    var p := [Slot(4, true), Slot(4, true)];
    assert [Slot(4, true), Slot(2, false)][..1] == [Slot(4, true)];
    assert [2, 2, 2] + [2] == [2, 2, 2, 2];
    assert Pack([2, 2, 2, 2]) == p;
    assert p[..1] == [Slot(4, true)];
    assert MergedSum(p) == 8;
  }

  /** The merged pair does not merge again with the equal tile that slides up behind it. */
  lemma MergedTileDoesNotMergeAgain()
    ensures Collapse([0, 2, 2, 4]) == [4, 4, 0, 0]
    ensures Gain([0, 2, 2, 4]) == 4
  {
    PackSnoc([], 0);
    assert Pack([0]) == [];
    PackSnoc([0], 2);
    assert Pack([0, 2]) == [Slot(2, false)];
    PackSnoc([0, 2], 2);
    assert Pack([0, 2, 2]) == [Slot(4, true)];
    PackSnoc([0, 2, 2], 4);
    var p := [Slot(4, true), Slot(4, false)];
    assert [0, 2, 2] + [4] == [0, 2, 2, 4];
    assert Pack([0, 2, 2, 4]) == p;
    assert p[..1] == [Slot(4, true)];
    assert MergedSum(p) == 4;
  }
}
