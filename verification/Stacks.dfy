/** Stacked series: the totals gathered at each x, and the pass that cuts them
    into one piece per series from the top down. */
module Stacks {

  datatype Point = Point(x: real, y: real)

  /** The running stack at one x. */
  datatype Stack = Stack(total: real, cum: real)

  /** Where a point's piece lies in axis values, and its share of the stack. */
  datatype Piece = Piece(bottom: real, top: real, percentage: real)

  // ---------- Columns ----------

  /** The i-th points of all series lie at xs[i]. */
  ghost predicate Aligned(series: seq<seq<Point>>, xs: seq<real>) {
    && (forall i, j :: 0 <= i < j < |xs| ==> xs[i] != xs[j])
    && forall k :: 0 <= k < |series| ==> OnGrid(series[k], xs)
  }

  ghost predicate OnGrid(data: seq<Point>, xs: seq<real>) {
    |data| <= |xs| && forall i :: 0 <= i < |data| ==> data[i].x == xs[i]
  }

  /** What a series contributes to column i. */
  function Y(data: seq<Point>, i: nat): real {
    if i < |data| then data[i].y else 0.0
  }

  /** The sum over column i of the series from k on. */
  ghost function Rest(series: seq<seq<Point>>, k: nat, i: nat): real
    requires k <= |series|
    decreases |series| - k
  {
    if k == |series| then 0.0 else Y(series[k], i) + Rest(series, k + 1, i)
  }

  ghost function Total(series: seq<seq<Point>>, i: nat): real {
    Rest(series, 0, i)
  }

  /** The sum over column i of the series before k. */
  ghost function Sofar(series: seq<seq<Point>>, k: nat, i: nat): real
    requires k <= |series|
  {
    if k == 0 then 0.0 else Sofar(series, k - 1, i) + Y(series[k-1], i)
  }

  lemma {:induction false} SofarAndRest(series: seq<seq<Point>>, k: nat, i: nat)
    requires k <= |series|
    ensures Sofar(series, k, i) + Rest(series, k, i) == Total(series, i)
  {
    if k > 0 { SofarAndRest(series, k - 1, i); }
  }

  /** Some series before k has a point in column i. */
  ghost predicate Occupied(series: seq<seq<Point>>, k: nat, i: nat) {
    exists j :: 0 <= j < k && j < |series| && i < |series[j]|
  }

  // ---------- The pieces ----------

  /** A value of a stack as the axis shows it: itself, or its share in percent. */
  function Shown(v: real, total: real, percent: bool): real {
    if !percent then v else if total != 0.0 then v * 100.0 / total else 0.0
  }

  ghost function PieceOf(series: seq<seq<Point>>, k: nat, i: nat, percent: bool): Piece
    requires k < |series| && i < |series[k]|
  {
    var total := Total(series, i);
    Piece(Shown(Rest(series, k + 1, i), total, percent), Shown(Rest(series, k, i), total, percent),
          Shown(series[k][i].y, total, true))
  }

  /** The next series after k with a point in column i, or the number of series. */
  ghost function NextIn(series: seq<seq<Point>>, k: nat, i: nat): (n: nat)
    requires k <= |series|
    ensures k <= n <= |series|
    decreases |series| - k
  {
    if k == |series| || i < |series[k]| then k else NextIn(series, k + 1, i)
  }

  lemma {:induction false} RestSkips(series: seq<seq<Point>>, k: nat, i: nat)
    requires k <= |series|
    ensures Rest(series, k, i) == Rest(series, NextIn(series, k, i), i)
    ensures NextIn(series, k, i) < |series| ==> i < |series[NextIn(series, k, i)]|
    decreases |series| - k
  {
    if k < |series| && i >= |series[k]| { RestSkips(series, k + 1, i); }
  }

  /** The pieces of a column tile it: the first starts at the top of the stack,
      each next one where the one before ends, and the last ends at zero. */
  lemma PiecesTile(series: seq<seq<Point>>, k: nat, i: nat, percent: bool)
    requires k < |series| && i < |series[k]|
    ensures var next := NextIn(series, k + 1, i);
            if next < |series|
            then i < |series[next]| && PieceOf(series, k, i, percent).bottom == PieceOf(series, next, i, percent).top
            else PieceOf(series, k, i, percent).bottom == 0.0
    ensures k == NextIn(series, 0, i) ==>
            PieceOf(series, k, i, percent).top
            == if !percent then Total(series, i) else if Total(series, i) != 0.0 then 100.0 else 0.0
  {
    RestSkips(series, k + 1, i);
    RestSkips(series, 0, i);
    ShownZero(Total(series, i), percent);
    if Total(series, i) != 0.0 { Whole(Total(series, i)); }
  }

  /** A piece is as high as its point says, in values or in percent of the stack; the
      share is in percent either way. */
  lemma PieceHeight(series: seq<seq<Point>>, k: nat, i: nat, percent: bool)
    requires k < |series| && i < |series[k]|
    ensures var p, y, total := PieceOf(series, k, i, percent), series[k][i].y, Total(series, i);
      && (!percent ==> p.top - p.bottom == y)
      && (percent && total != 0.0 ==> (p.top - p.bottom) * total == y * 100.0)
      && (percent && total == 0.0 ==> p.top == p.bottom == 0.0)
      && (if total != 0.0 then p.percentage * total == y * 100.0 else p.percentage == 0.0)
  {
    var y, rest, total := series[k][i].y, Rest(series, k + 1, i), Total(series, i);
    ShownAdds(y, rest, total);
    if total != 0.0 { assert y * 100.0 / total * total == y * 100.0; }
  }

  lemma ShownZero(total: real, percent: bool)
    ensures Shown(0.0, total, percent) == 0.0
  {
  }

  /** The shares of a column. */
  ghost function Shares(series: seq<seq<Point>>, k: nat, i: nat): real
    requires k <= |series|
    decreases |series| - k
  {
    if k == |series| then 0.0 else Shown(Y(series[k], i), Total(series, i), true) + Shares(series, k + 1, i)
  }

  /** The shares of a column make up a hundred percent, unless it adds up to zero. */
  lemma SharesSum(series: seq<seq<Point>>, i: nat)
    ensures Shares(series, 0, i) == if Total(series, i) != 0.0 then 100.0 else 0.0
  {
    SharesOfRest(series, 0, i);
    if Total(series, i) != 0.0 { Whole(Total(series, i)); }
  }

  lemma Whole(t: real)
    requires t != 0.0
    ensures t * 100.0 / t == 100.0
  {
  }

  lemma {:induction false} SharesOfRest(series: seq<seq<Point>>, k: nat, i: nat)
    requires k <= |series|
    ensures Shares(series, k, i) == Shown(Rest(series, k, i), Total(series, i), true)
    decreases |series| - k
  {
    ShownZero(Total(series, i), true);
    if k < |series| {
      SharesOfRest(series, k + 1, i);
      ShownAdds(Y(series[k], i), Rest(series, k + 1, i), Total(series, i));
    }
  }

  lemma ShownAdds(a: real, b: real, total: real)
    ensures Shown(a + b, total, true) == Shown(a, total, true) + Shown(b, total, true)
  {
    if total != 0.0 {
      var p, q, r := a * 100.0 / total, b * 100.0 / total, (a + b) * 100.0 / total;
      assert (r - p - q) * total == 0.0 by {
        assert p * total == a * 100.0 && q * total == b * 100.0 && r * total == (a + b) * 100.0;
        assert (r - p - q) * total == r * total - p * total - q * total;
      }
    }
  }

  // ---------- The two passes ----------

  class StackedAxis {
    /** The stacks of one series type, by x value. */
    var stacks: map<real, Stack>

    constructor ()
      ensures stacks == map[]
    {
      stacks := map[];
    }

    /** In every column that series before k have points in, the stack is fresh and
        holds their sum. */
    ghost predicate Gathered(series: seq<seq<Point>>, xs: seq<real>, k: nat)
      reads this
      requires k <= |series|
    {
      forall i :: 0 <= i < |xs| && Occupied(series, k, i) ==>
        IsFresh(stacks, xs[i], Sofar(series, k, i))
    }

    /** The part of the data extremes that gathers the stacks. */
    method Gather(series: seq<seq<Point>>, ghost xs: seq<real>)
      requires Aligned(series, xs) && stacks == map[]
      modifies `stacks
      ensures Gathered(series, xs, |series|)
    {
      var typeStack: map<nat, real> := map[];
      for k := 0 to |series|
        invariant Gathered(series, xs, k)
        invariant forall i :: i in typeStack ==> typeStack[i] == Sofar(series, k, i)
        invariant forall i :: i in typeStack <==> Occupied(series, k, i)
      {
        typeStack := GatherSeries(series, xs, k, typeStack);
      }
    }

    method GatherSeries(series: seq<seq<Point>>, ghost xs: seq<real>, k: nat, was: map<nat, real>)
      returns (typeStack: map<nat, real>)
      requires Aligned(series, xs) && k < |series| && Gathered(series, xs, k)
      requires forall i :: i in was ==> was[i] == Sofar(series, k, i)
      requires forall i :: i in was <==> Occupied(series, k, i)
      modifies `stacks
      ensures Gathered(series, xs, k + 1)
      ensures forall i :: i in typeStack ==> typeStack[i] == Sofar(series, k + 1, i)
      ensures forall i :: i in typeStack <==> Occupied(series, k + 1, i)
    {
      forall i | !Occupied(series, k, i) ensures Sofar(series, k, i) == 0.0 { Unoccupied(series, k, i); }
      typeStack := GatherPoints(series, xs, k, was);
      forall i: nat ensures Occupied(series, k + 1, i) <==> Occupied(series, k, i) || i < |series[k]| {
        if i < |series[k]| { assert k < k + 1; }
      }
    }

    /** The stacks when the points before i of series k have been added. */
    ghost predicate Adding(series: seq<seq<Point>>, xs: seq<real>, k: nat, i: nat, was: set<nat>)
      reads this
      requires k < |series|
    {
      forall j :: 0 <= j < |xs| && (j in was || j < i) ==> IsFresh(stacks, xs[j], Level(series, k, i, j))
    }

    method GatherPoints(series: seq<seq<Point>>, ghost xs: seq<real>, k: nat, was: map<nat, real>)
      returns (typeStack: map<nat, real>)
      requires Aligned(series, xs) && k < |series| && Adding(series, xs, k, 0, was.Keys)
      requires forall i: nat :: if i in was then was[i] == Sofar(series, k, i) else Sofar(series, k, i) == 0.0
      modifies `stacks
      ensures Adding(series, xs, k, |series[k]|, was.Keys)
      ensures forall j: nat :: j in typeStack <==> j in was || j < |series[k]|
      ensures forall j :: j in typeStack ==> typeStack[j] == Sofar(series, k + 1, j)
    {
      typeStack := was;
      var data := series[k];
      assert OnGrid(data, xs);
      for i := 0 to |data|
        invariant forall j: nat :: j in typeStack <==> j in was || j < i
        invariant forall j :: j in typeStack ==> typeStack[j] == Level(series, k, i, j)
        invariant Adding(series, xs, k, i, was.Keys)
      {
        var point := data[i];
        typeStack := typeStack[i := if i in typeStack && typeStack[i] != 0.0 then typeStack[i] + point.y else point.y];
        assert typeStack[i] == Level(series, k, i + 1, i);
        stacks := stacks[point.x := Stack(typeStack[i], typeStack[i])];
      }
    }

    /** The translate pass over one stacked series. */
    method TranslateSeries(data: seq<Point>, percent: bool) returns (pieces: seq<Piece>)
      requires forall i :: 0 <= i < |data| ==> data[i].x in stacks
      requires forall i, j :: 0 <= i < j < |data| ==> data[i].x != data[j].x
      modifies `stacks
      ensures |pieces| == |data| && stacks.Keys == old(stacks).Keys
      ensures forall x :: x in stacks && (forall i :: 0 <= i < |data| ==> data[i].x != x) ==> stacks[x] == old(stacks)[x]
      ensures forall i :: 0 <= i < |data| ==>
        && stacks[data[i].x] == old(stacks)[data[i].x].(cum := old(stacks)[data[i].x].cum - data[i].y)
        && pieces[i] == CutOff(old(stacks)[data[i].x], data[i].y, percent)
    {
      pieces := [];
      for i := 0 to |data|
        invariant |pieces| == i && stacks.Keys == old(stacks).Keys
        invariant forall x :: x in stacks && (forall j :: 0 <= j < i ==> data[j].x != x) ==> stacks[x] == old(stacks)[x]
        invariant forall j :: 0 <= j < i ==>
          && stacks[data[j].x] == old(stacks)[data[j].x].(cum := old(stacks)[data[j].x].cum - data[j].y)
          && pieces[j] == CutOff(old(stacks)[data[j].x], data[j].y, percent)
      {
        var stack := stacks[data[i].x];
        var yBottom := stack.cum - data[i].y;
        var yValue := yBottom + data[i].y;
        stacks := stacks[data[i].x := stack.(cum := yBottom)];
        pieces := pieces + [Piece(Shown(yBottom, stack.total, percent), Shown(yValue, stack.total, percent),
                                  Shown(data[i].y, stack.total, true))];
      }
    }

    /** After the passes over the series before k, what is left of each stack is
        what the others still take. */
    ghost predicate LeftOver(series: seq<seq<Point>>, xs: seq<real>, k: nat)
      reads this
      requires k <= |series|
    {
      forall i :: 0 <= i < |xs| && Occupied(series, |series|, i) ==>
        xs[i] in stacks && stacks[xs[i]] == Stack(Total(series, i), Rest(series, k, i))
    }

    /** Gathering and then translating every series once, over fresh stacks. */
    method TranslateAll(series: seq<seq<Point>>, ghost xs: seq<real>, percent: bool) returns (pieces: seq<seq<Piece>>)
      requires Aligned(series, xs) && stacks == map[]
      modifies `stacks
      ensures |pieces| == |series|
      ensures forall k :: 0 <= k < |series| ==> PiecesFor(series, k, percent, pieces[k])
    {
      Gather(series, xs);
      forall i | 0 <= i < |xs| ensures Sofar(series, |series|, i) == Total(series, i) {
        SofarAndRest(series, |series|, i);
      }
      pieces := [];
      for k := 0 to |series|
        invariant |pieces| == k && LeftOver(series, xs, k)
        invariant forall j :: 0 <= j < k ==> PiecesFor(series, j, percent, pieces[j])
      {
        var piece := TranslateOne(series, xs, k, percent);
        pieces := pieces + [piece];
      }
    }

    method TranslateOne(series: seq<seq<Point>>, ghost xs: seq<real>, k: nat, percent: bool) returns (pieces: seq<Piece>)
      requires Aligned(series, xs) && k < |series| && LeftOver(series, xs, k)
      modifies `stacks
      ensures LeftOver(series, xs, k + 1)
      ensures PiecesFor(series, k, percent, pieces)
    {
      assert OnGrid(series[k], xs);
      forall i | 0 <= i < |series[k]| ensures Occupied(series, |series|, i) { assert i < |series[k]|; }
      pieces := TranslateSeries(series[k], percent);
    }
  }

  ghost predicate IsFresh(stacks: map<real, Stack>, x: real, level: real) {
    x in stacks && stacks[x] == Stack(level, level)
  }

  /** The sum of column j when the points before i of series k are in. */
  ghost function Level(series: seq<seq<Point>>, k: nat, i: nat, j: nat): real
    requires k < |series|
  {
    if j < i then Sofar(series, k + 1, j) else Sofar(series, k, j)
  }

  ghost predicate PiecesFor(series: seq<seq<Point>>, k: nat, percent: bool, pieces: seq<Piece>)
    requires k < |series|
  {
    |pieces| == |series[k]| && forall i :: 0 <= i < |pieces| ==> pieces[i] == PieceOf(series, k, i, percent)
  }

  /** The piece a series cuts off a stack. */
  function CutOff(stack: Stack, y: real, percent: bool): Piece {
    Piece(Shown(stack.cum - y, stack.total, percent), Shown(stack.cum, stack.total, percent),
          Shown(y, stack.total, true))
  }

  lemma {:induction false} Unoccupied(series: seq<seq<Point>>, k: nat, i: nat)
    requires k <= |series| && !Occupied(series, k, i)
    ensures Sofar(series, k, i) == 0.0
  {
    if k > 0 {
      assert !(i < |series[k-1]|);
      Unoccupied(series, k - 1, i);
    }
  }
}
