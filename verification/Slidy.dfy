/** Slide navigation: which slide is displayed, which incremental items of it
    are revealed, and how far the presentation has come. */
module Slidy {
  import opened Wrappers
  import opened TreeWalk

  datatype Visibility = Visible | Hidden

  /** A place in the presentation: a slide and how many of its items show. */
  datatype Position = Position(slide: nat, revealed: nat)

  ghost function ItemCount(slides: seq<Tree>, i: nat): nat
    requires i < |slides|
  {
    |Items(slides[i])|
  }

  ghost predicate InShow(slides: seq<Tree>, pos: Position) {
    pos.slide < |slides| && pos.revealed <= ItemCount(slides, pos.slide)
  }

  // ---------- Where each command leads ----------

  ghost function NextPosition(slides: seq<Tree>, pos: Position, incremental: bool): (next: Position)
    requires InShow(slides, pos)
    ensures InShow(slides, next)
  {
    var last := pos.slide == |slides| - 1;
    if (incremental || last) && pos.revealed < ItemCount(slides, pos.slide) then
      Position(pos.slide, pos.revealed + 1)
    else if !last then Position(pos.slide + 1, 0)
    else pos
  }

  ghost function PreviousPosition(slides: seq<Tree>, pos: Position, incremental: bool): (prev: Position)
    requires InShow(slides, pos)
    ensures InShow(slides, prev)
  {
    if (incremental || pos.slide == 0) && pos.revealed > 0 then Position(pos.slide, pos.revealed - 1)
    else if pos.slide > 0 then Position(pos.slide - 1, ItemCount(slides, pos.slide - 1))
    else pos
  }

  ghost function LastPosition(slides: seq<Tree>): (last: Position)
    requires slides != []
    ensures InShow(slides, last)
  {
    Position(|slides| - 1, ItemCount(slides, |slides| - 1))
  }

  /** The home command leaves the first slide as it is. */
  ghost function FirstPosition(pos: Position): Position {
    if pos.slide == 0 then pos else Position(0, 0)
  }

  /** All of the last slide is revealed and a whole-slide step forward is asked for. */
  ghost predicate Stranded(slides: seq<Tree>, pos: Position, incremental: bool)
    requires InShow(slides, pos)
  {
    !incremental && pos.slide == |slides| - 1 && pos.revealed == ItemCount(slides, pos.slide) > 0
  }

  /** What the user sees: a position of one slide, or the overview of all slides
      with a current one; which of them are displayed changes there too. */
  datatype View = Single(pos: Position) | Overview(slide: nat, displayed: seq<bool>)

  ghost predicate InView(slides: seq<Tree>, v: View) {
    match v
    case Single(pos) => InShow(slides, pos)
    case Overview(slide, displayed) => slide < |slides| == |displayed|
  }

  /** What keys, clicks and the address bar ask for. */
  datatype Command = Next(incremental: bool) | Previous(incremental: bool) | First | Last | Goto(num: nat) | Toggle

  ghost predicate Allowed(slides: seq<Tree>, v: View, c: Command)
    requires InView(slides, v)
  {
    match c
    case Next(incremental) => v.Single? ==> !Stranded(slides, v.pos, incremental)
    case Goto(num) => num < |slides|
    case _ => true
  }

  ghost function After(slides: seq<Tree>, v: View, c: Command): (next: View)
    requires InView(slides, v) && Allowed(slides, v, c)
    ensures InView(slides, next)
  {
    if v.Single? then
      match c
      case Next(incremental) => Single(NextPosition(slides, v.pos, incremental))
      case Previous(incremental) => Single(PreviousPosition(slides, v.pos, incremental))
      case First => Single(FirstPosition(v.pos))
      case Last => Single(LastPosition(slides))
      case Goto(num) => Single(Position(num, 0))
      case Toggle => Overview(v.pos.slide, AllDisplayed(|slides|))
    else
      match c
      case Goto(num) => Overview(num, v.displayed[v.slide := false][num := true])
      case Toggle => Single(Position(v.slide, ItemCount(slides, v.slide)))
      case _ => v
  }

  ghost function AllDisplayed(n: nat): seq<bool> {
    seq(n, _ => true)
  }

  lemma OneHidden(n: nat, i: nat, j: nat)
    requires i < n && j < n
    ensures AllDisplayed(n)[i := false][j := true] == AllDisplayed(n) <==> i == j
  {
    assert i != j ==> !AllDisplayed(n)[i := false][j := true][i];
  }

  ghost predicate AllowedRun(slides: seq<Tree>, v: View, cs: seq<Command>)
    requires InView(slides, v)
    decreases |cs|
  {
    cs == [] || (Allowed(slides, v, cs[0]) && AllowedRun(slides, After(slides, v, cs[0]), cs[1..]))
  }

  ghost function AfterRun(slides: seq<Tree>, v: View, cs: seq<Command>): (end: View)
    requires InView(slides, v) && AllowedRun(slides, v, cs)
    ensures InView(slides, end)
    decreases |cs|
  {
    if cs == [] then v else AfterRun(slides, After(slides, v, cs[0]), cs[1..])
  }

  // ---------- Rank: steps from the start of the show ----------

  ghost function StepsBefore(slides: seq<Tree>, i: nat): nat
    requires i <= |slides|
  {
    if i == 0 then 0 else StepsBefore(slides, i - 1) + ItemCount(slides, i - 1) + 1
  }

  ghost function Rank(slides: seq<Tree>, pos: Position): nat
    requires InShow(slides, pos)
  {
    StepsBefore(slides, pos.slide) + pos.revealed
  }

  lemma {:induction false} StepsGrow(slides: seq<Tree>, i: nat, j: nat)
    requires i < j <= |slides|
    ensures StepsBefore(slides, i) + ItemCount(slides, i) < StepsBefore(slides, j)
  {
    if i + 1 < j { StepsGrow(slides, i, j - 1); }
  }

  /** A position is determined by its rank. */
  lemma RankInjective(slides: seq<Tree>, p: Position, q: Position)
    requires InShow(slides, p) && InShow(slides, q) && Rank(slides, p) == Rank(slides, q)
    ensures p == q
  {
    if p.slide < q.slide { StepsGrow(slides, p.slide, q.slide); }
    if q.slide < p.slide { StepsGrow(slides, q.slide, p.slide); }
  }

  /** The end of the show has the largest rank, and it alone. */
  lemma RankBounded(slides: seq<Tree>, pos: Position)
    requires InShow(slides, pos)
    ensures Rank(slides, pos) <= Rank(slides, LastPosition(slides))
    ensures Rank(slides, pos) == Rank(slides, LastPosition(slides)) <==> pos == LastPosition(slides)
  {
    if pos.slide < |slides| - 1 { StepsGrow(slides, pos.slide, |slides| - 1); }
  }

  /** One incremental step forward raises the rank by one, or does nothing at
      the end; one back lowers it by one, or does nothing at the start. */
  lemma IncrementalSteps(slides: seq<Tree>, pos: Position)
    requires InShow(slides, pos)
    ensures var next := NextPosition(slides, pos, true);
            if pos == LastPosition(slides) then next == pos else Rank(slides, next) == Rank(slides, pos) + 1
    ensures var prev := PreviousPosition(slides, pos, true);
            if pos == Position(0, 0) then prev == pos else Rank(slides, prev) == Rank(slides, pos) - 1
  {
  }

  /** Whole-slide steps: forward over what is left of the slide to the start of the
      next, back over what is revealed to the end of the one before. On the last slide
      and on the first they go item by item. */
  lemma WholeSteps(slides: seq<Tree>, pos: Position)
    requires InShow(slides, pos)
    ensures var next := NextPosition(slides, pos, false);
            if pos.slide < |slides| - 1
            then next.slide == pos.slide + 1 && next.revealed == 0
                 && Rank(slides, next) == Rank(slides, pos) + (ItemCount(slides, pos.slide) - pos.revealed) + 1
            else if pos == LastPosition(slides) then next == pos
            else Rank(slides, next) == Rank(slides, pos) + 1
    ensures var prev := PreviousPosition(slides, pos, false);
            if pos.slide > 0
            then prev.slide == pos.slide - 1 && prev.revealed == ItemCount(slides, prev.slide)
                 && Rank(slides, prev) == Rank(slides, pos) - pos.revealed - 1
            else if pos.revealed == 0 then prev == pos
            else Rank(slides, prev) == Rank(slides, pos) - 1
  {
  }

  /** Where the commands lead, from one slide or from the overview. */
  lemma CommandsLead(slides: seq<Tree>, v: View, num: nat)
    requires InView(slides, v) && num < |slides|
    ensures v.Single? ==>
              && (forall incremental :: !Stranded(slides, v.pos, incremental) ==>
                    After(slides, v, Next(incremental)) == Single(NextPosition(slides, v.pos, incremental)))
              && (forall incremental ::
                    After(slides, v, Previous(incremental)) == Single(PreviousPosition(slides, v.pos, incremental)))
              && After(slides, v, Goto(num)) == Single(Position(num, 0))
              && Rank(slides, After(slides, v, Last).pos) >= Rank(slides, v.pos)
              && After(slides, v, Last).pos.slide == |slides| - 1
              && After(slides, v, First).pos.slide == 0
              && After(slides, v, First).pos.revealed == (if v.pos.slide == 0 then v.pos.revealed else 0)
              && After(slides, v, Toggle).Overview? && After(slides, v, Toggle).slide == v.pos.slide
              && forall i :: 0 <= i < |slides| ==> After(slides, v, Toggle).displayed[i]
    ensures v.Overview? ==>
              && After(slides, v, Goto(num)).Overview? && After(slides, v, Goto(num)).slide == num
              && (forall i :: 0 <= i < |slides| ==>
                    (After(slides, v, Goto(num)).displayed[i] <==> i == num || (i != v.slide && v.displayed[i])))
              && After(slides, v, Toggle) == Single(Position(v.slide, |Items(slides[v.slide])|))
              && After(slides, v, First) == After(slides, v, Last) == v
              && forall incremental :: After(slides, v, Next(incremental)) == After(slides, v, Previous(incremental)) == v
  {
    if v.Single? { RankBounded(slides, v.pos); }
  }

  /** Away from the ends, forward and back undo each other. */
  lemma StepsInverse(slides: seq<Tree>, pos: Position)
    requires InShow(slides, pos)
    ensures pos != LastPosition(slides) ==>
              PreviousPosition(slides, NextPosition(slides, pos, true), true) == pos
    ensures pos != Position(0, 0) ==>
              NextPosition(slides, PreviousPosition(slides, pos, true), true) == pos
  {
    var next, prev := NextPosition(slides, pos, true), PreviousPosition(slides, pos, true);
    IncrementalSteps(slides, pos);
    if pos != LastPosition(slides) {
      IncrementalSteps(slides, next);
      RankInjective(slides, PreviousPosition(slides, next, true), pos);
    }
    if pos != Position(0, 0) {
      RankBounded(slides, pos);
      IncrementalSteps(slides, prev);
      RankInjective(slides, NextPosition(slides, prev, true), pos);
    }
  }

  ghost function Forward(slides: seq<Tree>, pos: Position, steps: nat): (end: Position)
    requires InShow(slides, pos)
    ensures InShow(slides, end)
  {
    if steps == 0 then pos else NextPosition(slides, Forward(slides, pos, steps - 1), true)
  }

  /** Pressing forward n times from the start tours every position: the n-th is
      the one of rank n, until the end is reached and kept. */
  lemma {:induction false} Tour(slides: seq<Tree>, n: nat)
    requires slides != []
    ensures Rank(slides, Forward(slides, Position(0, 0), n))
         == if n <= Rank(slides, LastPosition(slides)) then n else Rank(slides, LastPosition(slides))
  {
    if n > 0 {
      Tour(slides, n - 1);
      var pos := Forward(slides, Position(0, 0), n - 1);
      RankBounded(slides, pos);
      IncrementalSteps(slides, pos);
    }
  }

  /** Every position is met on the tour, after exactly as many steps as its rank. */
  lemma TourReaches(slides: seq<Tree>, pos: Position)
    requires InShow(slides, pos)
    ensures Forward(slides, Position(0, 0), Rank(slides, pos)) == pos
  {
    RankBounded(slides, pos);
    Tour(slides, Rank(slides, pos));
    RankInjective(slides, Forward(slides, Position(0, 0), Rank(slides, pos)), pos);
  }

  // ---------- The navigation state ----------

  lemma ItemsDistinct(t: Tree)
    ensures forall i, j :: 0 <= i < j < |Items(t)| ==> Items(t)[i] != Items(t)[j]
  {
    forall i, j | 0 <= i < j < |Items(t)| ensures Items(t)[i] != Items(t)[j] { ItemsSorted(t, i, j); }
  }

  type Visibilities = map<(nat, Path), Visibility>

  ghost predicate IsSet(v: Visibilities, key: (nat, Path), value: Visibility) {
    key in v && v[key] == value
  }

  /** Exactly the first k items of slide number i are visible, the others hidden. */
  ghost predicate ItemsShown(slides: seq<Tree>, i: nat, v: Visibilities, k: nat)
    requires i < |slides|
  {
    forall j :: 0 <= j < ItemCount(slides, i) ==>
      IsSet(v, (i, Items(slides[i])[j]), if j < k then Visible else Hidden)
  }

  /** Nodes of slides other than number i keep their inline visibility. */
  ghost predicate SameElsewhere(was: Visibilities, now: Visibilities, i: nat) {
    forall key: (nat, Path) :: key.0 != i ==>
      (key in now <==> key in was) && (key in was ==> now[key] == was[key])
  }

  class Presentation {
    const slides: seq<Tree>
    var slidenum: nat
    var lastShown: Option<Path>
    var viewAll: bool
    /** Which slides have display "block" and visibility "visible". */
    var displayed: seq<bool>
    /** Inline visibility set on nodes of a slide, by slide number and path. */
    var visibility: Visibilities
    /** The end-of-slide indicator: true when nothing is left to reveal. */
    var eos: bool

    ghost predicate Valid()
      reads `slidenum, `displayed
    {
      slidenum < |slides| == |displayed|
    }

    /** Exactly the current slide is displayed. */
    ghost predicate OnlyCurrentDisplayed()
      reads `slidenum, `displayed
      requires Valid()
    {
      forall i :: 0 <= i < |slides| ==> (displayed[i] <==> i == slidenum)
    }

    /** The invariant of single-slide view. */
    ghost predicate Showing(pos: Position)
      reads `slidenum, `lastShown, `displayed, `visibility
    {
      && Valid() && InShow(slides, pos) && slidenum == pos.slide
      && lastShown == ItemAt(slides[slidenum], pos.revealed - 1)
      && OnlyCurrentDisplayed()
      && ItemsShown(slides, slidenum, visibility, pos.revealed)
    }

    /** The invariant over whole runs. */
    ghost predicate Shows(v: View)
      reads this
    {
      match v
      case Single(pos) => !viewAll && Showing(pos)
      case Overview(slide, displayed) => viewAll && Valid() && slidenum == slide && this.displayed == displayed
    }

    ghost predicate EosIs(pos: Position)
      reads this
    {
      InShow(slides, pos) && (eos <==> pos.revealed == ItemCount(slides, pos.slide))
    }

    /** The presentation as the page loader leaves it just before singleSlideView:
        nothing displayed yet, the slide number taken from the address. */
    constructor (slides: seq<Tree>, start: nat)
      requires start < |slides|
      ensures Valid() && this.slides == slides && slidenum == start && !viewAll
    {
      this.slides := slides;
      slidenum := start;
      lastShown := None;
      viewAll := false;
      displayed := seq(|slides|, _ => false);
      visibility := map[];
      eos := false;
    }

    method ShowSlide(i: nat)
      requires Valid() && i < |slides|
      modifies `displayed
      ensures displayed == old(displayed)[i := true]
    {
      displayed := displayed[i := true];
    }

    method HideSlide(i: nat)
      requires Valid() && i < |slides|
      modifies `displayed
      ensures displayed == old(displayed)[i := false]
    {
      displayed := displayed[i := false];
    }

    method SetVisibilityAllIncremental(value: Visibility)
      requires Valid()
      modifies `visibility
      ensures ItemsShown(slides, slidenum, visibility, if value == Visible then ItemCount(slides, slidenum) else 0)
      ensures SameElsewhere(old(visibility), visibility, slidenum)
    {
      var slide := slides[slidenum];
      ItemsDistinct(slide);
      var node := NextIncrementalItem(slide, None, -1);
      ghost var n := 0;
      while node.Some?
        invariant n <= |Items(slide)| && node == ItemAt(slide, n)
        invariant forall j :: 0 <= j < n ==> IsSet(visibility, (slidenum, Items(slide)[j]), value)
        invariant SameElsewhere(old(visibility), visibility, slidenum)
        decreases |Items(slide)| - n
      {
        visibility := visibility[(slidenum, node.value) := value];
        node := NextIncrementalItem(slide, node, n);
        n := n + 1;
      }
    }

    /** Reveals item k and returns it; null when all are revealed. */
    method RevealNextItem(node: Option<Path>, ghost k: nat) returns (r: Option<Path>)
      requires Valid() && k <= |Items(slides[slidenum])| && node == ItemAt(slides[slidenum], k - 1)
      requires ItemsShown(slides, slidenum, visibility, k)
      modifies `visibility
      ensures r == ItemAt(slides[slidenum], k)
      ensures r == None ==> visibility == old(visibility)
      ensures ItemsShown(slides, slidenum, visibility, if r.Some? then k + 1 else k)
      ensures SameElsewhere(old(visibility), visibility, slidenum)
    {
      ItemsDistinct(slides[slidenum]);
      r := NextIncrementalItem(slides[slidenum], node, k - 1);
      if r.Some? { visibility := visibility[(slidenum, r.value) := Visible]; }
    }

    /** Undoes RevealNextItem: hides item k - 1 and returns the one before it. */
    method HidePreviousItem(node: Option<Path>, ghost k: nat) returns (r: Option<Path>)
      requires Valid() && 1 <= k <= |Items(slides[slidenum])| && node == ItemAt(slides[slidenum], k - 1)
      requires ItemsShown(slides, slidenum, visibility, k)
      modifies `visibility
      ensures r == ItemAt(slides[slidenum], k - 2)
      ensures ItemsShown(slides, slidenum, visibility, k - 1)
      ensures SameElsewhere(old(visibility), visibility, slidenum)
    {
      ItemsDistinct(slides[slidenum]);
      visibility := visibility[(slidenum, node.value) := Hidden];
      r := PreviousIncrementalItem(slides[slidenum], node, k - 1);
    }

    /** Sets the indicator by whether an item is left behind the last k. */
    method SetEosStatus(ghost k: nat)
      requires Valid() && k <= ItemCount(slides, slidenum) && lastShown == ItemAt(slides[slidenum], k - 1)
      modifies `eos
      ensures eos <==> k == ItemCount(slides, slidenum)
    {
      var more := NextIncrementalItem(slides[slidenum], lastShown, k - 1);
      eos := more == None;
    }

    /** The end state of each "everything on this slide shows" branch. */
    method RevealAll()
      requires Valid()
      modifies `visibility, `lastShown
      ensures ItemsShown(slides, slidenum, visibility, |Items(slides[slidenum])|)
      ensures lastShown == ItemAt(slides[slidenum], |Items(slides[slidenum])| - 1)
      ensures SameElsewhere(old(visibility), visibility, slidenum)
    {
      SetVisibilityAllIncremental(Visible);
      lastShown := PreviousIncrementalItem(slides[slidenum], None, |Items(slides[slidenum])|);
    }

    /** Leaves the current slide for slide num with nothing of it revealed. */
    method EnterHidden(num: nat)
      requires Valid() && num < |slides|
      modifies `slidenum, `lastShown, `displayed, `visibility
      ensures Valid() && slidenum == num && lastShown == None && ItemsShown(slides, num, visibility, 0)
      ensures displayed == old(displayed)[old(slidenum) := false][num := true]
      ensures old(OnlyCurrentDisplayed()) ==> Showing(Position(num, 0))
      ensures SameElsewhere(old(visibility), visibility, slidenum)
    {
      HideSlide(slidenum);
      slidenum := num;
      lastShown := None;
      SetVisibilityAllIncremental(Hidden);
      ShowSlide(slidenum);
    }

    /** Leaves the current slide for slide num with all of it revealed. */
    method EnterRevealed(num: nat)
      requires Valid() && OnlyCurrentDisplayed() && num < |slides|
      modifies `slidenum, `lastShown, `displayed, `visibility
      ensures Showing(Position(num, ItemCount(slides, num)))
      ensures SameElsewhere(old(visibility), visibility, slidenum)
    {
      HideSlide(slidenum);
      slidenum := num;
      RevealAll();
      ShowSlide(slidenum);
    }

    method SingleSlideView()
      requires Valid()
      modifies `displayed, `visibility, `lastShown
      ensures Showing(Position(slidenum, ItemCount(slides, slidenum)))
      ensures SameElsewhere(old(visibility), visibility, slidenum)
    {
      for i := 0 to |slides|
        invariant |displayed| == |slides|
        invariant forall j :: 0 <= j < i ==> (displayed[j] <==> j == slidenum)
        invariant visibility == old(visibility)
      {
        if i == slidenum { ShowSlide(i); } else { HideSlide(i); }
      }
      RevealAll();
    }

    /** The last item is forgotten although every item shows. */
    ghost predicate Lost(pos: Position)
      reads `slidenum, `lastShown, `displayed, `visibility
    {
      && Valid() && slidenum == pos.slide && pos.revealed == ItemCount(slides, slidenum) > 0
      && lastShown == None && ItemsShown(slides, slidenum, visibility, pos.revealed)
    }

    lemma LostShowsNoPosition(pos: Position, p: Position)
      requires Lost(pos)
      ensures !Showing(p)
    {
      var first := (slidenum, Items(slides[slidenum])[0]);
      assert IsSet(visibility, first, Visible);
    }

    /** Keeps single-slide view exactly when the step is not a stranded one. */
    method NextSlide(incremental: bool, ghost pos: Position)
      requires !viewAll ==> Showing(pos)
      modifies `slidenum, `lastShown, `displayed, `visibility, `eos
      ensures viewAll ==> unchanged(this)
      ensures !viewAll && !Stranded(slides, pos, incremental) ==>
                Showing(NextPosition(slides, pos, incremental)) && EosIs(NextPosition(slides, pos, incremental))
      ensures !viewAll && Stranded(slides, pos, incremental) ==> Lost(pos)
      ensures SameElsewhere(old(visibility), visibility, slidenum)
    {
      if !viewAll {
        var last := lastShown;
        ghost var k: int := pos.revealed;
        if incremental || slidenum == |slides| - 1 {
          lastShown := RevealNextItem(lastShown, k);
          k := k + 1;
        }
        if (!incremental || lastShown == None) && slidenum < |slides| - 1 {
          EnterHidden(slidenum + 1);
          k := 0;
        } else if lastShown == None {
          k := 0;
          if last.Some? && incremental {
            lastShown := last;
            k := pos.revealed;
          }
        }
        assert if Stranded(slides, pos, incremental) then Lost(pos)
               else Showing(NextPosition(slides, pos, incremental)) && k == NextPosition(slides, pos, incremental).revealed;
        SetEosStatus(k);
      }
    }

    method PreviousSlide(incremental: bool, ghost pos: Position)
      requires !viewAll ==> Showing(pos)
      modifies `slidenum, `lastShown, `displayed, `visibility, `eos
      ensures viewAll ==> unchanged(this)
      ensures !viewAll ==> Showing(PreviousPosition(slides, pos, incremental))
      ensures !viewAll && PreviousPosition(slides, pos, incremental) != pos ==>
                EosIs(PreviousPosition(slides, pos, incremental))
      ensures SameElsewhere(old(visibility), visibility, slidenum)
    {
      if !viewAll {
        if (incremental || slidenum == 0) && lastShown != None {
          lastShown := HidePreviousItem(lastShown, pos.revealed);
          eos := false;
        } else if slidenum > 0 {
          EnterRevealed(slidenum - 1);
          eos := true;
        }
      }
    }

    method FirstSlide(ghost pos: Position)
      requires !viewAll ==> Showing(pos)
      modifies `slidenum, `lastShown, `displayed, `visibility, `eos
      ensures viewAll ==> unchanged(this)
      ensures !viewAll ==> Showing(FirstPosition(pos)) && EosIs(FirstPosition(pos))
      ensures !viewAll ==> slidenum == 0 && displayed[0]
      ensures !viewAll && pos.slide > 0 ==> lastShown == None && ItemsShown(slides, 0, visibility, 0)
      ensures !viewAll && pos.slide == 0 ==> lastShown == old(lastShown) && visibility == old(visibility)
      ensures SameElsewhere(old(visibility), visibility, slidenum)
    {
      if !viewAll {
        if slidenum != 0 {
          EnterHidden(0);
        }
        SetEosStatus(FirstPosition(pos).revealed);
      }
    }

    method LastSlide(ghost pos: Position)
      requires !viewAll ==> Showing(pos)
      modifies `slidenum, `lastShown, `displayed, `visibility, `eos
      ensures viewAll ==> unchanged(this)
      ensures !viewAll ==> Showing(LastPosition(slides)) && EosIs(LastPosition(slides))
      ensures !viewAll ==> slidenum == |slides| - 1 && eos
      ensures !viewAll ==> ItemsShown(slides, slidenum, visibility, ItemCount(slides, slidenum))
      ensures SameElsewhere(old(visibility), visibility, slidenum)
    {
      if !viewAll {
        lastShown := None;
        if lastShown == None && slidenum < |slides| - 1 {
          EnterRevealed(|slides| - 1);
        } else {
          RevealAll();
        }
        eos := true;
      }
    }

    /** Not guarded by viewAll: in the overview it hides the slide that was current.
        The number is in range when the address is. */
    method GotoSlide(num: nat, ghost v: View)
      requires Shows(v) && num < |slides|
      modifies `slidenum, `lastShown, `displayed, `visibility, `eos
      ensures Shows(After(slides, v, Goto(num))) && EosIs(Position(num, 0))
      ensures lastShown == None && ItemsShown(slides, num, visibility, 0)
      ensures SameElsewhere(old(visibility), visibility, slidenum)
      ensures v == Overview(old(slidenum), AllDisplayed(|slides|)) ==>
                (displayed == AllDisplayed(|slides|) <==> num == old(slidenum))
    {
      OneHidden(|slides|, slidenum, num);
      EnterHidden(num);
      SetEosStatus(0);
    }

    method ShowAllSlides()
      requires Valid()
      modifies `displayed, `visibility
      ensures Valid() && forall i :: 0 <= i < |slides| ==> displayed[i]
      ensures ItemsShown(slides, slidenum, visibility, |Items(slides[slidenum])|)
    {
      for i := 0 to |slides|
        invariant |displayed| == |slides|
        invariant forall j :: 0 <= j < i ==> displayed[j]
        invariant i > 0 ==> ItemsShown(slides, slidenum, visibility, |Items(slides[slidenum])|)
      {
        SetVisibilityAllIncremental(Visible);
        ShowSlide(i);
      }
    }

    /** Leaving the view of all slides gives back single-slide view with the
        current slide fully revealed; the end-of-slide indicator is not updated. */
    method ToggleView()
      requires Valid()
      modifies `lastShown, `viewAll, `displayed, `visibility
      ensures viewAll == !old(viewAll) && Valid()
      ensures viewAll ==> displayed == AllDisplayed(|slides|) && lastShown == old(lastShown)
      ensures viewAll ==> ItemsShown(slides, slidenum, visibility, ItemCount(slides, slidenum))
      ensures !viewAll ==> Showing(Position(slidenum, ItemCount(slides, slidenum)))
      ensures !viewAll ==> (EosIs(Position(slidenum, ItemCount(slides, slidenum))) <==> old(eos))
    {
      if viewAll {
        SingleSlideView();
        viewAll := false;
      } else {
        ShowAllSlides();
        viewAll := true;
      }
    }

    method Perform(c: Command, ghost v: View)
      requires Shows(v) && InView(slides, v) && Allowed(slides, v, c)
      modifies this
      ensures Shows(After(slides, v, c))
    {
      ghost var pos := if v.Single? then v.pos else Position(0, 0);
      match c
      case Next(incremental) => NextSlide(incremental, pos);
      case Previous(incremental) => PreviousSlide(incremental, pos);
      case First => FirstSlide(pos);
      case Last => LastSlide(pos);
      case Goto(num) => GotoSlide(num, v);
      case Toggle => ToggleView();
    }

    /** Any run of commands keeps the invariant and ends in the view the commands
        alone determine, as long as no step strands and no address is out of range. */
    method Replay(cs: seq<Command>, ghost v: View)
      requires Shows(v) && InView(slides, v) && AllowedRun(slides, v, cs)
      modifies this
      ensures Shows(AfterRun(slides, v, cs))
    {
      ghost var at := v;
      for i := 0 to |cs|
        invariant Shows(at) && InView(slides, at) && AllowedRun(slides, at, cs[i..])
        invariant AfterRun(slides, at, cs[i..]) == AfterRun(slides, v, cs)
      {
        assert cs[i..][0] == cs[i] && cs[i..][1..] == cs[i+1..];
        Perform(cs[i], at);
        at := After(slides, at, cs[i]);
      }
    }
  }

  /** A whole session: the page is loaded, switched to single-slide view and used. */
  method Session(slides: seq<Tree>, start: nat, cs: seq<Command>) returns (p: Presentation)
    requires start < |slides|
    requires AllowedRun(slides, Single(Position(start, ItemCount(slides, start))), cs)
    ensures p.slides == slides
    ensures p.Shows(AfterRun(slides, Single(Position(start, ItemCount(slides, start))), cs))
  {
    p := new Presentation(slides, start);
    p.SingleSlideView();
    p.Replay(cs, Single(Position(start, ItemCount(slides, start))));
  }

  // ---------- Where the code falls short ----------

  const ITEM: Tree := Node(true, "P", true, false, [])
  /** A show of one slide with one incremental item. */
  const ONE_ITEM: Tree := Node(true, "DIV", false, false, [ITEM])

  lemma OneItem()
    ensures Items(ONE_ITEM) == [[0]]
  {
    OneNode();
    assert IsPath(ITEM, []);
    assert IsPath(ONE_ITEM, [0]);
    assert At(ONE_ITEM, [0]) == ITEM;
    assert Parent([0]) == [];
    assert IsItem(ONE_ITEM, [0]);
    assert ItemsFrom(ONE_ITEM, 1) == [];
  }

  lemma OneNode()
    ensures Preorder(ONE_ITEM) == [[0]]
  {
    assert PreorderFrom(ITEM, 0) == [];
    assert Preorder(ITEM) == [];
    assert PreorderFrom(ONE_ITEM, 1) == [];
    assert Under(0, []) == [];
    assert PreorderFrom(ONE_ITEM, 0) == [[0]];
  }

  /** The show as loaded, all of its one slide revealed. */
  method LoadedShow() returns (p: Presentation)
    ensures fresh(p) && p.slides == [ONE_ITEM] && !p.viewAll && p.Showing(Position(0, 1))
    ensures ItemCount([ONE_ITEM], 0) == 1
  {
    OneItem();
    p := new Presentation([ONE_ITEM], 0);
    p.SingleSlideView();
  }

  /** Advancing by a whole slide on the last slide leaves no position. */
  method StrandingHappens() returns (p: Presentation)
    ensures !p.viewAll && forall q :: !p.Showing(q)
  {
    p := LoadedShow();
    p.NextSlide(false, Position(0, 1));
    forall q ensures !p.Showing(q) {
      p.LostShowsNoPosition(Position(0, 1), q);
    }
  }

  /** Going to the first slide from the first slide leaves its item revealed. */
  method FirstSlideKeepsItems() returns (p: Presentation)
    ensures !p.viewAll && p.Showing(Position(0, 1))
  {
    p := LoadedShow();
    p.FirstSlide(Position(0, 1));
  }

  /** Hiding the item, looking at the overview and coming back shows the item again,
      but the indicator still says that something is left. */
  method IndicatorGoesStale() returns (p: Presentation)
    ensures !p.viewAll && p.Showing(Position(0, 1)) && !p.EosIs(Position(0, 1))
  {
    p := LoadedShow();
    p.PreviousSlide(true, Position(0, 1));
    p.ToggleView();
    p.ToggleView();
  }

  /** Going to the second slide of two while both are shown hides the first. */
  method GotoHidesInOverview() returns (p: Presentation)
    ensures p.viewAll && p.displayed == [false, true]
  {
    p := new Presentation([ONE_ITEM, ONE_ITEM], 0);
    p.SingleSlideView();
    p.ToggleView();
    p.GotoSlide(1, Overview(0, AllDisplayed(2)));
  }
}
