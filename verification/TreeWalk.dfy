/** Document-order walks over the content of a slide: `nextNode`, `previousNode`
    and the walks filtered down to incremental items. */
module TreeWalk {
  import opened Wrappers

  /** A DOM node. `incremental` and `nonIncremental` are the answers of hasClass
      for the two class names the walks ask about. */
  datatype Tree = Node(element: bool, name: string, incremental: bool, nonIncremental: bool, kids: seq<Tree>)

  /** The child indices that lead from the root of a slide to a node. */
  type Path = seq<nat>

  // ---------- The tree seen through DOM links ----------

  ghost predicate IsPath(t: Tree, p: Path) {
    p == [] || (p[0] < |t.kids| && IsPath(t.kids[p[0]], p[1..]))
  }

  function At(t: Tree, p: Path): Tree
    requires IsPath(t, p)
  {
    if p == [] then t else At(t.kids[p[0]], p[1..])
  }

  function Parent(p: Path): Path
    requires p != []
  {
    p[..|p|-1]
  }

  function Index(p: Path): nat
    requires p != []
  {
    p[|p|-1]
  }

  lemma {:induction false} PathEnd(t: Tree, p: Path)
    requires p != []
    ensures IsPath(t, p) <==> IsPath(t, Parent(p)) && Index(p) < |At(t, Parent(p)).kids|
    ensures IsPath(t, p) ==> At(t, p) == At(t, Parent(p)).kids[Index(p)]
  {
    if |p| > 1 && p[0] < |t.kids| {
      assert Parent(p)[1..] == Parent(p[1..]);
      PathEnd(t.kids[p[0]], p[1..]);
    }
  }

  lemma ChildPath(t: Tree, p: Path, i: nat)
    requires IsPath(t, p)
    ensures IsPath(t, p + [i]) <==> i < |At(t, p).kids|
    ensures i < |At(t, p).kids| ==> At(t, p + [i]) == At(t, p).kids[i]
  {
    assert Parent(p + [i]) == p;
    PathEnd(t, p + [i]);
  }

  function Sibling(p: Path, i: nat): Path
    requires p != []
  {
    Parent(p) + [i]
  }

  predicate HasNextSibling(t: Tree, p: Path)
    requires p != [] && IsPath(t, p)
  {
    PathEnd(t, p);
    Index(p) + 1 < |At(t, Parent(p)).kids|
  }

  // ---------- Document order ----------

  /** p comes before q in document order: an ancestor before its descendants,
      and otherwise the smaller index where the two paths part. */
  predicate Before(p: Path, q: Path) {
    q != [] && (p == [] || p[0] < q[0] || (p[0] == q[0] && Before(p[1..], q[1..])))
  }

  function Under(i: nat, ps: seq<Path>): seq<Path> {
    seq(|ps|, k requires 0 <= k < |ps| => [i] + ps[k])
  }

  /** All proper descendants of t in preorder. */
  function Preorder(t: Tree): seq<Path>
    decreases t, |t.kids| + 1
  {
    PreorderFrom(t, 0)
  }

  /** The part of the preorder below the children from index i on. */
  function PreorderFrom(t: Tree, i: nat): seq<Path>
    requires i <= |t.kids|
    decreases t, |t.kids| - i
  {
    if i == |t.kids| then [] else [[i]] + Under(i, Preorder(t.kids[i])) + PreorderFrom(t, i + 1)
  }

  /** Entry j of the preorder from child i on. */
  lemma Entry(t: Tree, i: nat, j: nat)
    requires i < |t.kids| && j < |PreorderFrom(t, i)|
    ensures var b := |Preorder(t.kids[i])| + 1;
            && |PreorderFrom(t, i)| == b + |PreorderFrom(t, i + 1)|
            && PreorderFrom(t, i)[j] == if j == 0 then [i]
                                        else if j < b then [i] + Preorder(t.kids[i])[j-1]
                                        else PreorderFrom(t, i + 1)[j-b]
  {
  }

  function NodeAt(t: Tree, k: int): Option<Path> {
    ElementAt(Preorder(t), k)
  }

  function ElementAt<T>(s: seq<T>, k: int): Option<T> {
    if 0 <= k < |s| then Some(s[k]) else None
  }

  /** The preorder lists exactly the proper descendants. */
  lemma {:induction false} PreorderComplete(t: Tree, p: Path)
    ensures p in Preorder(t) <==> p != [] && IsPath(t, p)
    decreases t, |t.kids| + 1
  {
    PreorderFromComplete(t, 0, p);
  }

  lemma {:induction false} PreorderFromComplete(t: Tree, i: nat, p: Path)
    requires i <= |t.kids|
    ensures p in PreorderFrom(t, i) <==> p != [] && i <= p[0] && IsPath(t, p)
    decreases t, |t.kids| - i
  {
    if i < |t.kids| {
      PreorderFromComplete(t, i + 1, p);
      var below := Preorder(t.kids[i]);
      if p != [] && p[0] == i {
        PreorderComplete(t.kids[i], p[1..]);
        assert p == [i] + p[1..];
        if p[1..] in below {
          var k :| 0 <= k < |below| && below[k] == p[1..];
          assert Under(i, below)[k] == p;
        }
        forall k | 0 <= k < |below| && Under(i, below)[k] == p ensures below[k] == p[1..] {
          assert ([i] + below[k])[1..] == below[k];
        }
        if |p| == 1 { assert p == [i]; }
      }
      assert PreorderFrom(t, i) == [[i]] + Under(i, below) + PreorderFrom(t, i + 1);
    }
  }

  /** The preorder is strictly in document order, so it lists no node twice. */
  lemma {:induction false} PreorderSorted(t: Tree, j: nat, k: nat)
    requires j < k < |Preorder(t)|
    ensures Before(Preorder(t)[j], Preorder(t)[k])
    decreases t, |t.kids| + 1
  {
    PreorderFromSorted(t, 0, j, k);
  }

  lemma {:induction false} PreorderFromSorted(t: Tree, i: nat, j: nat, k: nat)
    requires i <= |t.kids| && j < k < |PreorderFrom(t, i)|
    ensures Before(PreorderFrom(t, i)[j], PreorderFrom(t, i)[k])
    decreases t, |t.kids| - i
  {
    var below, after := Preorder(t.kids[i]), PreorderFrom(t, i + 1);
    var b := |below| + 1;
    if j >= b {
      PreorderFromSorted(t, i + 1, j - b, k - b);
    } else if k >= b {
      assert after[k-b] in after;
      PreorderFromComplete(t, i + 1, after[k-b]);
    } else {
      assert below[k-1] in below;
      PreorderComplete(t.kids[i], below[k-1]);
      assert ([i] + below[k-1])[1..] == below[k-1];
      if j > 0 {
        PreorderSorted(t.kids[i], j - 1, k - 1);
        assert ([i] + below[j-1])[1..] == below[j-1];
      }
    }
  }

  // ---------- nextNode ----------

  /** Where the climbing loop ends up: the next sibling of the nearest ancestor
      that has one. */
  function Climb(t: Tree, p: Path): Option<Path>
    requires IsPath(t, p)
    decreases |p|
  {
    if p == [] then None
    else if HasNextSibling(t, p) then Some(Sibling(p, Index(p) + 1))
    else PathEnd(t, p); Climb(t, Parent(p))
  }

  function Lift(i: nat, r: Option<Path>, otherwise: Option<Path>): Option<Path> {
    if r.Some? then Some([i] + r.value) else otherwise
  }

  /** The same climb seen from the top. */
  lemma {:induction false} ClimbFromTop(t: Tree, i: nat, q: Path)
    requires i < |t.kids| && IsPath(t.kids[i], q)
    ensures IsPath(t, [i] + q)
    ensures Climb(t, [i] + q) == Lift(i, Climb(t.kids[i], q), if i + 1 < |t.kids| then Some([i + 1]) else None)
    decreases |q|
  {
    var p := [i] + q;
    assert p[1..] == q;
    if q == [] {
      assert Parent(p) == [] && Index(p) == i;
      assert Sibling(p, i + 1) == [i + 1];
    } else {
      PathEnd(t.kids[i], q);
      ClimbFromTop(t, i, Parent(q));
      assert Parent(p) == [i] + Parent(q) && Index(p) == Index(q);
      assert ([i] + Parent(q))[1..] == Parent(q);
      assert At(t, Parent(p)) == At(t.kids[i], Parent(q));
      assert Sibling(p, Index(p) + 1) == [i] + Sibling(q, Index(q) + 1);
    }
  }

  ghost function Next(t: Tree, p: Path): Option<Path>
    requires IsPath(t, p)
  {
    if At(t, p).kids != [] then Some(p + [0]) else Climb(t, p)
  }

  lemma NextFromTop(t: Tree, i: nat, q: Path)
    requires i < |t.kids| && IsPath(t.kids[i], q)
    ensures IsPath(t, [i] + q)
    ensures Next(t, [i] + q) == Lift(i, Next(t.kids[i], q), if i + 1 < |t.kids| then Some([i + 1]) else None)
  {
    ClimbFromTop(t, i, q);
    assert ([i] + q)[1..] == q;
    assert ([i] + q) + [0] == [i] + (q + [0]);
  }

  /** From each node of the preorder, Next is the one listed after it. */
  lemma {:induction false} NextInPreorder(t: Tree, k: nat)
    requires k < |Preorder(t)|
    ensures IsPath(t, Preorder(t)[k])
    ensures Next(t, Preorder(t)[k]) == NodeAt(t, k + 1)
    decreases t, |t.kids| + 1
  {
    NextInPreorderFrom(t, 0, k);
  }

  lemma {:induction false} NextInPreorderFrom(t: Tree, i: nat, k: nat)
    requires i <= |t.kids| && k < |PreorderFrom(t, i)|
    ensures IsPath(t, PreorderFrom(t, i)[k])
    ensures Next(t, PreorderFrom(t, i)[k]) == ElementAt(PreorderFrom(t, i), k + 1)
    decreases t, |t.kids| - i
  {
    var kid := t.kids[i];
    var below, after := Preorder(kid), PreorderFrom(t, i + 1);
    var b := |below| + 1;
    assert after != [] ==> after[0] == [i + 1];
    if k >= b {
      NextInPreorderFrom(t, i + 1, k - b);
    } else if k == 0 {
      NextFromTop(t, i, []);
      assert [i] + [] == [i];
      assert kid.kids != [] ==> below[0] == [0];
    } else {
      NextInPreorder(kid, k - 1);
      NextFromTop(t, i, below[k-1]);
    }
  }

  method NextNode(root: Tree, node: Option<Path>, ghost k: int) returns (r: Option<Path>)
    requires -1 <= k < |Preorder(root)| && node == NodeAt(root, k)
    ensures r == NodeAt(root, k + 1)
  {
    if node == None {
      if root.kids == [] { return None; }
      return Some([0]);
    }
    NextInPreorder(root, k);
    var p := node.value;
    if At(root, p).kids != [] { return Some(p + [0]); }
    PreorderComplete(root, p);
    if HasNextSibling(root, p) { return Some(Sibling(p, Index(p) + 1)); }
    while true
      invariant p != [] && IsPath(root, p) && !HasNextSibling(root, p)
      invariant Climb(root, p) == NodeAt(root, k + 1)
      decreases |p|
    {
      PathEnd(root, p);
      p := Parent(p);
      if p == [] { break; }
      if HasNextSibling(root, p) { return Some(Sibling(p, Index(p) + 1)); }
    }
    return None;
  }

  // ---------- previousNode ----------

  /** Where the descending loop ends up below t. */
  function LastBelow(t: Tree): Path {
    if t.kids == [] then [] else [|t.kids| - 1] + LastBelow(t.kids[|t.kids|-1])
  }

  lemma {:induction false} LastInPreorder(t: Tree)
    ensures t.kids == [] <==> Preorder(t) == []
    ensures t.kids != [] ==> Preorder(t)[|Preorder(t)|-1] == LastBelow(t)
    decreases t, |t.kids| + 1
  {
    if t.kids != [] { LastInPreorderFrom(t, 0); }
  }

  lemma {:induction false} LastInPreorderFrom(t: Tree, i: nat)
    requires i < |t.kids|
    ensures |PreorderFrom(t, i)| > 0
    ensures PreorderFrom(t, i)[|PreorderFrom(t, i)|-1] == LastBelow(t)
    decreases t, |t.kids| - i
  {
    if i + 1 < |t.kids| {
      LastInPreorderFrom(t, i + 1);
    } else {
      assert PreorderFrom(t, i + 1) == [];
      LastInPreorder(t.kids[i]);
    }
  }

  /** The node before p, or the root itself when p is the first node. */
  ghost function Prev(t: Tree, p: Path): Path
    requires p != [] && IsPath(t, p)
  {
    PathEnd(t, p);
    if Index(p) > 0 then Sibling(p, Index(p) - 1) + LastBelow(At(t, Parent(p)).kids[Index(p)-1]) else Parent(p)
  }

  ghost predicate Precedes(t: Tree, q: Path, p: Path) {
    p != [] && IsPath(t, p) && Prev(t, p) == q
  }

  lemma PrevFromTop(t: Tree, i: nat, q: Path)
    requires i < |t.kids| && q != [] && IsPath(t.kids[i], q)
    ensures IsPath(t, [i] + q)
    ensures Prev(t, [i] + q) == [i] + Prev(t.kids[i], q)
  {
    var p := [i] + q;
    assert p[1..] == q;
    PathEnd(t, p);
    PathEnd(t.kids[i], q);
    assert Parent(p) == [i] + Parent(q) && Index(p) == Index(q);
    assert ([i] + Parent(q))[1..] == Parent(q);
    assert At(t, Parent(p)) == At(t.kids[i], Parent(q));
    if Index(q) > 0 {
      assert Sibling(p, Index(p) - 1) == [i] + Sibling(q, Index(q) - 1);
    }
  }

  ghost function RootAs(p: Option<Path>): Path {
    if p.Some? then p.value else []
  }

  lemma {:induction false} PrevInPreorder(t: Tree, k: nat)
    requires k < |Preorder(t)|
    ensures Precedes(t, RootAs(NodeAt(t, k - 1)), Preorder(t)[k])
    decreases t, |t.kids| + 1
  {
    PrevInPreorderFrom(t, 0, k);
  }

  /** The node listed just before the part of the preorder from child i on. */
  ghost function EndBefore(t: Tree, i: nat): Path
    requires i <= |t.kids|
  {
    if i == 0 then [] else [i - 1] + LastBelow(t.kids[i-1])
  }

  lemma PrevOfChild(t: Tree, i: nat)
    requires i < |t.kids|
    ensures Precedes(t, EndBefore(t, i), [i])
  {
    assert Parent([i]) == [] && Index([i]) == i;
    if i > 0 { assert Sibling([i], i - 1) == [i - 1]; }
  }

  lemma EndOfChild(t: Tree, i: nat)
    requires i < |t.kids|
    ensures PreorderFrom(t, i)[|Preorder(t.kids[i])|] == EndBefore(t, i + 1)
  {
    LastInPreorder(t.kids[i]);
    Entry(t, i, |Preorder(t.kids[i])|);
    assert [i] + [] == [i];
  }

  lemma {:induction false} PrevInPreorderFrom(t: Tree, i: nat, k: nat)
    requires i <= |t.kids| && k < |PreorderFrom(t, i)|
    ensures Precedes(t, if k == 0 then EndBefore(t, i) else PreorderFrom(t, i)[k-1], PreorderFrom(t, i)[k])
    decreases t, |t.kids| - i
  {
    var b := |Preorder(t.kids[i])| + 1;
    Entry(t, i, k);
    if k == 0 {
      PrevOfChild(t, i);
    } else if k < b {
      Entry(t, i, k - 1);
      PrevBelowChild(t, i, k - 1);
    } else {
      PrevInPreorderFrom(t, i + 1, k - b);
      if k == b { EndOfChild(t, i); } else { Entry(t, i, k - 1); }
    }
  }

  lemma {:induction false} PrevBelowChild(t: Tree, i: nat, k: nat)
    requires i < |t.kids| && k < |Preorder(t.kids[i])|
    ensures Precedes(t, if k == 0 then [i] else [i] + Preorder(t.kids[i])[k-1], [i] + Preorder(t.kids[i])[k])
    decreases t, 0
  {
    PrevInPreorder(t.kids[i], k);
    PrevFromTop(t, i, Preorder(t.kids[i])[k]);
    assert [i] + [] == [i];
  }

  /** The inner loop of previousNode: down the last children. */
  method Deepest(root: Tree, start: Path) returns (p: Path)
    requires IsPath(root, start)
    ensures p == start + LastBelow(At(root, start))
  {
    p := start;
    while At(root, p).kids != []
      invariant IsPath(root, p)
      invariant p + LastBelow(At(root, p)) == start + LastBelow(At(root, start))
      decreases At(root, p)
    {
      var last := |At(root, p).kids| - 1;
      ChildPath(root, p, last);
      assert p + ([last] + LastBelow(At(root, p).kids[last])) == (p + [last]) + LastBelow(At(root, p).kids[last]);
      p := p + [last];
    }
    assert p + [] == p;
  }

  /** The null node stands behind the last one here, so it has index |Preorder|. */
  method PreviousNode(root: Tree, node: Option<Path>, ghost k: nat) returns (r: Option<Path>)
    requires k <= |Preorder(root)| && node == NodeAt(root, k)
    ensures r == NodeAt(root, k - 1)
  {
    LastInPreorder(root);
    if node == None {
      if root.kids == [] { return None; }
      var last := |root.kids| - 1;
      ChildPath(root, [], last);
      assert [] + [last] == [last];
      var p := Deepest(root, [last]);
      return Some(p);
    }
    PrevInPreorder(root, k);
    var p := node.value;
    PathEnd(root, p);
    if Index(p) > 0 {
      ChildPath(root, Parent(p), Index(p) - 1);
      PreorderComplete(root, []);
      var q := Deepest(root, Sibling(p, Index(p) - 1));
      return Some(q);
    }
    if Parent(p) != [] { return Some(Parent(p)); }
    if k > 0 {
      assert Preorder(root)[k-1] in Preorder(root);
      PreorderComplete(root, Preorder(root)[k-1]);
    }
    return None;
  }

  // ---------- Incremental items ----------

  const OKAY_FOR_INCREMENTAL: set<string> :=
    {"P", "PRE", "LI", "BLOCKQUOTE", "DT", "DD", "H2", "H3", "H4", "H5", "H6", "SPAN",
     "ADDRESS", "TABLE", "TR", "TH", "TD", "IMG", "OBJECT"}

  predicate IsItem(t: Tree, p: Path)
    requires p != [] && IsPath(t, p)
  {
    PathEnd(t, p);
    var node, parent := At(t, p), At(t, Parent(p));
    && node.element
    && node.name != "BR"
    && (|| (node.incremental && node.name in OKAY_FOR_INCREMENTAL)
        || (parent.incremental && !node.nonIncremental))
  }

  /** Element children of an incremental container are items unless they opt out, and
      so are incremental elements of the listed kinds; line breaks, text, and what is
      incremental in neither way are not. */
  lemma ItemKinds(t: Tree, p: Path)
    requires p != [] && IsPath(t, p) && IsPath(t, Parent(p))
    ensures var node, parent := At(t, p), At(t, Parent(p));
      && (!node.element || node.name == "BR" ==> !IsItem(t, p))
      && (node.element && node.name != "BR" && parent.incremental && !node.nonIncremental ==> IsItem(t, p))
      && (node.element && node.incremental && node.name in {"P", "LI", "H2", "TR", "IMG"} ==> IsItem(t, p))
      && ((!parent.incremental || node.nonIncremental) && !node.incremental ==> !IsItem(t, p))
      && ((!parent.incremental || node.nonIncremental) && node.name in {"UL", "OL", "DL", "DIV", "H1"} ==> !IsItem(t, p))
  {
  }

  /** The kinds of element that can themselves appear incrementally. */
  lemma IncrementalKinds(name: string)
    ensures name in OKAY_FOR_INCREMENTAL <==>
            || name in {"P", "PRE", "LI", "BLOCKQUOTE", "DT", "DD", "SPAN", "ADDRESS", "IMG", "OBJECT"}
            || name in {"TABLE", "TR", "TH", "TD"}
            || (|name| == 2 && name[0] == 'H' && '2' <= name[1] <= '6')
  {
    if |name| == 2 && name[0] == 'H' && '2' <= name[1] <= '6' { assert name == [name[0], name[1]]; }
  }

  lemma PreorderEntryIsPath(t: Tree, k: nat)
    requires k < |Preorder(t)|
    ensures Preorder(t)[k] != [] && IsPath(t, Preorder(t)[k])
  {
    assert Preorder(t)[k] in Preorder(t);
    PreorderComplete(t, Preorder(t)[k]);
  }

  /** The incremental items of a slide in document order. */
  ghost function Items(t: Tree): seq<Path> {
    ItemsFrom(t, 0)
  }

  ghost function ItemsFrom(t: Tree, k: nat): seq<Path>
    requires k <= |Preorder(t)|
    decreases |Preorder(t)| - k
  {
    if k == |Preorder(t)| then [] else
      PreorderEntryIsPath(t, k);
      (if IsItem(t, Preorder(t)[k]) then [Preorder(t)[k]] else []) + ItemsFrom(t, k + 1)
  }

  ghost function ItemAt(t: Tree, j: int): Option<Path> {
    ElementAt(Items(t), j)
  }

  lemma {:induction false} ItemsFromComplete(t: Tree, k: nat, p: Path)
    requires k <= |Preorder(t)|
    ensures p in ItemsFrom(t, k) <==>
            exists i :: k <= i < |Preorder(t)| && Preorder(t)[i] == p && p != [] && IsPath(t, p) && IsItem(t, p)
    decreases |Preorder(t)| - k
  {
    if k < |Preorder(t)| {
      PreorderEntryIsPath(t, k);
      ItemsFromComplete(t, k + 1, p);
    }
  }

  /** Items lists every incremental item of the slide. */
  lemma ItemsComplete(t: Tree, p: Path)
    ensures p in Items(t) <==> p != [] && IsPath(t, p) && IsItem(t, p)
  {
    ItemsFromComplete(t, 0, p);
    PreorderComplete(t, p);
  }

  /** Items lists them in document order, so none is listed twice. */
  lemma ItemsSorted(t: Tree, i: nat, j: nat)
    requires i < j < |Items(t)|
    ensures Before(Items(t)[i], Items(t)[j])
    ensures Items(t)[i] != Items(t)[j]
  {
    var a := ItemPosition(t, i);
    var b := ItemPosition(t, j);
    assert a < b by {
      if b < a { ItemsFromShrinks(t, b + 1, a); }
    }
    PreorderSorted(t, a, b);
    BeforeIrreflexive(Items(t)[i]);
  }

  lemma {:induction false} BeforeIrreflexive(p: Path)
    ensures !Before(p, p)
  {
    if p != [] { BeforeIrreflexive(p[1..]); }
  }

  lemma {:induction false} ItemsFromShrinks(t: Tree, k: nat, k': nat)
    requires k <= k' <= |Preorder(t)|
    ensures |ItemsFrom(t, k')| <= |ItemsFrom(t, k)|
    decreases k' - k
  {
    if k < k' { ItemsFromShrinks(t, k + 1, k'); }
  }

  /** The place in the preorder where item j stands. */
  lemma ItemPosition(t: Tree, j: nat) returns (k: nat)
    requires j < |Items(t)|
    ensures k < |Preorder(t)| && Preorder(t)[k] == Items(t)[j]
    ensures ItemsFrom(t, k) == Items(t)[j..] && ItemsFrom(t, k + 1) == Items(t)[j+1..]
  {
    k := 0;
    var seen := 0;
    while true
      invariant seen <= j && k <= |Preorder(t)| && ItemsFrom(t, k) == Items(t)[seen..]
      decreases |Preorder(t)| - k
    {
      assert ItemsFrom(t, k) != [];
      PreorderEntryIsPath(t, k);
      if IsItem(t, Preorder(t)[k]) {
        assert ItemsFrom(t, k + 1) == ItemsFrom(t, k)[1..];
        if seen == j { return; }
        seen := seen + 1;
      }
      k := k + 1;
    }
  }

  /** The item after item j is still to be found from place k on. */
  ghost predicate NextItemFrom(t: Tree, j: int, k: nat) {
    -1 <= j < |Items(t)| && k <= |Preorder(t)| && ItemsFrom(t, k) == Items(t)[j+1..]
  }

  lemma NextItemStep(t: Tree, j: int, k: nat)
    requires NextItemFrom(t, j, k)
    ensures NodeAt(t, k) == None ==> ItemAt(t, j + 1) == None
    ensures NodeAt(t, k).Some? ==>
      var p := NodeAt(t, k).value;
      && k < |Preorder(t)| && p != [] && IsPath(t, p)
      && (if IsItem(t, p) then ItemAt(t, j + 1) == Some(p) else NextItemFrom(t, j, k + 1))
  {
    if k < |Preorder(t)| {
      PreorderEntryIsPath(t, k);
      assert IsItem(t, Preorder(t)[k]) ==> ItemsFrom(t, k)[0] == Preorder(t)[k];
    }
  }

  /** The null node stands before the first item here, so it has index -1. */
  method NextIncrementalItem(slide: Tree, start: Option<Path>, ghost j: int) returns (node: Option<Path>)
    requires -1 <= j < |Items(slide)| && start == ItemAt(slide, j)
    ensures node == ItemAt(slide, j + 1)
  {
    node := start;
    ghost var k: int := -1;
    if j >= 0 { k := ItemPosition(slide, j); }
    while true
      invariant -1 <= k < |Preorder(slide)| && node == NodeAt(slide, k)
      invariant NextItemFrom(slide, j, k + 1)
      decreases |Preorder(slide)| - k
    {
      node := NextNode(slide, node, k);
      k := k + 1;
      NextItemStep(slide, j, k);
      if node == None { return; }
      if IsItem(slide, node.value) { return; }
    }
  }

  /** The null node stands behind the last item here, so it has index |Items|. */
  method PreviousIncrementalItem(slide: Tree, start: Option<Path>, ghost j: nat) returns (node: Option<Path>)
    requires j <= |Items(slide)| && start == ItemAt(slide, j)
    ensures node == ItemAt(slide, j - 1)
  {
    node := start;
    ghost var k := |Preorder(slide)|;
    if j < |Items(slide)| { k := ItemPosition(slide, j); }
    while true
      invariant 0 <= k <= |Preorder(slide)| && node == NodeAt(slide, k)
      invariant ItemsFrom(slide, k) == Items(slide)[j..]
      decreases k
    {
      node := PreviousNode(slide, node, k);
      k := k - 1;
      if node == None { return; }
      PreorderEntryIsPath(slide, k);
      if IsItem(slide, node.value) {
        ItemsSuffix(slide, k);
        return;
      }
    }
  }

  lemma {:induction false} ItemsSuffix(t: Tree, k: nat)
    requires k <= |Preorder(t)|
    ensures |ItemsFrom(t, k)| <= |Items(t)|
    ensures ItemsFrom(t, k) == Items(t)[|Items(t)| - |ItemsFrom(t, k)|..]
  {
    if k > 0 { ItemsSuffix(t, k - 1); }
  }
}
