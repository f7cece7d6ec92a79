/** The rewrite that turns implicit slides, an h1 and what follows it, into
    explicit ones by wrapping a div around them. */
module WrapSlides {

  /** A DOM node; `wrapper` marks the divs this rewrite creates. */
  datatype Dom = Node(element: bool, name: string, wrapper: bool, kids: seq<Dom>)

  predicate IsHeading(n: Dom) {
    n.element && (n.name == "H1" || n.name == "h1")
  }

  /** The nodes that end the run of siblings behind a heading. */
  predicate Stops(n: Dom) {
    n.element && (n.name == "H1" || n.name == "h1" || n.name == "DIV" || n.name == "div")
  }

  function Wrapper(kids: seq<Dom>): Dom {
    Node(true, "DIV", true, kids)
  }

  // ---------- The live list of headings ----------

  /** The h1 elements in a node, itself included. */
  function Headings(n: Dom): nat {
    (if IsHeading(n) then 1 else 0) + HeadingsIn(n.kids)
  }

  function HeadingsIn(ns: seq<Dom>): nat {
    if ns == [] then 0 else Headings(ns[0]) + HeadingsIn(ns[1..])
  }

  lemma {:induction false} HeadingsConcat(a: seq<Dom>, b: seq<Dom>)
    ensures HeadingsIn(a + b) == HeadingsIn(a) + HeadingsIn(b)
  {
    if a == [] {
      assert a + b == b;
    } else {
      assert (a + b)[1..] == a[1..] + b;
      HeadingsConcat(a[1..], b);
    }
  }

  lemma HeadingsOne(n: Dom)
    ensures HeadingsIn([n]) == Headings(n)
  {
    assert [n][1..] == [];
  }

  lemma HeadingsSplit(ns: seq<Dom>, c: nat)
    requires c < |ns|
    ensures HeadingsIn(ns) == HeadingsIn(ns[..c]) + Headings(ns[c]) + HeadingsIn(ns[c+1..])
    ensures HeadingsIn(ns[..c+1]) == HeadingsIn(ns[..c]) + Headings(ns[c])
  {
    assert ns[..c+1] == ns[..c] + [ns[c]];
    assert ns == ns[..c+1] + ns[c+1..];
    HeadingsConcat(ns[..c], [ns[c]]);
    HeadingsConcat(ns[..c+1], ns[c+1..]);
    HeadingsOne(ns[c]);
  }

  /** The child of the body that heading i of the live list is in. */
  method Locate(body: seq<Dom>, i: nat) returns (c: nat)
    requires i < HeadingsIn(body)
    ensures c < |body| && HeadingsIn(body[..c]) <= i < HeadingsIn(body[..c]) + Headings(body[c])
  {
    c := 0;
    assert body[0..] == body && body[..0] == [];
    while i >= HeadingsIn(body[..c]) + Headings(body[c])
      invariant c < |body| && HeadingsIn(body[..c]) <= i
      decreases |body| - c
    {
      HeadingsSplit(body, c);
      ghost var rest := body[c+1..];
      assert rest == [] ==> HeadingsIn(rest) == 0;
      c := c + 1;
    }
  }

  // ---------- What the rewrite achieves ----------

  /** The length of the run up to the next heading or div. */
  function Run(ns: seq<Dom>): (n: nat)
    ensures n <= |ns|
    ensures forall i :: 0 <= i < n ==> !Stops(ns[i])
    ensures n < |ns| ==> Stops(ns[n])
  {
    if ns == [] || Stops(ns[0]) then 0 else 1 + Run(ns[1..])
  }

  function Wrapped(ns: seq<Dom>): seq<Dom>
    decreases |ns|
  {
    if ns == [] then []
    else if IsHeading(ns[0]) then
      [Wrapper(ns[..1 + Run(ns[1..])])] + Wrapped(ns[1 + Run(ns[1..])..])
    else [ns[0]] + Wrapped(ns[1..])
  }

  /** The document with the wrappers at top level taken off again. */
  function Flatten(ns: seq<Dom>): seq<Dom> {
    if ns == [] then []
    else (if ns[0].wrapper then ns[0].kids else [ns[0]]) + Flatten(ns[1..])
  }

  ghost predicate NoWrappers(ns: seq<Dom>) {
    forall i :: 0 <= i < |ns| ==> !ns[i].wrapper
  }

  ghost predicate NoHeadings(ns: seq<Dom>) {
    forall i :: 0 <= i < |ns| ==> !IsHeading(ns[i])
  }

  /** No heading is left at top level; each wrapper holds a heading and what
      followed it, and ends only where a heading or a div comes next. */
  ghost predicate WellWrapped(ns: seq<Dom>) {
    forall i :: 0 <= i < |ns| ==> WellWrappedAt(ns, i)
  }

  ghost predicate WellWrappedAt(ns: seq<Dom>, i: nat)
    requires i < |ns|
  {
    && !IsHeading(ns[i])
    && (ns[i].wrapper ==>
      && ns[i] == Wrapper(ns[i].kids)
      && 1 <= |ns[i].kids| && IsHeading(ns[i].kids[0]) && NoWrappers(ns[i].kids)
      && (forall j :: 1 <= j < |ns[i].kids| ==> !Stops(ns[i].kids[j]))
      && (i + 1 < |ns| ==> Stops(ns[i+1])))
  }

  ghost predicate IsElement(n: Dom, names: set<string>) {
    n.element && n.name in names
  }

  /** What being well wrapped means in terms of element names. */
  lemma WellWrappedNames(ns: seq<Dom>, i: nat)
    requires WellWrapped(ns) && i < |ns|
    ensures !IsElement(ns[i], {"H1", "h1"})
    ensures ns[i].wrapper ==>
              && IsElement(ns[i], {"DIV"})
              && ns[i].kids != [] && IsElement(ns[i].kids[0], {"H1", "h1"})
              && (forall j :: 1 <= j < |ns[i].kids| ==> !IsElement(ns[i].kids[j], {"H1", "h1", "DIV", "div"}))
              && (i + 1 < |ns| ==> IsElement(ns[i+1], {"H1", "h1", "DIV", "div"}))
  {
    assert WellWrappedAt(ns, i);
  }

  /** Nothing is lost, added or reordered. */
  lemma {:induction false} WrappedConserves(ns: seq<Dom>)
    requires NoWrappers(ns)
    ensures Flatten(Wrapped(ns)) == ns
    decreases |ns|
  {
    if ns != [] {
      var n := if IsHeading(ns[0]) then 1 + Run(ns[1..]) else 1;
      WrappedConserves(ns[n..]);
      assert ns == ns[..n] + ns[n..];
      var w := Wrapped(ns);
      assert w[1..] == Wrapped(ns[n..]);
      assert (if w[0].wrapper then w[0].kids else [w[0]]) == ns[..n];
    }
  }

  lemma {:induction false} WrappedIsWellWrapped(ns: seq<Dom>)
    requires NoWrappers(ns)
    ensures WellWrapped(Wrapped(ns))
    ensures ns != [] && Stops(ns[0]) ==> Wrapped(ns) != [] && Stops(Wrapped(ns)[0])
    ensures Wrapped(ns) == [] <==> ns == []
    decreases |ns|
  {
    if ns != [] {
      var n := if IsHeading(ns[0]) then 1 + Run(ns[1..]) else 1;
      var rest := Wrapped(ns[n..]);
      WrappedIsWellWrapped(ns[n..]);
      var w := Wrapped(ns);
      assert w == [w[0]] + rest;
      assert n < |ns| && IsHeading(ns[0]) ==> ns[n] == ns[1..][n-1];
      forall i | 0 <= i < |w| ensures WellWrappedAt(w, i) {
        if i > 0 { assert WellWrappedAt(rest, i - 1); }
      }
    }
  }

  /** Conservation and good wrapping determine the result: there is only one way
      to wrap a document. */
  lemma {:induction false} WrappingUnique(out: seq<Dom>, ns: seq<Dom>)
    requires WellWrapped(out) && Flatten(out) == ns
    ensures out == Wrapped(ns)
    decreases |out|
  {
    if out != [] {
      assert WellWrappedAt(out, 0);
      var rest := out[1..];
      forall i | 0 <= i < |rest| ensures WellWrappedAt(rest, i) { assert WellWrappedAt(out, i + 1); }
      WrappingUnique(rest, Flatten(rest));
      if out[0].wrapper {
        var kids := out[0].kids;
        assert ns == kids + Flatten(rest);
        if rest != [] {
          assert WellWrappedAt(rest, 0);
          assert Flatten(rest)[0] == if rest[0].wrapper then rest[0].kids[0] else rest[0];
        }
        RunIs(ns[1..], |kids| - 1);
        assert ns[|kids|..] == Flatten(rest) && ns[..|kids|] == kids;
      } else {
        assert ns == [out[0]] + Flatten(rest);
        assert ns[1..] == Flatten(rest);
      }
    }
  }

  ghost predicate Running(ns: seq<Dom>, n: nat)
    requires n <= |ns|
  {
    forall i :: 0 <= i < n ==> !Stops(ns[i])
  }

  lemma {:induction false} RunIs(ns: seq<Dom>, n: nat)
    requires n <= |ns| && Running(ns, n) && (n < |ns| ==> Stops(ns[n]))
    ensures Run(ns) == n
  {
    if n > 0 { RunIs(ns[1..], n - 1); }
  }

  lemma {:induction false} WrappedWithoutHeadings(a: seq<Dom>, b: seq<Dom>)
    requires NoHeadings(a)
    ensures Wrapped(a + b) == a + Wrapped(b)
    decreases |a|
  {
    if a == [] {
      assert a + b == b && a + Wrapped(b) == Wrapped(b);
    } else {
      assert (a + b)[1..] == a[1..] + b;
      WrappedWithoutHeadings(a[1..], b);
    }
  }

  /** Running the rewrite again changes nothing. */
  lemma WrappedIdempotent(ns: seq<Dom>)
    requires NoWrappers(ns)
    ensures Wrapped(Wrapped(ns)) == Wrapped(ns)
  {
    var w := Wrapped(ns);
    WrappedIsWellWrapped(ns);
    forall i | 0 <= i < |w| ensures !IsHeading(w[i]) { assert WellWrappedAt(w, i); }
    WrappedWithoutHeadings(w, []);
    assert w + [] == w && w + Wrapped([]) == w;
  }

  // ---------- The rewrite itself ----------

  /** No heading child stands before heading i of the live list. */
  ghost predicate DoneBefore(ns: seq<Dom>, i: nat) {
    forall c :: 0 <= c < |ns| && IsHeading(ns[c]) ==> HeadingsIn(ns[..c]) >= i
  }

  lemma BeforeGrows(ns: seq<Dom>, c: nat, d: nat)
    requires c < d < |ns|
    ensures HeadingsIn(ns[..c]) + Headings(ns[c]) <= HeadingsIn(ns[..d])
  {
    HeadingsSplit(ns[..d], c);
    assert ns[..d][..c] == ns[..c];
  }

  /** A heading inside another element is passed over. */
  lemma NestedPassed(ns: seq<Dom>, c: nat, i: nat)
    requires DoneBefore(ns, i) && c < |ns|
    requires HeadingsIn(ns[..c]) <= i < HeadingsIn(ns[..c]) + Headings(ns[c])
    requires !(IsHeading(ns[c]) && HeadingsIn(ns[..c]) == i)
    ensures DoneBefore(ns, i + 1)
  {
    forall d | 0 <= d < |ns| && IsHeading(ns[d]) ensures HeadingsIn(ns[..d]) >= i + 1 {
      if d < c { BeforeGrows(ns, d, c); } else if d > c { BeforeGrows(ns, c, d); }
    }
  }

  lemma AllDone(ns: seq<Dom>)
    requires DoneBefore(ns, HeadingsIn(ns))
    ensures Wrapped(ns) == ns
  {
    forall c | 0 <= c < |ns| ensures !IsHeading(ns[c]) { HeadingsSplit(ns, c); }
    WrappedWithoutHeadings(ns, []);
    assert ns + [] == ns && ns + Wrapped([]) == ns;
  }

  lemma NoneBefore(ns: seq<Dom>, c: nat)
    requires c < |ns| && DoneBefore(ns, HeadingsIn(ns[..c]))
    ensures NoHeadings(ns[..c])
  {
    forall d | 0 <= d < c ensures !IsHeading(ns[d]) { BeforeGrows(ns, d, c); }
  }

  /** The document after the heading behind pre got its wrapper and the first m
      of its following siblings were moved in. */
  ghost function Partly(pre: seq<Dom>, h: Dom, rest: seq<Dom>, m: nat): seq<Dom>
    requires m <= |rest|
  {
    pre + [Wrapper([h] + rest[..m])] + rest[m..]
  }

  ghost function WrappedAt(pre: seq<Dom>, h: Dom, rest: seq<Dom>): seq<Dom> {
    Partly(pre, h, rest, Run(rest))
  }

  /** One round of the inner loop. */
  lemma MoveOne(pre: seq<Dom>, h: Dom, rest: seq<Dom>, m: nat)
    requires m <= |rest|
    ensures var ns := Partly(pre, h, rest, m);
      && (|pre| + 1 < |ns| <==> m < |rest|)
      && (m < |rest| ==>
        && ns[|pre|+1] == rest[m]
        && ([h] + rest[..m]) + [rest[m]] == [h] + rest[..m+1]
        && ns[..|pre|] + [Wrapper([h] + rest[..m+1])] + ns[|pre|+2..] == Partly(pre, h, rest, m + 1))
  {
    var ns := Partly(pre, h, rest, m);
    if m < |rest| {
      assert ns[..|pre|] == pre;
      assert ns[|pre|+2..] == rest[m+1..];
    }
  }

  lemma HeadingFirst(h: Dom, rest: seq<Dom>)
    requires IsHeading(h)
    ensures Wrapped([h] + rest) == [Wrapper([h] + rest[..Run(rest)])] + Wrapped(rest[Run(rest)..])
  {
    var r, hs := Run(rest), [h] + rest;
    assert hs[1..] == rest && hs[..1+r] == [h] + rest[..r] && hs[1+r..] == rest[r..];
  }

  lemma WrapStepResult(pre: seq<Dom>, h: Dom, rest: seq<Dom>)
    requires IsHeading(h) && NoHeadings(pre)
    ensures Wrapped(WrappedAt(pre, h, rest)) == Wrapped(pre + ([h] + rest))
  {
    var after := rest[Run(rest)..];
    var w := Wrapper([h] + rest[..Run(rest)]);
    HeadingFirst(h, rest);
    WrappedWithoutHeadings(pre, [h] + rest);
    assert WrappedAt(pre, h, rest) == pre + ([w] + after);
    WrappedWithoutHeadings(pre, [w] + after);
    WrappedWithoutHeadings([w], after);
  }

  lemma WrapStepHeadings(pre: seq<Dom>, h: Dom, rest: seq<Dom>)
    ensures HeadingsIn(WrappedAt(pre, h, rest)) == HeadingsIn(pre + ([h] + rest))
  {
    var r, hs := Run(rest), [h] + rest;
    var w := Wrapper([h] + rest[..r]);
    assert hs == ([h] + rest[..r]) + rest[r..];
    HeadingsConcat(pre, hs);
    HeadingsConcat([h] + rest[..r], rest[r..]);
    HeadingsConcat(pre + [w], rest[r..]);
    HeadingsConcat(pre, [w]);
    assert HeadingsIn([w]) == Headings(w) + HeadingsIn([]);
  }

  lemma WrapStepDone(pre: seq<Dom>, h: Dom, rest: seq<Dom>)
    requires IsHeading(h) && NoHeadings(pre)
    ensures DoneBefore(WrappedAt(pre, h, rest), HeadingsIn(pre) + 1)
  {
    var now := WrappedAt(pre, h, rest);
    var w := now[|pre|];
    assert now[..|pre|] == pre && Headings(w) >= Headings(h);
    forall c | 0 <= c < |now| && IsHeading(now[c]) ensures HeadingsIn(now[..c]) >= HeadingsIn(pre) + 1 {
      assert c >= |pre|;
      BeforeGrows(now, |pre|, c);
    }
  }

  class Document {
    /** The children of the body. */
    var body: seq<Dom>

    constructor (children: seq<Dom>)
      ensures body == children
    {
      body := children;
    }

    method WrapImplicitSlides()
      modifies this
      ensures body == Wrapped(old(body))
    {
      var i := 0;
      while i < HeadingsIn(body)
        invariant i <= HeadingsIn(body)
        invariant Wrapped(body) == Wrapped(old(body))
        invariant DoneBefore(body, i)
        invariant HeadingsIn(body) == HeadingsIn(old(body))
      {
        var c := Locate(body, i);
        if IsHeading(body[c]) && HeadingsIn(body[..c]) == i {
          WrapAt(c);
        } else {
          NestedPassed(body, c, i);
        }
        i := i + 1;
      }
      AllDone(body);
    }

    /** Wraps the heading at child c together with the run behind it. */
    method WrapAt(c: nat)
      requires c < |body| && IsHeading(body[c]) && DoneBefore(body, HeadingsIn(body[..c]))
      modifies this
      ensures Wrapped(body) == Wrapped(old(body))
      ensures HeadingsIn(body) == HeadingsIn(old(body))
      ensures DoneBefore(body, HeadingsIn(old(body)[..c]) + 1)
    {
      ghost var pre, heading, rest := body[..c], body[c], body[c+1..];
      NoneBefore(body, c);
      assert body == pre + ([heading] + rest);
      Gather(c);
      WrapStepResult(pre, heading, rest);
      WrapStepHeadings(pre, heading, rest);
      WrapStepDone(pre, heading, rest);
    }

    method Gather(c: nat)
      requires c < |body|
      modifies this
      ensures body == WrappedAt(old(body)[..c], old(body)[c], old(body)[c+1..])
    {
      ghost var pre, heading, rest := body[..c], body[c], body[c+1..];
      var div := [body[c]];
      body := body[..c] + [Wrapper(div)] + body[c+1..];
      ghost var m := 0;
      assert [heading] + rest[..0] == div;
      MoveOne(pre, heading, rest, m);
      while c + 1 < |body| && !Stops(body[c+1])
        invariant m <= |rest| && div == [heading] + rest[..m] && body == Partly(pre, heading, rest, m)
        invariant c + 1 < |body| <==> m < |rest|
        invariant m < |rest| ==> body[c+1] == rest[m]
        invariant Running(rest, m)
        decreases |rest| - m
      {
        MoveOne(pre, heading, rest, m);
        assert Running(rest, m + 1);
        var node := body[c+1];
        div := div + [node];
        body := body[..c] + [Wrapper(div)] + body[c+2..];
        m := m + 1;
        MoveOne(pre, heading, rest, m);
      }
      RunIs(rest, m);
    }
  }
}
