/** Hiding page elements behind open expanders: each element carries a string of
    bracketed expander keys that works as a reference count. */
module HiddenBy {
  import opened Wrappers

  // ---------- Substring search, as the string methods do it ----------

  function StartsWith(s: string, t: string): bool {
    |t| <= |s| && s[..|t|] == t
  }

  /** The first place where t occurs in s. */
  function IndexOf(s: string, t: string): (r: Option<nat>)
    ensures r.Some? ==> r.value + |t| <= |s|
  {
    if StartsWith(s, t) then Some(0)
    else if s == "" then None
    else
      var rest := IndexOf(s[1..], t);
      if rest.Some? then Some(rest.value + 1) else None
  }

  /** s with the first occurrence of t taken out. */
  function Without(s: string, t: string): string {
    CutAt(s, IndexOf(s, t), |t|)
  }

  function CutAt(s: string, at: Option<nat>, n: nat): string
    requires at.Some? ==> at.value + n <= |s|
  {
    if at.Some? then s[..at.value] + s[at.value+n..] else s
  }

  // ---------- Token strings ----------

  ghost predicate IsKey(k: string) {
    forall i :: 0 <= i < |k| ==> k[i] != '[' && k[i] != ']'
  }

  function Token(k: string): string {
    "[" + k + "]"
  }

  ghost function Encode(ks: seq<string>): string {
    if ks == [] then "" else Token(ks[0]) + Encode(ks[1..])
  }

  ghost predicate AreKeys(ks: seq<string>) {
    forall i :: 0 <= i < |ks| ==> IsKey(ks[i])
  }

  /** ks without the first k. */
  ghost function Remove(ks: seq<string>, k: string): seq<string> {
    if ks == [] then [] else if ks[0] == k then ks[1..] else [ks[0]] + Remove(ks[1..], k)
  }

  lemma StartsWithStep(s: string, t: string)
    requires t != ""
    ensures StartsWith(s, t) <==> s != "" && s[0] == t[0] && StartsWith(s[1..], t[1..])
  {
    if |t| <= |s| {
      assert s[..|t|] == [s[0]] + s[1..][..|t|-1];
      assert t == [t[0]] + t[1..];
    }
  }

  lemma {:induction false} KeyAtStart(k: string, k0: string, rest: string)
    requires IsKey(k) && IsKey(k0)
    ensures StartsWith(k0 + ("]" + rest), k + "]") <==> k == k0
  {
    var s, t := k0 + ("]" + rest), k + "]";
    StartsWithStep(s, t);
    if k != "" && k0 != "" {
      assert s[1..] == k0[1..] + ("]" + rest) && t[1..] == k[1..] + "]";
      KeyAtStart(k[1..], k0[1..], rest);
      assert k == [k[0]] + k[1..] && k0 == [k0[0]] + k0[1..];
    }
  }

  /** Tokens match whole tokens only: the brackets line up. */
  lemma TokenAtStart(k: string, k0: string, rest: string)
    requires IsKey(k) && IsKey(k0)
    ensures StartsWith(Token(k0) + rest, Token(k)) <==> k == k0
  {
    StartsWithStep(Token(k0) + rest, Token(k));
    assert (Token(k0) + rest)[1..] == k0 + ("]" + rest) && Token(k)[1..] == k + "]";
    KeyAtStart(k, k0, rest);
  }

  function Shift(r: Option<nat>, n: nat): Option<nat> {
    if r.Some? then Some(r.value + n) else None
  }

  lemma IndexOfStep(s: string, t: string)
    requires t != "" && s != "" && s[0] != t[0]
    ensures IndexOf(s, t) == Shift(IndexOf(s[1..], t), 1)
  {
    StartsWithStep(s, t);
  }

  /** A search skips places that do not start with the first character sought. */
  lemma {:induction false} SearchSkips(s: string, t: string, n: nat)
    requires t != "" && n <= |s| && forall i :: 0 <= i < n ==> s[i] != t[0]
    ensures IndexOf(s, t) == Shift(IndexOf(s[n..], t), n)
  {
    if n == 0 {
      assert s[0..] == s;
    } else {
      assert s[1..][n-1..] == s[n..];
      IndexOfStep(s, t);
      SearchSkips(s[1..], t, n - 1);
    }
  }

  lemma SearchPastToken(k: string, k0: string, rest: string)
    requires IsKey(k) && IsKey(k0) && k != k0
    ensures IndexOf(Token(k0) + rest, Token(k)) == Shift(IndexOf(rest, Token(k)), |Token(k0)|)
  {
    var s, t, tail := Token(k0) + rest, Token(k), k0 + "]";
    TokenAtStart(k, k0, rest);
    assert s[1..] == tail + rest;
    assert IndexOf(s, t) == Shift(IndexOf(tail + rest, t), 1);
    assert (tail + rest)[|tail|..] == rest;
    SearchSkips(tail + rest, t, |tail|);
  }

  lemma CutPast(first: string, rest: string, at: Option<nat>, n: nat)
    requires at.Some? ==> at.value + n <= |rest|
    ensures CutAt(first + rest, Shift(at, |first|), n) == first + CutAt(rest, at, n)
  {
    if at.Some? {
      assert (first + rest)[..at.value+|first|] == first + rest[..at.value];
      assert (first + rest)[at.value+|first|+n..] == rest[at.value+n..];
    }
  }

  /** Searching the string finds a token exactly when the key is listed. */
  lemma {:induction false} SearchFindsKeys(ks: seq<string>, k: string)
    requires AreKeys(ks) && IsKey(k)
    ensures IndexOf(Encode(ks), Token(k)).Some? <==> k in ks
  {
    if ks != [] {
      TokenAtStart(k, ks[0], Encode(ks[1..]));
      if k != ks[0] {
        SearchPastToken(k, ks[0], Encode(ks[1..]));
        SearchFindsKeys(ks[1..], k);
      }
    }
  }

  /** Taking a token out of the string takes the key out of the list. */
  lemma {:induction false} WithoutRemoves(ks: seq<string>, k: string)
    requires AreKeys(ks) && IsKey(k)
    ensures Without(Encode(ks), Token(k)) == Encode(Remove(ks, k))
  {
    if ks != [] {
      var first, rest := Token(ks[0]), Encode(ks[1..]);
      TokenAtStart(k, ks[0], rest);
      if k != ks[0] {
        SearchPastToken(k, ks[0], rest);
        CutPast(first, rest, IndexOf(rest, Token(k)), |Token(k)|);
        WithoutRemoves(ks[1..], k);
        assert ([ks[0]] + Remove(ks[1..], k))[1..] == Remove(ks[1..], k);
      } else {
        assert (first + rest)[|first|..] == rest;
      }
    }
  }

  lemma {:induction false} EncodeAppend(ks: seq<string>, k: string)
    ensures Encode(ks + [k]) == Encode(ks) + Token(k)
  {
    if ks == [] {
      assert ks + [k] == [k];
    } else {
      assert (ks + [k])[1..] == ks[1..] + [k];
      EncodeAppend(ks[1..], k);
    }
  }

  ghost predicate Distinct(ks: seq<string>) {
    forall i, j :: 0 <= i < j < |ks| ==> ks[i] != ks[j]
  }

  lemma {:induction false} RemoveFromDistinct(ks: seq<string>, k: string)
    requires Distinct(ks)
    ensures Distinct(Remove(ks, k))
    ensures forall j :: j in Remove(ks, k) <==> j in ks && j != k
    ensures AreKeys(ks) ==> AreKeys(Remove(ks, k))
    ensures |Remove(ks, k)| >= |ks| - 1
  {
    if ks != [] {
      RemoveFromDistinct(ks[1..], k);
      assert ks == [ks[0]] + ks[1..];
      assert ks[0] !in ks[1..];
    }
  }

  // ---------- One call for one element ----------

  /** A call of showHideElements by expander `key`, as it meets one element:
      `behind` says that the element is behind the image (or all are to be hidden),
      `focused` that the element belongs to the expander in focus, or to none while
      none is in focus, `own` that it belongs to the calling one. */
  datatype Call = Call(key: string, visible: bool, behind: bool, focused: bool, own: bool)

  /** An element: the hidden-by attribute, the inline style of the property and
      the saved style. */
  datatype Element = Element(hiddenBy: Option<string>, style: string, origProp: Option<string>)

  method ShowHide(el: Element, c: Call) returns (r: Element)
    ensures r == Updated(el, c)
    ensures forall ks, original :: Represents(el, ks, original) && IsKey(c.key) && OwnTokenAbsent(ks, c) ==>
              (Represents(r, After(ks, c), original) <==> !Clobbers(el, c, original))
  {
    forall ks, original | Represents(el, ks, original) && IsKey(c.key) && OwnTokenAbsent(ks, c)
      ensures Represents(Updated(el, c), After(ks, c), original) <==> !Clobbers(el, c, original)
    {
      UpdateRefines(el, ks, original, c);
    }
    var hiddenBy := if el.hiddenBy.Some? then el.hiddenBy.value else "";
    var token := Token(c.key);
    r := el;
    if c.visible && hiddenBy != "" {
      hiddenBy := Without(hiddenBy, token);
      r := r.(hiddenBy := Some(hiddenBy));
      if hiddenBy == "" { r := r.(style := if r.origProp.Some? then r.origProp.value else ""); }
    } else if !c.visible {
      if c.behind && !c.own {
        if hiddenBy == "" {
          r := r.(hiddenBy := Some(token));
          r := r.(origProp := Some(r.style));
          r := r.(style := "hidden");
        } else if IndexOf(hiddenBy, token) == None {
          r := r.(hiddenBy := Some(hiddenBy + token));
        }
      } else if (hiddenBy == token || c.focused) && !c.own {
        r := r.(hiddenBy := Some(""));
        r := r.(style := if r.origProp.Some? then r.origProp.value else "");
      } else if hiddenBy != "" && IndexOf(hiddenBy, token).Some? {
        r := r.(hiddenBy := Some(Without(hiddenBy, token)));
      }
    }
  }

  function Text(el: Element): string {
    if el.hiddenBy.Some? then el.hiddenBy.value else ""
  }

  function Saved(el: Element): string {
    if el.origProp.Some? then el.origProp.value else ""
  }

  /** The element after the call, case by case. */
  function Updated(el: Element, c: Call): Element {
    var token := Token(c.key);
    if c.visible then
      if Text(el) == "" then el
      else
        var text := Without(Text(el), token);
        Element(Some(text), if text == "" then Saved(el) else el.style, el.origProp)
    else if c.behind && !c.own then
      if Text(el) == "" then Element(Some(token), "hidden", Some(el.style))
      else if IndexOf(Text(el), token) == None then el.(hiddenBy := Some(Text(el) + token))
      else el
    else if (Text(el) == token || c.focused) && !c.own then
      Element(Some(""), Saved(el), el.origProp)
    else if Text(el) != "" && IndexOf(Text(el), token).Some? then
      el.(hiddenBy := Some(Without(Text(el), token)))
    else el
  }

  // ---------- The reference count behind it ----------

  /** Which expanders hide the element after the call. */
  ghost function After(ks: seq<string>, c: Call): seq<string> {
    if c.visible then Remove(ks, c.key)
    else if c.own then ks
    else if c.behind then (if c.key in ks then ks else ks + [c.key])
    else if c.focused then []
    else Remove(ks, c.key)
  }

  /** ks are the expanders that hide el, and `original` is the style it had of its
      own: el is hidden while there are any and has its own style otherwise. */
  ghost predicate Represents(el: Element, ks: seq<string>, original: string) {
    && AreKeys(ks) && Distinct(ks)
    && Text(el) == Encode(ks)
    && (if ks == [] then el.style == original else el.style == "hidden" && el.origProp == Some(original))
    && (el.origProp == None || el.origProp == Some(original))
  }

  /** A focused move over an element that was never hidden writes an empty style
      over its own. */
  predicate Clobbers(el: Element, c: Call, original: string) {
    FocusedMove(c) && el.origProp == None && original != ""
  }

  /** An expander that is clear of the element tells so, and the element is in the
      expander in focus, or in none while none is in focus. */
  predicate FocusedMove(c: Call) {
    !c.visible && c.focused && !c.behind && !c.own
  }

  /** The image is, or everything is to be, in front of the element. */
  predicate Hides(c: Call) {
    !c.visible && c.behind && !c.own
  }

  ghost predicate SomeHides(cs: seq<Call>) {
    exists j :: 0 <= j < |cs| && Hides(cs[j])
  }

  /** The element has no style of its own, or is hidden before any focused move: the
      first hiding saves the style. */
  ghost predicate StyleSafe(cs: seq<Call>, original: string) {
    original == "" || forall i :: 0 <= i < |cs| && FocusedMove(cs[i]) ==> SomeHides(cs[..i])
  }

  /** An element inside an expander is never hidden by that expander. */
  ghost predicate OwnTokenAbsent(ks: seq<string>, c: Call) {
    c.own ==> c.key !in ks
  }

  lemma EncodeEmpty(ks: seq<string>)
    ensures Encode(ks) == "" <==> ks == []
  {
  }

  lemma EncodeIsToken(ks: seq<string>, k: string)
    requires AreKeys(ks) && IsKey(k) && Distinct(ks)
    ensures Encode(ks) == Token(k) <==> ks == [k]
  {
    if Encode(ks) == Token(k) {
      assert Encode(ks) == Token(ks[0]) + Encode(ks[1..]);
      TokenAtStart(k, ks[0], Encode(ks[1..]));
      EncodeEmpty(ks[1..]);
      assert ks == [ks[0]] + ks[1..];
    }
    if ks == [k] { assert Encode(ks) == Token(k) + Encode([]); }
  }

  /** The string code does what the reference count says, for every call, exactly
      unless it clobbers a style of the element's own. */
  lemma UpdateRefines(el: Element, ks: seq<string>, original: string, c: Call)
    requires Represents(el, ks, original) && IsKey(c.key) && OwnTokenAbsent(ks, c)
    ensures Represents(Updated(el, c), After(ks, c), original) <==> !Clobbers(el, c, original)
  {
    EncodeEmpty(ks);
    SearchFindsKeys(ks, c.key);
    WithoutRemoves(ks, c.key);
    RemoveFromDistinct(ks, c.key);
    EncodeEmpty(Remove(ks, c.key));
    EncodeIsToken(ks, c.key);
    EncodeAppend(ks, c.key);
    assert Remove([], c.key) == [];
    assert Encode([c.key]) == Token(c.key) + Encode([]);
    if ks == [c.key] { assert Remove(ks, c.key) == []; }
    if c.key !in ks { RemoveAbsent(ks, c.key); }
  }

  lemma {:induction false} RemoveAbsent(ks: seq<string>, k: string)
    requires k !in ks
    ensures Remove(ks, k) == ks
  {
    if ks != [] { RemoveAbsent(ks[1..], k); }
  }

  // ---------- Whole runs ----------

  ghost function AfterAll(ks: seq<string>, cs: seq<Call>): seq<string> {
    if cs == [] then ks else After(AfterAll(ks, cs[..|cs|-1]), cs[|cs|-1])
  }

  function UpdatedAll(el: Element, cs: seq<Call>): Element {
    if cs == [] then el else Updated(UpdatedAll(el, cs[..|cs|-1]), cs[|cs|-1])
  }

  /** The last call by expander k asked for visibility, or k never called. */
  ghost predicate LastVisible(cs: seq<Call>, k: string) {
    cs == [] || (if cs[|cs|-1].key == k then cs[|cs|-1].visible else LastVisible(cs[..|cs|-1], k))
  }

  /** The calls of a page with one element: keys are keys, and whether a caller
      owns the element depends on the caller only. */
  ghost predicate Coherent(cs: seq<Call>) {
    && (forall i :: 0 <= i < |cs| ==> IsKey(cs[i].key))
    && (forall i, j :: 0 <= i < |cs| && 0 <= j < |cs| && cs[i].key == cs[j].key ==> cs[i].own == cs[j].own)
  }

  /** A later call that takes expander k off the list: its own call to show, or to
      hide when it is clear of the element; or a focused move. */
  predicate TakesBack(c: Call, k: string) {
    FocusedMove(c) || (c.key == k && (c.visible || (!c.behind && !c.own)))
  }

  ghost predicate HidesStill(cs: seq<Call>, k: string, i: nat)
    requires i < |cs|
  {
    Hides(cs[i]) && cs[i].key == k && forall j :: i < j < |cs| ==> !TakesBack(cs[j], k)
  }

  ghost predicate StillHidden(cs: seq<Call>, k: string) {
    exists i :: 0 <= i < |cs| && HidesStill(cs, k, i)
  }

  lemma StillHiddenStep(before: seq<Call>, c: Call, k: string)
    ensures StillHidden(before + [c], k) <==> (Hides(c) && c.key == k) || (StillHidden(before, k) && !TakesBack(c, k))
  {
    var cs, n := before + [c], |before|;
    forall i | 0 <= i < n ensures HidesStill(cs, k, i) <==> HidesStill(before, k, i) && !TakesBack(c, k) {
      assert cs[i] == before[i] && cs[n] == c;
      assert forall j :: i < j < n ==> cs[j] == before[j];
    }
    assert HidesStill(cs, k, n) <==> Hides(c) && c.key == k;
    if StillHidden(before, k) && !TakesBack(c, k) {
      var i :| 0 <= i < n && HidesStill(before, k, i);
      assert HidesStill(cs, k, i);
    }
  }

  /** Which expanders are listed after a call. */
  lemma AfterLists(ks: seq<string>, c: Call, k: string)
    requires Distinct(ks)
    ensures Distinct(After(ks, c))
    ensures k in After(ks, c) <==> (Hides(c) && c.key == k) || (k in ks && !TakesBack(c, k))
  {
    RemoveFromDistinct(ks, c.key);
  }

  /** A new token goes to the end of the string. */
  lemma HidingAppends(el: Element, ks: seq<string>, style: string, c: Call)
    requires Represents(el, ks, style) && IsKey(c.key) && Hides(c) && c.key !in ks
    ensures After(ks, c) == ks + [c.key] && Text(Updated(el, c)) == Text(el) + ("[" + c.key + "]")
  {
    EncodeEmpty(ks);
    SearchFindsKeys(ks, c.key);
  }

  /** Exactly the expanders are listed that hid the element and have not been taken off
      the list since. */
  lemma {:induction false} ListedExactly(cs: seq<Call>, k: string)
    ensures Distinct(AfterAll([], cs))
    ensures k in AfterAll([], cs) <==> StillHidden(cs, k)
  {
    if cs != [] {
      var c, before := cs[|cs|-1], cs[..|cs|-1];
      assert cs == before + [c];
      ListedExactly(before, k);
      AfterLists(AfterAll([], before), c, k);
      StillHiddenStep(before, c, k);
    }
  }

  /** A listed key comes from a call that hid the element, and the last word of its
      expander was not to show it. */
  lemma {:induction false} ListedKeys(cs: seq<Call>, k: string)
    requires Coherent(cs)
    ensures Distinct(AfterAll([], cs))
    ensures k in AfterAll([], cs) ==> !LastVisible(cs, k) && exists i :: 0 <= i < |cs| && cs[i].key == k && Hides(cs[i])
  {
    if cs != [] {
      var c, before := cs[|cs|-1], cs[..|cs|-1];
      ListedKeys(before, k);
      RemoveFromDistinct(AfterAll([], before), c.key);
      if k in AfterAll([], before) {
        var i :| 0 <= i < |before| && before[i].key == k && Hides(before[i]);
        assert cs[i] == before[i];
      }
    }
  }

  lemma StyleSafeStep(before: seq<Call>, c: Call, original: string)
    ensures StyleSafe(before + [c], original) <==>
            StyleSafe(before, original) && (original == "" || (FocusedMove(c) ==> SomeHides(before)))
    ensures SomeHides(before + [c]) <==> SomeHides(before) || Hides(c)
  {
    var cs := before + [c];
    assert forall i :: 0 <= i <= |before| ==> cs[..i] == before[..i];
    assert before[..|before|] == before && cs[|before|] == c;
    assert forall i :: 0 <= i < |before| ==> cs[i] == before[i];
  }

  function Untouched(original: string): Element {
    Element(None, original, None)
  }

  /** A call keeps the style the element has of its own, or leaves it with none; it
      saves a style if it is the first to hide. */
  lemma UpdateKeepsStyle(el: Element, ks: seq<string>, style: string, c: Call)
    requires Represents(el, ks, style) && IsKey(c.key) && OwnTokenAbsent(ks, c)
    ensures Represents(Updated(el, c), After(ks, c), if Clobbers(el, c, style) then "" else style)
    ensures Updated(el, c).origProp.Some? <==> el.origProp.Some? || Hides(c)
  {
    EncodeEmpty(ks);
    if !Clobbers(el, c, style) { UpdateRefines(el, ks, style, c); }
  }

  /** What holds throughout a run. */
  ghost predicate Running(el: Element, ks: seq<string>, style: string, hidden: bool) {
    Represents(el, ks, style) && (el.origProp.Some? <==> hidden)
  }

  lemma RunningStep(el: Element, ks: seq<string>, style: string, hidden: bool, c: Call)
    requires Running(el, ks, style, hidden) && IsKey(c.key) && OwnTokenAbsent(ks, c)
    ensures Running(Updated(el, c), After(ks, c), if FocusedMove(c) && !hidden then "" else style, hidden || Hides(c))
  {
    UpdateKeepsStyle(el, ks, style, c);
  }

  /** The element represents the list of its expanders throughout, with its own
      style until that is lost and with none from then on; the style is saved as
      soon as some call hides. */
  lemma {:induction false} RunInvariant(cs: seq<Call>, original: string)
    requires Coherent(cs)
    ensures Running(UpdatedAll(Untouched(original), cs), AfterAll([], cs),
                    if StyleSafe(cs, original) then original else "", SomeHides(cs))
  {
    if cs != [] {
      var c, before := cs[|cs|-1], cs[..|cs|-1];
      assert forall i :: 0 <= i < |before| ==> cs[i] == before[i];
      assert cs == before + [c];
      RunInvariant(before, original);
      ListedKeys(before, c.key);
      StyleSafeStep(before, c, original);
      var style := if StyleSafe(before, original) then original else "";
      RunningStep(UpdatedAll(Untouched(original), before), AfterAll([], before), style, SomeHides(before), c);
      assert (if FocusedMove(c) && !SomeHides(before) then "" else style)
          == (if StyleSafe(cs, original) then original else "");
    }
  }

  /** Over any interleaving of calls, an element is hidden exactly while some
      expander hides it and has its own style otherwise, if and only if it has no
      style of its own or is hidden before any focused move. */
  lemma RunRepresents(cs: seq<Call>, original: string)
    requires Coherent(cs)
    ensures Represents(UpdatedAll(Untouched(original), cs), AfterAll([], cs), original) <==> StyleSafe(cs, original)
  {
    RunInvariant(cs, original);
  }

  /** Once the last word of every expander is 'visible', no token is left, and the
      element has its original style back under the same condition. */
  lemma AllVisibleRestores(cs: seq<Call>, original: string)
    requires Coherent(cs)
    requires forall i :: 0 <= i < |cs| ==> LastVisible(cs, cs[i].key)
    ensures Text(UpdatedAll(Untouched(original), cs)) == ""
    ensures UpdatedAll(Untouched(original), cs).style == original <==> StyleSafe(cs, original)
  {
    RunInvariant(cs, original);
    var ks := AfterAll([], cs);
    if ks != [] {
      assert ks[0] in ks;
      ListedKeys(cs, ks[0]);
    }
  }

  // ---------- The loop over the elements ----------

  /** The rectangle of an element or of an expander with its outline. */
  datatype Box = Box(x: real, y: real, w: real, h: real)

  /** One call: who makes it, for what, where its image and the elements are at the
      time, whether everything is hidden behind a dimmer, and which expander has
      the focus. */
  datatype Pass = Pass(key: string, visible: bool, image: Box, boxes: seq<Box>, dimming: bool, focusKey: Option<string>)

  function Clears(pos: real, len: real, opos: real, osize: real): bool {
    pos + len < opos || pos > opos + osize
  }

  function CallFor(p: Pass, box: Box, wrapperKey: Option<string>): Call {
    var clears := !p.dimming && (Clears(box.x, box.w, p.image.x, p.image.w)
                                 || Clears(box.y, box.h, p.image.y, p.image.h));
    Call(p.key, p.visible, !clears, p.focusKey == wrapperKey, wrapperKey == Some(p.key))
  }

  /** An element in no expander, with a style of its own and never hidden, loses that
      style when an expander that is clear of it opens while none is in focus. */
  lemma ClobberingHappens()
    ensures var p := Pass("1", false, Box(0.0, 0.0, 50.0, 50.0), [Box(100.0, 100.0, 50.0, 50.0)], false, None);
            var el := Updated(Untouched("inherit"), CallFor(p, p.boxes[0], None));
            Represents(Untouched("inherit"), [], "inherit") && el.style == ""
  {
  }

  ghost predicate Contains(b: Box, x: real, y: real) {
    b.x <= x <= b.x + b.w && b.y <= y <= b.y + b.h
  }

  /** A hide call hides the elements outside the calling expander that share a point
      with its image, or all of them behind a dimmer. */
  lemma HidesBehind(p: Pass, box: Box, wrapperKey: Option<string>)
    requires box.w >= 0.0 && box.h >= 0.0 && p.image.w >= 0.0 && p.image.h >= 0.0
    ensures Hides(CallFor(p, box, wrapperKey)) <==>
            !p.visible && wrapperKey != Some(p.key)
            && (p.dimming || exists x, y :: Contains(box, x, y) && Contains(p.image, x, y))
  {
    var x := if box.x < p.image.x then p.image.x else box.x;
    var y := if box.y < p.image.y then p.image.y else box.y;
    if CallFor(p, box, wrapperKey).behind && !p.dimming {
      assert Contains(box, x, y) && Contains(p.image, x, y);
    }
  }

  /** What else a call takes from the page: who calls and for what, whose element it is,
      and whether that expander, or none, is in focus. */
  lemma CallReads(p: Pass, box: Box, wrapperKey: Option<string>)
    ensures var c := CallFor(p, box, wrapperKey);
      && c.key == p.key && c.visible == p.visible
      && (c.own <==> wrapperKey.Some? && wrapperKey.value == p.key)
      && (c.focused <==> (p.focusKey == None && wrapperKey == None)
                         || (p.focusKey.Some? && wrapperKey.Some? && p.focusKey.value == wrapperKey.value))
  {
  }

  ghost predicate ForPage(ps: seq<Pass>, n: nat) {
    forall j :: 0 <= j < |ps| ==> |ps[j].boxes| == n && IsKey(ps[j].key)
  }

  /** The calls element i meets in a sequence of passes. */
  function CallsFor(ps: seq<Pass>, i: nat, wrapperKey: Option<string>): (cs: seq<Call>)
    requires forall j :: 0 <= j < |ps| ==> i < |ps[j].boxes|
    ensures |cs| == |ps|
    ensures forall j :: 0 <= j < |ps| ==> cs[j] == CallFor(ps[j], ps[j].boxes[i], wrapperKey)
  {
    seq(|ps|, j requires 0 <= j < |ps| => CallFor(ps[j], ps[j].boxes[i], wrapperKey))
  }

  lemma CallsCoherent(ps: seq<Pass>, i: nat, wrapperKey: Option<string>)
    requires forall j :: 0 <= j < |ps| ==> i < |ps[j].boxes| && IsKey(ps[j].key)
    ensures Coherent(CallsFor(ps, i, wrapperKey))
  {
  }

  class Page {
    /** The key of the expander each element is in, if any. */
    const wrapperKeys: seq<Option<string>>
    var els: seq<Element>

    constructor (wrapperKeys: seq<Option<string>>, els: seq<Element>)
      requires |wrapperKeys| == |els|
      ensures this.wrapperKeys == wrapperKeys && this.els == els
    {
      this.wrapperKeys := wrapperKeys;
      this.els := els;
    }

    method ShowHideElements(p: Pass)
      requires |els| == |wrapperKeys| == |p.boxes|
      modifies `els
      ensures |els| == |wrapperKeys|
      ensures forall i :: 0 <= i < |els| ==> els[i] == Updated(old(els)[i], CallFor(p, p.boxes[i], wrapperKeys[i]))
    {
      for i := 0 to |els|
        invariant |els| == |wrapperKeys|
        invariant forall j :: 0 <= j < i ==> els[j] == Updated(old(els)[j], CallFor(p, p.boxes[j], wrapperKeys[j]))
        invariant forall j :: i <= j < |els| ==> els[j] == old(els)[j]
      {
        var el := ShowHide(els[i], CallFor(p, p.boxes[i], wrapperKeys[i]));
        els := els[i := el];
      }
    }

    /** Any sequence of passes over elements that no pass has touched yet: each
        element is hidden exactly while some expander hides it and has its own style
        otherwise, exactly if its style is safe. */
    method Replay(ps: seq<Pass>)
      requires |els| == |wrapperKeys| && ForPage(ps, |els|)
      requires forall i :: 0 <= i < |els| ==> els[i] == Untouched(els[i].style)
      modifies `els
      ensures |els| == |wrapperKeys|
      ensures forall i :: 0 <= i < |els| ==>
        var cs := CallsFor(ps, i, wrapperKeys[i]);
        Represents(els[i], AfterAll([], cs), old(els)[i].style) <==> StyleSafe(cs, old(els)[i].style)
    {
      for k := 0 to |ps|
        invariant |els| == |wrapperKeys|
        invariant forall i :: 0 <= i < |els| ==> els[i] == UpdatedAll(old(els)[i], CallsFor(ps[..k], i, wrapperKeys[i]))
      {
        ShowHideElements(ps[k]);
        forall i | 0 <= i < |els| ensures els[i] == UpdatedAll(old(els)[i], CallsFor(ps[..k+1], i, wrapperKeys[i])) {
          var cs := CallsFor(ps[..k+1], i, wrapperKeys[i]);
          assert cs[..k] == CallsFor(ps[..k], i, wrapperKeys[i]);
        }
      }
      assert ps[..|ps|] == ps;
      forall i | 0 <= i < |els|
        ensures Represents(els[i], AfterAll([], CallsFor(ps, i, wrapperKeys[i])), old(els)[i].style)
                <==> StyleSafe(CallsFor(ps, i, wrapperKeys[i]), old(els)[i].style)
      {
        CallsCoherent(ps, i, wrapperKeys[i]);
        RunRepresents(CallsFor(ps, i, wrapperKeys[i]), old(els)[i].style);
      }
    }
  }
}
