/** The animation scheduler: all running property animations share one interval
    timer, and completion callbacks may start further animations from inside it. */
module Scheduler {

  /** An animation of `props` properties over `duration` milliseconds, and the
      animations its completion callback starts. */
  datatype Anim = Anim(duration: int, props: nat, complete: seq<Anim>)

  /** The options object shared by the properties of one running animation:
      `done` is curAnim, `fired` counts the calls of the completion callback. */
  datatype Running = Running(spec: Anim, done: seq<bool>, fired: nat)

  /** The timer of one property. */
  datatype Fx = Fx(anim: nat, prop: nat, startTime: int)

  type Key = (nat, nat)

  function KeyOf(fx: Fx): Key { (fx.anim, fx.prop) }

  ghost function Keys(timers: seq<Fx>): set<Key> {
    set i | 0 <= i < |timers| :: KeyOf(timers[i])
  }

  predicate AllDone(done: seq<bool>) {
    forall i :: 0 <= i < |done| ==> done[i]
  }

  ghost predicate ValidKey(anims: seq<Running>, k: Key) {
    k.0 < |anims| && k.1 < |anims[k.0].done|
  }

  ghost predicate Done(anims: seq<Running>, k: Key)
    requires ValidKey(anims, k)
  {
    anims[k.0].done[k.1]
  }

  /** The callback has fired once if there are properties and all are at their
      end values, and not at all otherwise. */
  ghost predicate FiredRight(r: Running) {
    && |r.done| == r.spec.props
    && r.fired == if r.spec.props > 0 && AllDone(r.done) then 1 else 0
  }

  /** What holds whenever code outside the scheduler runs. `open` are properties
      whose animation is still being started, `stale` finished ones that the
      interval callback is about to remove. */
  ghost predicate Inv(anims: seq<Running>, timers: seq<Fx>, open: set<Key>, stale: set<Key>) {
    && (forall i :: 0 <= i < |anims| ==> FiredRight(anims[i]))
    && (forall i, j :: 0 <= i < j < |timers| ==> KeyOf(timers[i]) != KeyOf(timers[j]))
    && (forall k :: k in Keys(timers) ==> ValidKey(anims, k) && k !in open && (Done(anims, k) <==> k in stale))
    && (forall k :: k in open ==> ValidKey(anims, k) && !Done(anims, k))
    && (forall k :: ValidKey(anims, k) && !Done(anims, k) && k !in open ==> k in Keys(timers))
    && stale <= Keys(timers)
  }

  /** When no timer is left, every animation that has properties has reached all
      its end values and had its callback called exactly once. */
  lemma QuietMeansComplete(anims: seq<Running>, i: nat)
    requires Inv(anims, [], {}, {}) && i < |anims|
    ensures Complete(anims[i])
  {
    forall p | 0 <= p < |anims[i].done| ensures anims[i].done[p] {
      assert ValidKey(anims, (i, p)) && (i, p) !in Keys([]);
    }
  }

  // ---------- Potential: why a tick ends ----------

  /** The timers an animation and everything it goes on to start can ever need. */
  ghost function Weight(a: Anim): nat {
    a.props + Weights(a.complete)
  }

  ghost function Weights(s: seq<Anim>): nat {
    if s == [] then 0 else Weight(s[0]) + Weights(s[1..])
  }

  ghost function Left(done: seq<bool>): nat {
    if done == [] then 0 else (if done[0] then 0 else 1) + Left(done[1..])
  }

  ghost function Potential(r: Running): nat {
    Left(r.done) + if r.fired == 0 then Weights(r.spec.complete) else 0
  }

  ghost function Potentials(s: seq<Running>): nat {
    if s == [] then 0 else Potential(s[0]) + Potentials(s[1..])
  }

  lemma {:induction false} PotentialsAppend(s: seq<Running>, r: Running)
    ensures Potentials(s + [r]) == Potentials(s) + Potential(r)
  {
    if s == [] {
      assert s + [r] == [r];
    } else {
      assert (s + [r])[1..] == s[1..] + [r];
      PotentialsAppend(s[1..], r);
    }
  }

  lemma {:induction false} PotentialsUpdate(s: seq<Running>, i: nat, r: Running)
    requires i < |s|
    ensures Potentials(s[i := r]) == Potentials(s) - Potential(s[i]) + Potential(r)
    ensures Potential(s[i]) <= Potentials(s)
  {
    if i > 0 {
      assert s[i := r][1..] == s[1..][i-1 := r];
      PotentialsUpdate(s[1..], i - 1, r);
    } else {
      assert s[0 := r][1..] == s[1..];
    }
  }

  lemma {:induction false} LeftUpdate(done: seq<bool>, p: nat)
    requires p < |done| && !done[p]
    ensures Left(done[p := true]) == Left(done) - 1
  {
    if p > 0 {
      assert done[p := true][1..] == done[1..][p-1 := true];
      LeftUpdate(done[1..], p - 1);
    } else {
      assert done[0 := true][1..] == done[1..];
    }
  }

  lemma {:induction false} LeftFresh(n: nat)
    ensures Left(seq(n, _ => false)) == n
  {
    if n > 0 {
      assert seq(n, _ => false)[1..] == seq(n - 1, _ => false);
      LeftFresh(n - 1);
    }
  }

  lemma {:induction false} WeightsConcat(s: seq<Anim>, t: seq<Anim>)
    ensures Weights(s + t) == Weights(s) + Weights(t)
  {
    if s == [] {
      assert s + t == t;
    } else {
      assert (s + t)[1..] == s[1..] + t;
      WeightsConcat(s[1..], t);
    }
  }

  // ---------- What is still to be started ----------

  function Is(x: Anim, a: Anim): nat { if a == x then 1 else 0 }

  /** How often x gets started by starting a: once if it is a itself, and as often as
      the callback does, which without properties is never called. */
  ghost function Spawned(x: Anim, a: Anim): nat {
    Is(x, a) + if a.props > 0 then Starting(x, a.complete) else 0
  }

  /** How often x gets started by starting all of s. */
  ghost function Starting(x: Anim, s: seq<Anim>): nat {
    if s == [] then 0 else Spawned(x, s[0]) + Starting(x, s[1..])
  }

  /** x as a running animation, and as one its callback has yet to start. */
  ghost function Owed(x: Anim, r: Running): nat {
    Is(x, r.spec) + if r.fired == 0 && r.spec.props > 0 then Starting(x, r.spec.complete) else 0
  }

  ghost function Owing(x: Anim, s: seq<Running>): nat {
    if s == [] then 0 else Owed(x, s[0]) + Owing(x, s[1..])
  }

  /** How often x runs or has run. */
  ghost function Runs(x: Anim, s: seq<Running>): nat {
    if s == [] then 0 else Is(x, s[0].spec) + Runs(x, s[1..])
  }

  /** From `was` to `now` exactly the animations `more` have been started, with all
      that follows from them: nothing is lost and nothing started twice. */
  ghost predicate Accounted(was: seq<Running>, now: seq<Running>, more: seq<Anim>) {
    forall x :: Owing(x, now) == Owing(x, was) + Starting(x, more)
  }

  lemma {:induction false} OwingAppend(x: Anim, s: seq<Running>, r: Running)
    ensures Owing(x, s + [r]) == Owing(x, s) + Owed(x, r)
  {
    if s == [] {
      assert s + [r] == [r];
    } else {
      assert (s + [r])[1..] == s[1..] + [r];
      OwingAppend(x, s[1..], r);
    }
  }

  lemma {:induction false} OwingUpdate(x: Anim, s: seq<Running>, i: nat, r: Running)
    requires i < |s|
    ensures Owing(x, s[i := r]) + Owed(x, s[i]) == Owing(x, s) + Owed(x, r)
  {
    if i > 0 {
      assert s[i := r][1..] == s[1..][i-1 := r];
      OwingUpdate(x, s[1..], i - 1, r);
    } else {
      assert s[0 := r][1..] == s[1..];
    }
  }

  lemma {:induction false} StartingConcat(x: Anim, s: seq<Anim>, t: seq<Anim>)
    ensures Starting(x, s + t) == Starting(x, s) + Starting(x, t)
  {
    if s == [] {
      assert s + t == t;
    } else {
      assert (s + t)[1..] == s[1..] + t;
      StartingConcat(x, s[1..], t);
    }
  }

  /** A new animation accounts for itself. */
  lemma StartAccounts(anims: seq<Running>, a: Anim)
    ensures Accounted(anims, anims + [Fresh(a)], [a])
  {
    forall x ensures Owing(x, anims + [Fresh(a)]) == Owing(x, anims) + Starting(x, [a]) {
      OwingAppend(x, anims, Fresh(a));
      assert [a][1..] == [];
    }
  }

  /** A finished property leaves the callback to account for, if it was the last. */
  lemma FinishAccounts(anims: seq<Running>, i: nat, p: nat, now: seq<Running>)
    requires i < |anims| && FiredRight(anims[i]) && p < |anims[i].done| && !anims[i].done[p]
    requires Accounted(anims[i := Finish(anims[i], p)], now,
                       if AllDone(Finish(anims[i], p).done) then anims[i].spec.complete else [])
    ensures Accounted(anims, now, [])
  {
    forall x ensures Owing(x, now) == Owing(x, anims) + Starting(x, []) {
      OwingUpdate(x, anims, i, Finish(anims[i], p));
    }
  }

  lemma AccountedBoth(first: seq<Running>, was: seq<Running>, now: seq<Running>, more: seq<Anim>, more': seq<Anim>)
    requires Accounted(first, was, more) && Accounted(was, now, more')
    ensures Accounted(first, now, more + more')
  {
    forall x ensures Owing(x, now) == Owing(x, first) + Starting(x, more + more') {
      StartingConcat(x, more, more');
    }
  }

  lemma AccountedNot(anims: seq<Running>)
    ensures Accounted(anims, anims, [])
  {
  }

  /** When all callbacks that were to fire have fired, nothing is owed. */
  lemma {:induction false} NothingOwed(x: Anim, anims: seq<Running>)
    requires forall i :: 0 <= i < |anims| ==> Complete(anims[i])
    ensures Owing(x, anims) == Runs(x, anims)
  {
    if anims != [] {
      assert Complete(anims[0]);
      forall i | 0 <= i < |anims[1..]| ensures Complete(anims[1..][i]) { assert anims[1..][i] == anims[i+1]; }
      NothingOwed(x, anims[1..]);
    }
  }

  // ---------- One property reaching its end ----------

  /** Property p of r at its end value, with the callback fired if it was the last. */
  function Finish(r: Running, p: nat): (f: Running)
    requires p < |r.done|
  {
    var done := r.done[p := true];
    r.(done := done, fired := if AllDone(done) then r.fired + 1 else r.fired)
  }

  lemma FinishRight(r: Running, p: nat)
    requires FiredRight(r) && p < |r.done| && !r.done[p]
    ensures FiredRight(Finish(r, p))
    ensures Potential(Finish(r, p)) + 1 +
            (if Finish(r, p).fired > r.fired then Weights(r.spec.complete) else 0) == Potential(r)
    ensures r.fired == 0
  {
    LeftUpdate(r.done, p);
  }

  lemma FinishKeepsInv(anims: seq<Running>, timers: seq<Fx>, open: set<Key>, stale: set<Key>, k: Key)
    requires Inv(anims, timers, open, stale) && ValidKey(anims, k) && !Done(anims, k)
    ensures Inv(anims[k.0 := Finish(anims[k.0], k.1)], timers, open - {k},
                if k in Keys(timers) then stale + {k} else stale)
  {
    FinishRight(anims[k.0], k.1);
    var after := anims[k.0 := Finish(anims[k.0], k.1)];
    forall j | ValidKey(anims, j) ensures ValidKey(after, j) && (Done(after, j) <==> j == k || Done(anims, j)) {
    }
  }

  lemma KeysAppend(timers: seq<Fx>, fx: Fx)
    ensures Keys(timers + [fx]) == Keys(timers) + {KeyOf(fx)}
  {
    var t := timers + [fx];
    assert forall i :: 0 <= i < |timers| ==> t[i] == timers[i];
    assert t[|timers|] == fx;
  }

  lemma KeysRemove(timers: seq<Fx>, i: nat)
    requires i < |timers|
    requires forall a, b :: 0 <= a < b < |timers| ==> KeyOf(timers[a]) != KeyOf(timers[b])
    ensures Keys(timers[..i] + timers[i+1..]) == Keys(timers) - {KeyOf(timers[i])}
  {
    var t := timers[..i] + timers[i+1..];
    forall k ensures k in Keys(t) <==> k in Keys(timers) && k != KeyOf(timers[i]) {
      if k in Keys(timers) && k != KeyOf(timers[i]) {
        var j :| 0 <= j < |timers| && KeyOf(timers[j]) == k;
        assert t[if j < i then j else j - 1] == timers[j];
      }
      if k in Keys(t) {
        var j :| 0 <= j < |t| && KeyOf(t[j]) == k;
        assert t[j] == timers[if j < i then j else j + 1];
      }
    }
  }

  /** The properties p, p + 1, ... of animation id. */
  ghost function KeysFrom(id: nat, p: nat, props: nat): set<Key> {
    set q: nat | p <= q < props :: (id, q)
  }

  function Fresh(a: Anim): Running {
    Running(a, seq(a.props, _ => false), 0)
  }

  lemma StartKeepsInv(anims: seq<Running>, timers: seq<Fx>, open: set<Key>, stale: set<Key>, a: Anim)
    requires Inv(anims, timers, open, stale)
    ensures Inv(anims + [Fresh(a)], timers, open + KeysFrom(|anims|, 0, a.props), stale)
    ensures Potentials(anims + [Fresh(a)]) == Potentials(anims) + Weight(a)
  {
    PotentialsAppend(anims, Fresh(a));
    LeftFresh(a.props);
    FreshKeys(anims, a);
  }

  lemma FreshKeys(anims: seq<Running>, a: Anim)
    ensures var after := anims + [Fresh(a)];
      && (forall k :: ValidKey(anims, k) ==> ValidKey(after, k) && (Done(after, k) <==> Done(anims, k)))
      && (forall k :: k in KeysFrom(|anims|, 0, a.props) ==> ValidKey(after, k) && !Done(after, k) && !ValidKey(anims, k))
      && (forall k :: ValidKey(after, k) ==> ValidKey(anims, k) || k in KeysFrom(|anims|, 0, a.props))
      && FiredRight(Fresh(a))
  {
    assert a.props > 0 ==> !Fresh(a).done[0];
  }

  lemma PushKeepsInv(anims: seq<Running>, timers: seq<Fx>, open: set<Key>, stale: set<Key>, fx: Fx)
    requires Inv(anims, timers, open, stale) && KeyOf(fx) in open
    ensures Inv(anims, timers + [fx], open - {KeyOf(fx)}, stale)
  {
    KeysAppend(timers, fx);
    forall i | 0 <= i < |timers| ensures KeyOf(timers[i]) != KeyOf(fx) { assert KeyOf(timers[i]) in Keys(timers); }
  }

  lemma RemoveKeepsInv(anims: seq<Running>, timers: seq<Fx>, stale: set<Key>, i: nat)
    requires i < |timers| && Inv(anims, timers, {}, stale) && KeyOf(timers[i]) in stale
    ensures Inv(anims, timers[..i] + timers[i+1..], {}, stale - {KeyOf(timers[i])})
  {
    KeysRemove(timers, i);
  }

  // ---------- What one tick keeps ----------

  /** The entries of ts whose flag in alive is set, in order. */
  function Kept(ts: seq<Fx>, alive: seq<bool>): seq<Fx>
    requires |ts| == |alive|
  {
    if ts == [] then []
    else Kept(ts[..|ts|-1], alive[..|ts|-1]) + if alive[|ts|-1] then [ts[|ts|-1]] else []
  }

  lemma AllDoneAppend(alive: seq<bool>, b: bool)
    ensures AllDone(alive + [b]) <==> AllDone(alive) && b
  {
    assert (alive + [b])[|alive|] == b;
    assert forall i :: 0 <= i < |alive| ==> (alive + [b])[i] == alive[i];
  }

  lemma KeptStep(ts: seq<Fx>, alive: seq<bool>, fx: Fx, b: bool)
    requires |ts| == |alive|
    ensures Kept(ts + [fx], alive + [b]) == Kept(ts, alive) + if b then [fx] else []
  {
    var ts', alive' := ts + [fx], alive + [b];
    assert ts'[..|ts|] == ts && alive'[..|ts|] == alive;
  }

  // ---------- What the parts of the scheduler do to its state ----------

  /** `starts` and `ends` are the clock readings by which properties were started and
      found to be over. */
  datatype State = State(anims: seq<Running>, timers: seq<Fx>, open: set<Key>, stale: set<Key>, pushes: seq<Fx>,
                         readings: nat, starts: map<Key, nat>, ends: map<Key, nat>)

  ghost predicate Sound(s: State) {
    Inv(s.anims, s.timers, s.open, s.stale)
  }

  /** Property k was over by the clock: no less than its duration lies between the
      reading that started it and the later one that ended it. */
  ghost predicate InTime(clock: nat -> int, s: State, k: Key)
    requires ValidKey(s.anims, k)
  {
    && k in s.starts && k in s.ends && s.starts[k] < s.ends[k] < s.readings
    && clock(s.ends[k]) >= clock(s.starts[k]) + s.anims[k.0].spec.duration
  }

  /** Timers remember when their properties were started, and nothing ends early. */
  ghost predicate Timed(clock: nat -> int, s: State) {
    && (forall k :: k in s.starts ==> k.0 < |s.anims| && s.starts[k] < s.readings)
    && (forall k :: k in s.ends ==> ValidKey(s.anims, k) && Done(s.anims, k))
    && (forall i :: 0 <= i < |s.timers| ==>
          KeyOf(s.timers[i]) in s.starts && s.timers[i].startTime == clock(s.starts[KeyOf(s.timers[i])]))
    && (forall k :: ValidKey(s.anims, k) && Done(s.anims, k) ==> InTime(clock, s, k))
  }

  /** Readings are kept, and new ones are for animations started since, or in own. */
  ghost predicate Remembers(was: map<Key, nat>, now: map<Key, nat>, n: nat, own: set<Key>) {
    && (forall k :: k in was ==> k in now && now[k] == was[k])
    && (forall k :: k in now ==> k in was || k.0 >= n || k in own)
  }

  ghost predicate Clocked(was: State, now: State, own: set<Key>) {
    && |was.anims| <= |now.anims|
    && Remembers(was.starts, now.starts, |was.anims|, own) && Remembers(was.ends, now.ends, |was.anims|, own)
  }

  lemma ClockedBoth(was: State, mid: State, now: State, own: set<Key>, own': set<Key>)
    requires Clocked(was, mid, own) && Clocked(mid, now, own')
    requires forall k :: k in own' ==> k in own || k.0 >= |was.anims|
    ensures Clocked(was, now, own)
  {
  }

  /** What every part does: time passes, timers are only pushed, and what gets
      started, and its potential, is accounted for by `more`. */
  ghost predicate Later(was: State, now: State, more: seq<Anim>) {
    && was.readings <= now.readings
    && was.timers <= now.timers && now.pushes == was.pushes + now.timers[|was.timers|..]
    && Potentials(now.anims) <= Potentials(was.anims) + Weights(more)
    && Accounted(was.anims, now.anims, more)
  }

  lemma LaterBoth(was: State, mid: State, now: State, more: seq<Anim>, more': seq<Anim>)
    requires Later(was, mid, more) && Later(mid, now, more')
    ensures Later(was, now, more + more')
  {
    AccountedBoth(was.anims, mid.anims, now.anims, more, more');
    WeightsConcat(more, more');
    assert now.timers[|was.timers|..] == mid.timers[|was.timers|..] + now.timers[|mid.timers|..];
  }

  /** What starting `more` does: animations that ran before are untouched. */
  ghost predicate Extended(was: State, now: State, more: seq<Anim>) {
    Later(was, now, more) && Clocked(was, now, {}) && was.anims <= now.anims && now.open == was.open && now.stale == was.stale
  }

  lemma ExtendedNot(s: State)
    ensures Extended(s, s, [])
  {
  }

  lemma ExtendedBoth(was: State, mid: State, now: State, more: seq<Anim>, more': seq<Anim>)
    requires Extended(was, mid, more) && Extended(mid, now, more')
    ensures Extended(was, now, more + more')
  {
    LaterBoth(was, mid, now, more, more');
    ClockedBoth(was, mid, now, {}, {});
  }

  /** Animation a is new, and its properties before p have been dealt with. */
  ghost predicate Launching(was: State, now: State, a: Anim, p: nat) {
    && Later(was, now, [a]) && was.anims < now.anims && now.anims[|was.anims|].spec == a
    && now.open == was.open + KeysFrom(|was.anims|, p, a.props) && now.stale == was.stale
    && Clocked(was, now, {}) && forall q: nat :: p <= q < a.props ==> (|was.anims|, q) !in now.starts
  }

  lemma LaunchBegins(clock: nat -> int, was: State, a: Anim)
    requires Sound(was) && Timed(clock, was)
    ensures var now := was.(anims := was.anims + [Fresh(a)], open := was.open + KeysFrom(|was.anims|, 0, a.props));
            Sound(now) && Timed(clock, now) && Launching(was, now, a, 0)
  {
    FreshTimed(clock, was, a);
    StartKeepsInv(was.anims, was.timers, was.open, was.stale, a);
    StartAccounts(was.anims, a);
    assert [a][1..] == [];
  }

  lemma FreshTimed(clock: nat -> int, was: State, a: Anim)
    requires Timed(clock, was)
    ensures Timed(clock, was.(anims := was.anims + [Fresh(a)], open := was.open + KeysFrom(|was.anims|, 0, a.props)))
  {
    var now := was.(anims := was.anims + [Fresh(a)], open := was.open + KeysFrom(|was.anims|, 0, a.props));
    FreshKeys(was.anims, a);
    forall k | ValidKey(now.anims, k) && Done(now.anims, k) ensures InTime(clock, now, k) {
      assert ValidKey(was.anims, k) && InTime(clock, was, k);
    }
  }

  lemma LaunchKey(was: State, mid: State, a: Anim, p: nat)
    requires Launching(was, mid, a, p) && Sound(mid) && p < a.props
    ensures (|was.anims|, p) in mid.open && ValidKey(mid.anims, (|was.anims|, p)) && (|was.anims|, p) !in mid.starts
  {
  }

  /** What starting property p of animation id does. */
  ghost predicate Dealt(was: State, now: State, id: nat, p: nat) {
    && Later(was, now, []) && now.open == was.open - {(id, p)} && now.stale == was.stale
    && Clocked(was, now, {(id, p)}) && (id, p) in now.starts && now.starts[(id, p)] == was.readings
    && id < |was.anims| && now.anims[id].spec == was.anims[id].spec
    && forall i :: 0 <= i < |was.anims| && i != id ==> now.anims[i] == was.anims[i]
  }

  lemma LaunchGoesOn(was: State, mid: State, now: State, a: Anim, p: nat)
    requires Sound(was) && Launching(was, mid, a, p) && p < a.props && Dealt(mid, now, |was.anims|, p)
    ensures Launching(was, now, a, p + 1)
  {
    LaterBoth(was, mid, now, [a], []);
    ClockedBoth(was, mid, now, {}, {(|was.anims|, p)});
    var id := |was.anims|;
    assert forall k :: k in was.open ==> k.0 < id;
    assert KeysFrom(id, p, a.props) - {(id, p)} == KeysFrom(id, p + 1, a.props);
  }

  lemma LaunchEnds(was: State, now: State, a: Anim)
    requires Launching(was, now, a, a.props)
    ensures Extended(was, now, [a])
  {
    assert KeysFrom(|was.anims|, a.props, a.props) == {};
  }

  /** What stepping a timer does: nothing if it stays alive, and otherwise its property
      is at its end value, and has had its callback called if it was the last. */
  ghost predicate Advances(was: State, now: State, fx: Fx, alive: bool) {
    && ValidKey(was.anims, KeyOf(fx)) && was.readings < now.readings && Later(was, now, []) && Clocked(was, now, {KeyOf(fx)})
    && if alive then now == was.(readings := now.readings) else
        && was.anims[fx.anim := Finish(was.anims[fx.anim], fx.prop)] <= now.anims
        && now.open == was.open - {KeyOf(fx)}
        && now.stale == (if KeyOf(fx) in Keys(was.timers) then was.stale + {KeyOf(fx)} else was.stale)
        && Potentials(now.anims) < Potentials(was.anims)
        && CalledBack(was, now, fx)
  }

  /** If that was the last property, all that the callback is to start has been started. */
  ghost predicate CalledBack(was: State, now: State, fx: Fx)
    requires ValidKey(was.anims, KeyOf(fx))
  {
    (forall q :: 0 <= q < |was.anims[fx.anim].done| && q != fx.prop ==> was.anims[fx.anim].done[q]) ==>
      exists ids :: StartedAs(now.anims, |was.anims|, ids, was.anims[fx.anim].spec.complete)
  }

  /** The state with the property of fx finished and the callback not yet called. */
  ghost function Finished(was: State, fx: Fx): State
    requires ValidKey(was.anims, KeyOf(fx))
  {
    State(was.anims[fx.anim := Finish(was.anims[fx.anim], fx.prop)], was.timers, was.open - {KeyOf(fx)},
          if KeyOf(fx) in Keys(was.timers) then was.stale + {KeyOf(fx)} else was.stale, was.pushes, was.readings + 1,
          was.starts, was.ends[KeyOf(fx) := was.readings])
  }

  /** The timer was set by the reading its property was started at. */
  ghost predicate SetBy(clock: nat -> int, s: State, fx: Fx) {
    KeyOf(fx) in s.starts && fx.startTime == clock(s.starts[KeyOf(fx)])
  }

  lemma StepFinishes(clock: nat -> int, was: State, fx: Fx)
    requires Sound(was) && ValidKey(was.anims, KeyOf(fx)) && !Done(was.anims, KeyOf(fx))
    requires Timed(clock, was) && SetBy(clock, was, fx)
    requires clock(was.readings) >= was.anims[fx.anim].spec.duration + fx.startTime
    ensures Sound(Finished(was, fx)) && Timed(clock, Finished(was, fx))
  {
    FinishTimed(clock, was, fx);
    FinishKeepsInv(was.anims, was.timers, was.open, was.stale, KeyOf(fx));
  }

  lemma FinishTimed(clock: nat -> int, was: State, fx: Fx)
    requires ValidKey(was.anims, KeyOf(fx)) && Timed(clock, was) && SetBy(clock, was, fx)
    requires clock(was.readings) >= was.anims[fx.anim].spec.duration + fx.startTime
    ensures Timed(clock, Finished(was, fx))
  {
    var now := Finished(was, fx);
    forall k | ValidKey(now.anims, k) ensures ValidKey(was.anims, k) && (Done(now.anims, k) <==> k == KeyOf(fx) || Done(was.anims, k)) {
    }
    forall k | ValidKey(now.anims, k) && Done(now.anims, k) ensures InTime(clock, now, k) {
      if k != KeyOf(fx) { assert InTime(clock, was, k); }
    }
    forall k | k in now.ends ensures ValidKey(now.anims, k) && Done(now.anims, k) {
      assert k == KeyOf(fx) || k in was.ends;
    }
  }

  lemma StepFinished(clock: nat -> int, was: State, now: State, fx: Fx, ids: seq<nat>)
    requires Sound(was) && ValidKey(was.anims, KeyOf(fx)) && !Done(was.anims, KeyOf(fx))
    requires var f := Finish(was.anims[fx.anim], fx.prop);
             && Extended(Finished(was, fx), now, if AllDone(f.done) then f.spec.complete else [])
             && (AllDone(f.done) ==> StartedAs(now.anims, |was.anims|, ids, f.spec.complete))
    requires Timed(clock, was)
    ensures Advances(was, now, fx, false) && ValidKey(now.anims, KeyOf(fx)) && Done(now.anims, KeyOf(fx))
  {
    var r := was.anims[fx.anim];
    assert KeyOf(fx) !in was.ends;
    ClockedBoth(was, Finished(was, fx), now, {KeyOf(fx)}, {});
    FinishRight(r, fx.prop);
    PotentialsUpdate(was.anims, fx.anim, Finish(r, fx.prop));
    FinishAccounts(was.anims, fx.anim, fx.prop, now.anims);
    assert now.anims[fx.anim] == Finish(r, fx.prop);
  }

  /** The state once the property is noted as started by the next reading. */
  ghost function Opened(first: State, k: Key): State {
    first.(readings := first.readings + 1, starts := first.starts[k := first.readings])
  }

  lemma OpenedTimed(clock: nat -> int, first: State, k: Key)
    requires Timed(clock, first) && ValidKey(first.anims, k) && !Done(first.anims, k) && k !in first.starts
    ensures Timed(clock, Opened(first, k))
  {
    var was := Opened(first, k);
    forall j | ValidKey(was.anims, j) && Done(was.anims, j) ensures InTime(clock, was, j) {
      assert InTime(clock, first, j);
    }
  }

  lemma StepDeals(first: State, was: State, now: State, fx: Fx)
    requires Sound(was) && was == Opened(first, KeyOf(fx)) && KeyOf(fx) !in first.starts
    requires Advances(was, now, fx, false) && KeyOf(fx) in was.open
    ensures Dealt(first, now, fx.anim, fx.prop)
  {
    assert Clocked(first, was, {KeyOf(fx)});
    ClockedBoth(first, was, now, {KeyOf(fx)}, {KeyOf(fx)});
    assert forall i :: 0 <= i < |was.anims| ==>
      now.anims[i] == was.anims[fx.anim := Finish(was.anims[fx.anim], fx.prop)][i];
  }

  ghost function Pushed(s: State, fx: Fx): State {
    s.(timers := s.timers + [fx], pushes := s.pushes + [fx], open := s.open - {KeyOf(fx)})
  }

  lemma PushDeals(clock: nat -> int, first: State, was: State, mid: State, fx: Fx)
    requires Sound(mid) && was == Opened(first, KeyOf(fx)) && KeyOf(fx) !in first.starts
    requires Advances(was, mid, fx, true) && KeyOf(fx) in mid.open
    requires Timed(clock, mid) && SetBy(clock, mid, fx)
    ensures Sound(Pushed(mid, fx)) && Timed(clock, Pushed(mid, fx)) && Dealt(first, Pushed(mid, fx), fx.anim, fx.prop)
    ensures Pushed(mid, fx).anims == first.anims && Pushed(mid, fx).timers == first.timers + [fx]
  {
    PushTimed(clock, mid, fx);
    PushKeepsInv(mid.anims, mid.timers, mid.open, mid.stale, fx);
  }

  lemma PushTimed(clock: nat -> int, mid: State, fx: Fx)
    requires Timed(clock, mid) && SetBy(clock, mid, fx)
    ensures Timed(clock, Pushed(mid, fx))
  {
    SameTimed(clock, mid, Pushed(mid, fx));
  }

  /** Only the readings, the clock readings noted and the timers matter for the times. */
  lemma SameTimed(clock: nat -> int, was: State, now: State)
    requires Timed(clock, was) && now.anims == was.anims && now.starts == was.starts && now.ends == was.ends
    requires was.readings <= now.readings
    requires forall i :: 0 <= i < |now.timers| ==> SetBy(clock, was, now.timers[i])
    ensures Timed(clock, now)
  {
    forall k | ValidKey(now.anims, k) && Done(now.anims, k) ensures InTime(clock, now, k) {
      assert InTime(clock, was, k);
    }
  }

  /** The i-th of `started` has been started after those before it. */
  lemma StartedNext(was: State, mid: State, now: State, ids: seq<nat>, started: seq<Anim>, i: nat) returns (ids': seq<nat>)
    requires i < |started|
    requires Extended(was, mid, started[..i]) && StartedAs(mid.anims, |was.anims|, ids, started[..i])
    requires Extended(mid, now, [started[i]]) && |mid.anims| < |now.anims| && now.anims[|mid.anims|].spec == started[i]
    ensures Extended(was, now, started[..i+1]) && StartedAs(now.anims, |was.anims|, ids', started[..i+1])
  {
    ExtendedBoth(was, mid, now, started[..i], [started[i]]);
    assert started[..i] + [started[i]] == started[..i+1];
    ids' := ids + [|mid.anims|];
    assert forall j :: 0 <= j < |ids| ==> now.anims[ids[j]] == mid.anims[ids[j]];
  }

  lemma RemoveTimed(clock: nat -> int, was: State, now: State, i: nat)
    requires Timed(clock, was) && i < |was.timers|
    requires now == was.(timers := was.timers[..i] + was.timers[i+1..], stale := now.stale)
    ensures Timed(clock, now)
  {
    SameTimed(clock, was, now);
  }

  ghost predicate Keeps(was: map<Key, nat>, now: map<Key, nat>) {
    forall k :: k in was ==> k in now && now[k] == was[k]
  }

  /** Every property whose duration is over at time t has been ended. */
  ghost predicate NotLate(clock: nat -> int, was: seq<Running>, starts: map<Key, nat>, t: int, now: seq<Running>) {
    forall k: Key :: ValidKey(was, k) && k in starts && t >= clock(starts[k]) + was[k.0].spec.duration ==>
      ValidKey(now, k) && Done(now, k)
  }

  lemma DueIsDone(clock: nat -> int, was: State, now: seq<Running>, visited: seq<Fx>, alive: seq<bool>)
    requires Inv(was.anims, was.timers, {}, {}) && Timed(clock, was) && Grows(was.anims, now)
    requires was.timers <= visited && Flagged(now, visited, alive)
    requires DueFinished(was.anims, was.timers, clock(was.readings), alive)
    ensures NotLate(clock, was.anims, was.starts, clock(was.readings), now)
  {
    forall k: Key | ValidKey(was.anims, k) && k in was.starts
               && clock(was.readings) >= clock(was.starts[k]) + was.anims[k.0].spec.duration
      ensures ValidKey(now, k) && Done(now, k)
    {
      assert |now[k.0].done| == |was.anims[k.0].done|;
      if !Done(was.anims, k) {
        assert k in Keys(was.timers);
        var j :| 0 <= j < |was.timers| && KeyOf(was.timers[j]) == k;
        assert visited[j] == was.timers[j] && Due(was.anims, was.timers[j], clock(was.readings));
      }
    }
  }

  // ---------- Whole runs ----------

  /** A caller starts an animation, or the interval fires. */
  datatype Event = Start(a: Anim) | Fire

  /** The animations callers start, in order. */
  function StartsOf(es: seq<Event>): seq<Anim> {
    if es == [] then []
    else StartsOf(es[..|es|-1]) + Started(es[|es|-1])
  }

  function Started(e: Event): seq<Anim> {
    if e.Start? then [e.a] else []
  }

  /** The callers' animations are those of the start events, in order. */
  lemma {:induction false} StartsOfConcat(es: seq<Event>, fs: seq<Event>)
    ensures StartsOf(es + fs) == StartsOf(es) + StartsOf(fs)
  {
    if fs == [] {
      assert es + fs == es;
    } else {
      var n := |fs| - 1;
      assert (es + fs)[..|es| + n] == es + fs[..n];
      StartsOfConcat(es, fs[..n]);
      assert (StartsOf(es) + StartsOf(fs[..n])) + Started(fs[n]) == StartsOf(es) + (StartsOf(fs[..n]) + Started(fs[n]));
    }
  }

  lemma StartsOfOne(a: Anim)
    ensures StartsOf([]) == StartsOf([Fire]) == [] && StartsOf([Start(a)]) == [a]
  {
    assert [Fire][..0] == [] && [Start(a)][..0] == [];
  }

  /** What is started by way of callbacks counts, to any depth. */
  lemma NestedStarts(x: Anim, a: Anim, s: seq<Anim>, i: nat)
    requires i < |s| && s[i] == a
    ensures Starting(x, s) >= Spawned(x, a)
    ensures Spawned(a, a) >= 1
    ensures a.props > 0 ==> Spawned(x, a) == Is(x, a) + Starting(x, a.complete)
    ensures a.props == 0 ==> Spawned(x, a) == Is(x, a)
  {
    assert s == s[..i] + ([a] + s[i+1..]);
    StartingConcat(x, s[..i], [a] + s[i+1..]);
    assert ([a] + s[i+1..])[1..] == s[i+1..];
  }

  lemma GoesOn(first: seq<Running>, was: seq<Running>, now: seq<Running>, more: seq<Anim>, more': seq<Anim>)
    requires Grows(first, was) && Accounted(first, was, more)
    requires Grows(was, now) && Accounted(was, now, more')
    ensures Grows(first, now) && Accounted(first, now, more + more')
  {
    AccountedBoth(first, was, now, more, more');
  }

  lemma StartsOfStep(es: seq<Event>, k: nat)
    requires k < |es|
    ensures StartsOf(es[..k+1]) == StartsOf(es[..k]) + Started(es[k])
  {
    assert es[..k+1][..k] == es[..k];
  }

  /** At all its end values, and with its callback called once if there are any. */
  ghost predicate Complete(r: Running) {
    AllDone(r.done) && r.fired == if r.spec.props > 0 then 1 else 0
  }

  /** Animation ids[i] is the i-th of `started`, one after the other from the n-th on. */
  ghost predicate StartedAs(anims: seq<Running>, n: nat, ids: seq<nat>, started: seq<Anim>) {
    && |ids| == |started|
    && (forall i :: 0 <= i < |ids| ==> n <= ids[i] < |anims| && anims[ids[i]].spec == started[i])
    && (forall i, j :: 0 <= i < j < |ids| ==> ids[i] < ids[j])
  }

  ghost predicate ClockPasses(clock: nat -> int) {
    forall t: int :: PassedBy(clock, t)
  }

  ghost predicate PassedBy(clock: nat -> int, t: int) {
    exists i: nat :: clock(i) >= t
  }

  ghost predicate AllDue(anims: seq<Running>, timers: seq<Fx>, t: int) {
    forall j :: 0 <= j < |timers| ==> Due(anims, timers[j], t)
  }

  lemma TimersValid(anims: seq<Running>, timers: seq<Fx>)
    requires Inv(anims, timers, {}, {})
    ensures forall j :: 0 <= j < |timers| ==> timers[j].anim < |anims|
  {
    forall j | 0 <= j < |timers| ensures timers[j].anim < |anims| {
      assert KeyOf(timers[j]) in Keys(timers);
    }
  }

  /** Some reading finds every timer due. */
  lemma {:induction false} DueEventually(clock: nat -> int, anims: seq<Running>, timers: seq<Fx>) returns (n: nat)
    requires ClockPasses(clock) && forall i, j :: 0 <= i <= j ==> clock(i) <= clock(j)
    requires forall j :: 0 <= j < |timers| ==> timers[j].anim < |anims|
    ensures AllDue(anims, timers, clock(n))
  {
    n := 0;
    if timers != [] {
      var fx, before := timers[|timers|-1], timers[..|timers|-1];
      var m := DueEventually(clock, anims, before);
      var t := anims[fx.anim].spec.duration + fx.startTime;
      assert PassedBy(clock, t);
      var k: nat :| clock(k) >= t;
      n := if m < k then k else m;
      assert clock(m) <= clock(n) && clock(k) <= clock(n);
      forall j | 0 <= j < |timers| ensures Due(anims, timers[j], clock(n)) {
        assert j < |before| ==> timers[j] == before[j] && Due(anims, before[j], clock(m));
      }
    }
  }

  class Scheduler {
    /** The system clock: the value of each successive reading. */
    const clock: nat -> int
    var readings: nat
    var anims: seq<Running>
    var timers: seq<Fx>
    /** Whether the interval is set. */
    var running: bool
    ghost var open: set<Key>
    ghost var stale: set<Key>
    /** Every timer pushed so far. */
    ghost var pushes: seq<Fx>
    /** The clock readings that started and ended the properties. */
    ghost var starts: map<Key, nat>
    ghost var ends: map<Key, nat>

    ghost function Now(): State
      reads this
    {
      State(anims, timers, open, stale, pushes, readings, starts, ends)
    }

    /** The state seen by callbacks and by any code between ticks. */
    ghost predicate Consistent()
      reads this
    {
      Sound(Now()) && Timed(clock, Now()) && (running <==> timers != [])
    }

    /** Between ticks nothing is half started or half removed. */
    ghost predicate Idle()
      reads this
    {
      Consistent() && open == {} && stale == {}
    }

    ghost predicate ClockRuns()
      reads this
    {
      forall i, j :: 0 <= i <= j ==> clock(i) <= clock(j)
    }

    constructor (clock: nat -> int)
      ensures Idle() && this.clock == clock && anims == [] && !running
    {
      this.clock := clock;
      readings := 0;
      anims, timers, running := [], [], false;
      open, stale, pushes := {}, {}, [];
      starts, ends := map[], map[];
    }

    method GetTime() returns (t: int)
      modifies `readings
      ensures readings == old(readings) + 1 && t == clock(old(readings))
    {
      t := clock(readings);
      readings := readings + 1;
    }

    /** Starts an animation; earlier ones are untouched by it and by whatever
        its callbacks start. */
    method Animate(a: Anim)
      requires Consistent()
      modifies this
      ensures Consistent() && Extended(old(Now()), Now(), [a])
      ensures |old(anims)| < |anims| && anims[|old(anims)|].spec == a
      decreases a, 6
    {
      ghost var was := Now();
      var id := |anims|;
      Prepare(a);
      for p := 0 to a.props
        invariant Consistent() && Launching(was, Now(), a, p)
      {
        ghost var mid := Now();
        LaunchKey(was, mid, a, p);
        Custom(id, p);
        LaunchGoesOn(was, mid, Now(), a, p);
      }
      LaunchEnds(was, Now(), a);
    }

    /** Sets up the options shared by the properties. */
    method Prepare(a: Anim)
      requires Consistent()
      modifies `anims, `open
      ensures Consistent() && Launching(old(Now()), Now(), a, 0)
    {
      LaunchBegins(clock, Now(), a);
      open := open + KeysFrom(|anims|, 0, a.props);
      anims := anims + [Fresh(a)];
    }

    /** Starts the timer of one property, stepping it once at once. It is over at once
        only if the second reading of the clock is the duration past the first. */
    method Custom(id: nat, p: nat)
      requires Consistent() && (id, p) in open && ValidKey(anims, (id, p)) && (id, p) !in starts
      modifies this
      ensures Consistent() && Dealt(old(Now()), Now(), id, p)
      ensures if clock(old(readings) + 1) < clock(old(readings)) + old(anims[id].spec.duration)
              then anims == old(anims) && timers == old(timers) + [Fx(id, p, clock(old(readings)))]
              else ValidKey(anims, (id, p)) && Done(anims, (id, p))
      decreases anims[id].spec, 5
    {
      ghost var first := Now();
      var fx := Begin(id, p);
      FirstStep(fx, first);
    }

    /** Steps a property just started, and lists its timer if it goes on. */
    method FirstStep(fx: Fx, ghost first: State)
      requires Consistent() && Now() == Opened(first, KeyOf(fx)) && KeyOf(fx) !in first.starts
      requires KeyOf(fx) in open && ValidKey(anims, KeyOf(fx)) && SetBy(clock, Now(), fx)
      modifies this
      ensures Consistent() && Dealt(first, Now(), fx.anim, fx.prop)
      ensures if clock(old(readings)) < fx.startTime + old(anims[fx.anim].spec.duration)
              then anims == first.anims && timers == first.timers + [fx]
              else ValidKey(anims, KeyOf(fx)) && Done(anims, KeyOf(fx))
      decreases anims[fx.anim].spec, 4
    {
      ghost var was := Now();
      var alive := Step(fx);
      if alive {
        PushDeals(clock, first, was, Now(), fx);
        Enlist(fx);
      } else {
        StepDeals(first, was, Now(), fx);
      }
    }

    /** Reads the start time. */
    method Begin(id: nat, p: nat) returns (fx: Fx)
      requires Consistent() && ValidKey(anims, (id, p)) && !Done(anims, (id, p)) && (id, p) !in starts
      modifies `readings, `starts
      ensures Consistent() && Now() == Opened(old(Now()), (id, p))
      ensures fx == Fx(id, p, clock(old(readings))) && SetBy(clock, Now(), fx)
    {
      ghost var first := Now();
      OpenedTimed(clock, first, (id, p));
      starts := starts[(id, p) := readings];
      var now := GetTime();
      assert Now() == Opened(first, (id, p));
      fx := Fx(id, p, now);
    }

    /** Pushes a timer, and sets the interval if it is the only one. */
    method Enlist(fx: Fx)
      requires Consistent() && Sound(Pushed(Now(), fx)) && Timed(clock, Pushed(Now(), fx))
      modifies this
      ensures Consistent() && Now() == Pushed(old(Now()), fx)
    {
      ghost var was := Now();
      timers := timers + [fx];
      pushes := pushes + [fx];
      open := open - {KeyOf(fx)};
      assert Now() == Pushed(was, fx);
      if |timers| == 1 {
        assert !running;  // there is never a second interval
        running := true;
      }
    }

    /** Steps one property: past its duration it is put at its end value and its
        timer reports itself finished, after the callback when it was the last. */
    method Step(fx: Fx) returns (alive: bool)
      requires Consistent() && ValidKey(anims, KeyOf(fx)) && !Done(anims, KeyOf(fx)) && SetBy(clock, Now(), fx)
      modifies this
      ensures Consistent() && Advances(old(Now()), Now(), fx, alive)
      ensures alive <==> clock(old(readings)) < fx.startTime + old(anims[fx.anim].spec.duration)
      ensures !alive ==> ValidKey(anims, KeyOf(fx)) && Done(anims, KeyOf(fx))
      decreases anims[fx.anim].spec, 3
    {
      ghost var was := Now();
      var t := GetTime();
      if t >= anims[fx.anim].spec.duration + fx.startTime {
        Expire(fx, was);
        return false;
      }
      AccountedNot(anims);
      SameTimed(clock, was, Now());
      return true;
    }

    /** The branch of a property that is over. */
    method Expire(fx: Fx, ghost was: State)
      requires Now() == was.(readings := was.readings + 1) && (running <==> timers != [])
      requires Sound(was) && Timed(clock, was)
      requires ValidKey(was.anims, KeyOf(fx)) && !Done(was.anims, KeyOf(fx)) && SetBy(clock, was, fx)
      requires clock(was.readings) >= was.anims[fx.anim].spec.duration + fx.startTime
      modifies this
      ensures Consistent() && Advances(was, Now(), fx, false)
      ensures ValidKey(anims, KeyOf(fx)) && Done(anims, KeyOf(fx))
      decreases anims[fx.anim].spec, 2
    {
      var r := anims[fx.anim];
      var f := Finish(r, fx.prop);
      StepFinishes(clock, was, fx);
      anims := anims[fx.anim := f];
      open := open - {KeyOf(fx)};
      if KeyOf(fx) in Keys(timers) { stale := stale + {KeyOf(fx)}; }
      ends := ends[KeyOf(fx) := was.readings];
      assert Now() == Finished(was, fx);
      ghost var ids := MaybeCallBack(r.spec, AllDone(f.done));
      StepFinished(clock, was, Now(), fx, ids);
    }

    method MaybeCallBack(a: Anim, done: bool) returns (ghost ids: seq<nat>)
      requires Consistent()
      modifies this
      ensures Consistent() && Extended(old(Now()), Now(), if done then a.complete else [])
      ensures done ==> StartedAs(anims, |old(anims)|, ids, a.complete)
      decreases a, 1
    {
      ids := [];
      if done { ids := CallBack(a); } else { ExtendedNot(Now()); }
    }

    /** The completion callback: starts its animations one after the other. */
    method CallBack(a: Anim) returns (ghost ids: seq<nat>)
      requires Consistent()
      modifies this
      ensures Consistent() && Extended(old(Now()), Now(), a.complete)
      ensures StartedAs(anims, |old(anims)|, ids, a.complete)
      decreases a, 0
    {
      ghost var was := Now();
      ids := [];
      ExtendedNot(was);
      for i := 0 to |a.complete|
        invariant Consistent() && Extended(was, Now(), a.complete[..i])
        invariant StartedAs(anims, |was.anims|, ids, a.complete[..i])
      {
        ghost var mid := Now();
        Animate(a.complete[i]);
        ids := StartedNext(was, mid, Now(), ids, a.complete, i);
      }
      assert a.complete[..|a.complete|] == a.complete;
    }

    /** One run of the interval callback: no property whose duration was over when it
        began is left. */
    method Tick() returns (ghost visited: seq<Fx>, ghost alive: seq<bool>)
      requires Idle() && running
      modifies this
      ensures Idle() && Swept(old(Now()), Now(), visited, alive)
      ensures ClockRuns() ==> NotLate(clock, old(anims), old(starts), clock(old(readings)), anims)
    {
      ghost var was := Now();
      visited, alive := Sweep();
      if ClockRuns() { DueIsDone(clock, was, anims, visited, alive); }
    }

    /** What a tick does: each timer visited once, those alive kept in order, and
        nothing else changed but what finished timers call. */
    ghost predicate Swept(was: State, now: State, visited: seq<Fx>, alive: seq<bool>)
    {
      && |visited| == |alive| && alive != [] && now.readings > was.readings
      && was.pushes <= now.pushes && visited == was.timers + now.pushes[|was.pushes|..]
      && now.timers == Kept(visited, alive)
      && Grows(was.anims, now.anims) && Flagged(now.anims, visited, alive)
      && Advanced(was.anims, was.timers, now.anims, now.timers, alive)
      && Accounted(was.anims, now.anims, [])
      && Keeps(was.starts, now.starts) && Keeps(was.ends, now.ends)
      && ((forall i, j :: 0 <= i <= j ==> clock(i) <= clock(j)) ==>
            DueFinished(was.anims, was.timers, clock(was.readings), alive))
    }

    /** The loop of the interval callback. */
    method Sweep() returns (ghost visited: seq<Fx>, ghost alive: seq<bool>)
      requires Idle() && running
      modifies this
      ensures Idle() && Swept(old(Now()), Now(), visited, alive)
    {
      visited, alive := [], [];
      ghost var first, started, r, n := anims, timers, readings, |pushes|;
      assert visited + timers[0..] == started + pushes[n..];
      var i := 0;
      while i < |timers|
        invariant InTick(first, started, r, n, i, visited, alive) && old(pushes) <= pushes
        invariant Accounted(old(anims), anims, [])
        invariant Keeps(old(starts), starts) && Keeps(old(ends), ends)
        decreases Potentials(anims), |timers| - i
      {
        ghost var mid := anims;
        i, visited, alive := VisitNext(first, started, r, n, i, visited, alive);
        AccountedBoth(old(anims), mid, anims, [], []);
      }
      assert timers == timers[..i];
      if |timers| == 0 { running := false; }
    }

    /** The invariant of the loop over the timers: the tick found the animations
        `first` and the timers `started` at clock reading r, after n pushes. */
    ghost predicate InTick(first: seq<Running>, started: seq<Fx>, r: nat, n: nat, i: int, visited: seq<Fx>, alive: seq<bool>)
      reads this
    {
      && Inv(anims, timers, {}, {}) && Timed(clock, Now()) && open == {} && stale == {} && running
      && 0 <= i <= |timers| && n <= |pushes|
      && (if alive == [] then readings == r else readings > r)
      && Progress(first, started, pushes[n..], anims, timers, i, visited, alive)
      && (ClockRuns() ==> DueFinished(first, started, clock(r), alive))
      && Advanced(first, started, anims, timers, alive)
    }

    /** The body of that loop. */
    method VisitNext(ghost first: seq<Running>, ghost started: seq<Fx>, ghost r: nat, ghost n: nat,
                     i: nat, ghost visited: seq<Fx>, ghost alive: seq<bool>)
      returns (i': nat, ghost visited': seq<Fx>, ghost alive': seq<bool>)
      requires InTick(first, started, r, n, i, visited, alive) && i < |timers|
      modifies this
      ensures InTick(first, started, r, n, i', visited', alive') && old(pushes) <= pushes
      ensures Potentials(anims) < Potentials(old(anims)) || (anims == old(anims) && |timers| - i' < old(|timers|) - i)
      ensures Accounted(old(anims), anims, []) && Keeps(old(starts), starts) && Keeps(old(ends), ends)
    {
      ghost var anims', timers', pushes', t := anims, timers, pushes, readings;
      assert KeyOf(timers[i]) in Keys(timers);
      var b := Visit(i);
      if ClockRuns() {
        assert clock(r) <= clock(t);
        DueStep(first, anims', started, pushes'[n..], timers', i, visited, alive, b, clock(r), clock(t));
      }
      ProgressStep(first, started, n, anims', anims, timers', pushes', pushes, i, visited, alive, b);
      AdvancedStep(first, started, anims', anims, timers', pushes[|pushes'|..], i, alive, b);
      i', visited', alive' := if b then i + 1 else i, visited + [timers'[i]], alive + [b];
    }

    /** A caller starts an animation, or the interval fires if it is set. */
    method Happen(e: Event)
      requires Idle()
      modifies this
      ensures Idle() && Grows(old(anims), anims)
      ensures if e.Start? then Accounted(old(anims), anims, [e.a]) else Accounted(old(anims), anims, [])
    {
      if e.Start? {
        Animate(e.a);
      } else if running {
        ghost var visited, alive := Tick();
      } else {
        AccountedNot(anims);
      }
    }

    /** Anything that happens to the scheduler between its start and now. */
    method Replay(es: seq<Event>)
      requires Idle()
      modifies this
      ensures Idle() && Grows(old(anims), anims)
      ensures Accounted(old(anims), anims, StartsOf(es))
    {
      for k := 0 to |es|
        invariant Idle() && Grows(old(anims), anims)
        invariant Accounted(old(anims), anims, StartsOf(es[..k]))
      {
        ghost var was := anims;
        Happen(es[k]);
        GoesOn(old(anims), was, anims, StartsOf(es[..k]), Started(es[k]));
        StartsOfStep(es, k);
      }
      assert es[..|es|] == es;
    }

    /** With a clock that passes every time, finitely many ticks empty the list, so
        that the interval is cleared, and what runs or has run by then is exactly
        what was owed; all of it is at its end values with its callback called. */
    method RunToQuiet()
      requires Idle() && ClockRuns() && ClockPasses(clock)
      modifies this
      ensures Idle() && !running && timers == [] && Grows(old(anims), anims)
      ensures forall i :: 0 <= i < |anims| ==> Complete(anims[i])
      ensures forall x :: Runs(x, anims) == Owing(x, old(anims))
    {
      TimersValid(anims, timers);
      ghost var n: nat := DueEventually(clock, anims, timers);
      while running
        invariant Idle() && Grows(old(anims), anims)
        invariant AllDue(anims, timers, clock(n))
        invariant Accounted(old(anims), anims, [])
        decreases Potentials(anims), n - readings
      {
        ghost var before, was, fx := readings, anims, timers[0];
        ghost var visited, alive := Tick();
        GoesOn(old(anims), was, anims, [], []);
        if AllDone(alive) {
          assert alive[0] && !Due(was, fx, clock(before)) && Due(was, fx, clock(n));
          assert n <= before ==> clock(n) <= clock(before);
        } else {
          TimersValid(anims, timers);
          n := DueEventually(clock, anims, timers);
        }
      }
      forall i | 0 <= i < |anims| ensures Complete(anims[i]) {
        QuietMeansComplete(anims, i);
      }
      forall x ensures Runs(x, anims) == Owing(x, old(anims)) { NothingOwed(x, anims); }
    }

    /** The body of the loop over the timers: steps timer i and takes it out when
        it is finished. */
    method Visit(i: nat) returns (b: bool)
      requires Inv(anims, timers, {}, {}) && Timed(clock, Now()) && open == {} && stale == {} && running && i < |timers|
      requires ValidKey(anims, KeyOf(timers[i]))
      modifies this
      ensures Inv(anims, timers, {}, {}) && Timed(clock, Now()) && running
      ensures b <==> clock(old(readings)) < old(timers)[i].startTime + old(anims[timers[i].anim].spec.duration)
      ensures Visited(old(Now()), Now(), i, b)
    {
      ghost var was := Now();
      var fx := timers[i];
      assert KeyOf(fx) in Keys(timers);
      b := Step(fx);
      VisitEnds(was, Now(), i, b);
      if !b { Splice(i); }
    }

    /** Takes out a timer whose property is over. */
    method Splice(i: nat)
      requires i < |timers| && open == {} && stale == {KeyOf(timers[i])}
      requires Inv(anims, timers, {}, stale) && Timed(clock, Now())
      modifies `timers, `stale
      ensures Inv(anims, timers, {}, {}) && Timed(clock, Now()) && stale == {}
      ensures timers == old(timers)[..i] + old(timers)[i+1..]
    {
      ghost var was := Now();
      RemoveKeepsInv(anims, timers, stale, i);
      stale := {};
      timers := timers[..i] + timers[i+1..];
      RemoveTimed(clock, was, Now(), i);
    }
  }

  /** From an empty scheduler through any starts and ticks to rest: what has run is
      exactly what was started, by callers and by callbacks, each as often as it was
      started, and all of it is complete. */
  method Session(clock: nat -> int, es: seq<Event>) returns (s: Scheduler)
    requires ClockPasses(clock) && forall i, j :: 0 <= i <= j ==> clock(i) <= clock(j)
    ensures s.clock == clock && s.Idle() && !s.running && s.timers == []
    ensures forall i :: 0 <= i < |s.anims| ==> Complete(s.anims[i])
    ensures forall x :: Runs(x, s.anims) == Starting(x, StartsOf(es))
    ensures forall k: Key :: ValidKey(s.anims, k) ==> InTime(clock, s.Now(), k)
  {
    s := new Scheduler(clock);
    s.Replay(es);
    s.RunToQuiet();
    forall k: Key | ValidKey(s.anims, k) ensures InTime(clock, s.Now(), k) {
      assert Complete(s.anims[k.0]);
    }
  }

  /** The list after timer i was stepped and `added` was pushed meanwhile. */
  function AfterVisit(timers: seq<Fx>, i: nat, b: bool, added: seq<Fx>): seq<Fx>
    requires i < |timers|
  {
    (if b then timers else timers[..i] + timers[i+1..]) + added
  }

  /** What one round of the tick does. */
  ghost predicate Visited(was: State, now: State, i: nat, b: bool)
    requires i < |was.timers|
  {
    && now.open == {} && now.stale == {} && now.readings > was.readings
    && Stepped(was.anims, now.anims, was.timers[i], b)
    && was.pushes <= now.pushes && now.timers == AfterVisit(was.timers, i, b, now.pushes[|was.pushes|..])
    && (if b then now.anims == was.anims && now.pushes == was.pushes else Potentials(now.anims) < Potentials(was.anims))
    && Accounted(was.anims, now.anims, []) && Keeps(was.starts, now.starts) && Keeps(was.ends, now.ends)
  }

  lemma VisitEnds(was: State, now: State, i: nat, b: bool)
    requires i < |was.timers| && was.open == was.stale == {} && Sound(was) && Advances(was, now, was.timers[i], b)
    requires !Done(was.anims, KeyOf(was.timers[i]))
    ensures i < |now.timers| && now.timers[i] == was.timers[i] && now.open == {}
    ensures now.stale == if b then {} else {KeyOf(was.timers[i])}
    ensures Visited(was, if b then now else now.(timers := now.timers[..i] + now.timers[i+1..], stale := {}), i, b)
  {
    assert KeyOf(was.timers[i]) in Keys(was.timers);
    assert now.timers == was.timers + now.pushes[|was.pushes|..];
    assert was.pushes <= now.pushes;
    if !b {
      assert now.timers[..i] + now.timers[i+1..] == AfterVisit(was.timers, i, b, now.pushes[|was.pushes|..]);
    }
  }

  /** A step changes at most the property it steps, and animations started since. */
  ghost predicate Stepped(was: seq<Running>, now: seq<Running>, fx: Fx, b: bool) {
    ValidKey(was, KeyOf(fx)) && !Done(was, KeyOf(fx)) &&
    if b then now == was else was[fx.anim := Finish(was[fx.anim], fx.prop)] <= now
  }

  /** alive says of each visited timer whether its property is still unfinished. */
  ghost predicate Flagged(anims: seq<Running>, visited: seq<Fx>, alive: seq<bool>) {
    |visited| == |alive| && forall j :: 0 <= j < |visited| ==>
      ValidKey(anims, KeyOf(visited[j])) && (alive[j] <==> !Done(anims, KeyOf(visited[j])))
  }

  /** The tick has visited the timers before i, or removed them, and those behind
      are still as started, or were pushed meanwhile. */
  ghost predicate Progress(first: seq<Running>, started: seq<Fx>, added: seq<Fx>, anims: seq<Running>,
                           timers: seq<Fx>, i: nat, visited: seq<Fx>, alive: seq<bool>)
  {
    && |visited| == |alive| && i <= |timers|
    && visited + timers[i..] == started + added
    && timers[..i] == Kept(visited, alive)
    && Grows(first, anims)
    && Flagged(anims, visited, alive)
  }

  /** A tick changes nothing if it finishes no timer, and otherwise uses up potential. */
  ghost predicate Advanced(first: seq<Running>, started: seq<Fx>, anims: seq<Running>, timers: seq<Fx>, alive: seq<bool>) {
    if AllDone(alive) then anims == first && timers == started else Potentials(anims) < Potentials(first)
  }

  lemma AdvancedStep(first: seq<Running>, started: seq<Fx>, was: seq<Running>, now: seq<Running>,
                     timers: seq<Fx>, added: seq<Fx>, i: nat, alive: seq<bool>, b: bool)
    requires Advanced(first, started, was, timers, alive) && i < |timers|
    requires if b then now == was && added == [] else Potentials(now) < Potentials(was)
    ensures Advanced(first, started, now, AfterVisit(timers, i, b, added), alive + [b])
  {
    AllDoneAppend(alive, b);
  }

  lemma ProgressStep(first: seq<Running>, started: seq<Fx>, n: nat, was: seq<Running>, now: seq<Running>,
                     timers: seq<Fx>, pushes: seq<Fx>, pushes': seq<Fx>, i: nat,
                     visited: seq<Fx>, alive: seq<bool>, b: bool)
    requires n <= |pushes| && pushes <= pushes' && i < |timers|
    requires Progress(first, started, pushes[n..], was, timers, i, visited, alive)
    requires Inv(was, timers, {}, {})
    requires Stepped(was, now, timers[i], b)
    ensures Progress(first, started, pushes'[n..], now, AfterVisit(timers, i, b, pushes'[|pushes|..]),
                     if b then i + 1 else i, visited + [timers[i]], alive + [b])
  {
    KeptStep(visited, alive, timers[i], b);
    SpanStep(visited, timers, i, b, started, n, pushes, pushes');
    FlagsStep(was, now, visited, alive, timers, i, b);
    GrowsStep(first, was, now, timers[i], b);
  }

  lemma SpanStep(visited: seq<Fx>, timers: seq<Fx>, i: nat, b: bool, started: seq<Fx>, n: nat,
                 pushes: seq<Fx>, pushes': seq<Fx>)
    requires i < |timers| && n <= |pushes| && pushes <= pushes'
    requires visited + timers[i..] == started + pushes[n..]
    ensures var timers' := AfterVisit(timers, i, b, pushes'[|pushes|..]);
            var i' := if b then i + 1 else i;
            && i' <= |timers'|
            && (visited + [timers[i]]) + timers'[i'..] == started + pushes'[n..]
            && timers'[..i'] == timers[..i] + if b then [timers[i]] else []
  {
    var added := pushes'[|pushes|..];
    var timers' := AfterVisit(timers, i, b, added);
    var i' := if b then i + 1 else i;
    assert timers[i..] == [timers[i]] + timers[i+1..];
    assert timers'[i'..] == timers[i+1..] + added;
    calc {
      (visited + [timers[i]]) + timers'[i'..];
      (visited + timers[i..]) + added;
      started + (pushes[n..] + added);
      { assert pushes'[n..] == pushes[n..] + added; }
      started + pushes'[n..];
    }
  }

  lemma {:induction false} KeptContains(ts: seq<Fx>, alive: seq<bool>, j: nat)
    requires |ts| == |alive| && j < |ts| && alive[j]
    ensures ts[j] in Kept(ts, alive)
  {
    if j < |ts| - 1 { KeptContains(ts[..|ts|-1], alive[..|ts|-1], j); }
  }

  lemma FlagsStep(was: seq<Running>, now: seq<Running>, visited: seq<Fx>, alive: seq<bool>,
                  timers: seq<Fx>, i: nat, b: bool)
    requires Flagged(was, visited, alive) && i < |timers| && timers[..i] == Kept(visited, alive)
    requires forall a, c :: 0 <= a < c < |timers| ==> KeyOf(timers[a]) != KeyOf(timers[c])
    requires Stepped(was, now, timers[i], b)
    ensures Flagged(now, visited + [timers[i]], alive + [b])
  {
    var k := KeyOf(timers[i]);
    forall j | 0 <= j < |visited|
      ensures ValidKey(now, KeyOf(visited[j])) && (alive[j] <==> !Done(now, KeyOf(visited[j])))
    {
      if alive[j] {
        KeptContains(visited, alive, j);
        var a :| 0 <= a < i && timers[..i][a] == visited[j];
        assert KeyOf(visited[j]) != k;
      }
      StepKeepsOthers(was, now, timers[i], b, KeyOf(visited[j]));
    }
    StepKeepsOthers(was, now, timers[i], b, k);
  }

  lemma StepKeepsOthers(was: seq<Running>, now: seq<Running>, fx: Fx, b: bool, k: Key)
    requires Stepped(was, now, fx, b) && ValidKey(was, k)
    ensures ValidKey(now, k) && (Done(now, k) <==> Done(was, k) || (!b && k == KeyOf(fx)))
  {
    if !b {
      var mid := was[fx.anim := Finish(was[fx.anim], fx.prop)];
      assert now[k.0] == mid[k.0];
    }
  }

  lemma GrowsStep(first: seq<Running>, was: seq<Running>, now: seq<Running>, fx: Fx, b: bool)
    requires Grows(first, was) && Stepped(was, now, fx, b)
    ensures Grows(first, now)
  {
    if !b {
      var mid := was[fx.anim := Finish(was[fx.anim], fx.prop)];
      forall i | 0 <= i < |first|
        ensures now[i].spec == first[i].spec && |now[i].done| == |first[i].done| && first[i].fired <= now[i].fired
        ensures forall p :: 0 <= p < |first[i].done| && first[i].done[p] ==> now[i].done[p]
      {
        assert now[i] == mid[i];
      }
    }
  }

  lemma DueStep(first: seq<Running>, was: seq<Running>, started: seq<Fx>, added: seq<Fx>,
                timers: seq<Fx>, i: nat, visited: seq<Fx>, alive: seq<bool>, b: bool, t0: int, t: int)
    requires Progress(first, started, added, was, timers, i, visited, alive) && i < |timers|
    requires DueFinished(first, started, t0, alive)
    requires t0 <= t && (b <==> !Due(was, timers[i], t))
    ensures DueFinished(first, started, t0, alive + [b])
  {
    if |alive| < |started| {
      assert (visited + timers[i..])[|alive|] == timers[i];
      assert started[|alive|] == timers[i];
    }
  }

  /** The duration of fx is over at time t. */
  ghost predicate Due(anims: seq<Running>, fx: Fx, t: int)
  {
    fx.anim < |anims| && t >= anims[fx.anim].spec.duration + fx.startTime
  }

  /** Of the timers seen so far, those due at time t reported themselves finished. */
  ghost predicate DueFinished(anims: seq<Running>, timers: seq<Fx>, t: int, alive: seq<bool>) {
    forall j :: 0 <= j < |alive| && j < |timers| && Due(anims, timers[j], t) ==> !alive[j]
  }

  /** Later states keep every animation, its finished properties and its calls. */
  ghost predicate Grows(was: seq<Running>, now: seq<Running>) {
    |was| <= |now| && forall i :: 0 <= i < |was| ==>
      && now[i].spec == was[i].spec && |now[i].done| == |was[i].done| && was[i].fired <= now[i].fired
      && forall p :: 0 <= p < |was[i].done| && was[i].done[p] ==> now[i].done[p]
  }
}
