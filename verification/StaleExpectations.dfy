/** StaleExpectations: expectations that outlive their attachment, when that happens, and what it costs. */
module StaleExpectations {
  import opened SharingTuple
  import opened SharingModel
  import opened SharingUniqueness

  /******* What a stale expectation costs *******/

  /** An expectation of `t` is pending, the cache has dropped every attachment of `t`, and the running call, if any,
      has not found, made or deleted one. */
  ghost predicate Stuck(w: World, t: Spec) {
    KeyOf(t) in w.pending && AllGone(w, t) && Away(w, t)
  }

  ghost predicate Away(w: World, t: Spec) {
    w.view.Idle? || w.view.Absent? || w.view.t != t
  }

  /** `w'` has no attachment of `t` that `w` did not have. */
  ghost predicate NothingNewFor(w: World, w': World, t: Spec) {
    |w.s3pas| <= |w'.s3pas| && forall n | |w.s3pas| <= n < |w'.s3pas| :: w'.s3pas[n].spec != t
  }

  lemma StuckStep(w: World, s: Step, t: Spec, tuples: set<Spec>)
    requires Enabled(w, s) && Tracked(w) && Stuck(w, t)
    requires KeysDistinct(tuples) && t in tuples && w.used <= tuples
    ensures Stuck(Apply(w, s), t) && NothingNewFor(w, Apply(w, s), t)
  {
    if s.List? { assert forall n | 0 <= n < |w.s3pas| :: !VisibleFor(w, t, n); }
  }

  lemma StillNothingNew(w0: World, w: World, s: Step, t: Spec)
    requires Enabled(w, s) && NothingNewFor(w0, w, t) && NothingNewFor(w, Apply(w, s), t)
    ensures NothingNewFor(w0, Apply(w, s), t)
  {
    SpecsStay(w, s);
  }

  lemma SpecsStay(w: World, s: Step)
    requires Enabled(w, s)
    ensures |w.s3pas| <= |Apply(w, s).s3pas|
    ensures forall n | 0 <= n < |w.s3pas| :: Apply(w, s).s3pas[n].spec == w.s3pas[n].spec
  {}

  lemma StuckIsDead(w: World, t: Spec)
    requires Tracked(w) && Stuck(w, t)
    ensures NoneLive(w, t)
  {}

  lemma StuckInRun(hist: seq<World>, steps: seq<Step>, w0: World, j: nat, t: Spec, tuples: set<Spec>)
    requires IsRun(hist, steps) && j < |steps| && Stuck(hist[j], t) && NothingNewFor(w0, hist[j], t)
    requires KeysDistinct(tuples) && t in tuples && hist[j].used <= tuples
    ensures Stuck(hist[j + 1], t) && NothingNewFor(w0, hist[j + 1], t)
  {
    TrackedWithin(hist, steps, j, tuples);
    assert IsStep(hist[j], steps[j], hist[j + 1]);
    StuckStep(hist[j], steps[j], t, tuples);
    StillNothingNew(w0, hist[j], steps[j], t);
  }

  lemma {:induction false} StaysStuck(hist: seq<World>, steps: seq<Step>, i: nat, j: nat, t: Spec, tuples: set<Spec>)
    requires IsRun(hist, steps) && i <= j <= |steps| && Stuck(hist[i], t)
    requires KeysDistinct(tuples) && t in tuples && hist[j].used <= tuples
    ensures Stuck(hist[j], t) && NothingNewFor(hist[i], hist[j], t)
  {
    if i < j {
      var k := j - 1;
      UsedStays(hist, steps, k, k + 1);
      StaysStuck(hist, steps, i, k, t, tuples);
      StuckInRun(hist, steps, hist[i], k, t, tuples);
    }
  }

  /** A stale expectation is for ever: nothing of the tuple lives, and nothing is ever created for it again. */
  lemma StaleExpectationIsForEver(hist: seq<World>, steps: seq<Step>, i: nat, j: nat, t: Spec)
    requires IsRun(hist, steps) && i <= j <= |steps| && KeysDistinct(hist[j].used + {t}) && Stuck(hist[i], t)
    ensures Stuck(hist[j], t) && NoneLive(hist[j], t) && NothingNewFor(hist[i], hist[j], t)
  {
    StaysStuck(hist, steps, i, j, t, hist[j].used + {t});
    TrackedWithin(hist, steps, j, hist[j].used + {t});
    StuckIsDead(hist[j], t);
  }

  /******* When it happens *******/

  /** An attachment of `t` is expected, or just made and about to be. */
  ghost predicate Owed(w: World, t: Spec) {
    KeyOf(t) in w.pending || w.view == Made(t)
  }

  /** It is owed although nothing of `t` lives, and the running call has not just deleted it. */
  ghost predicate Broken(w: World, t: Spec) {
    Owed(w, t) && NoneLive(w, t) && w.view != Deleted(t)
  }

  /** `n` is of `t`, and the cache has dropped every other attachment of `t`. */
  ghost predicate OthersGone(w: World, t: Spec, n: nat) {
    && n < |w.s3pas| && w.s3pas[n].spec == t
    && forall n' | 0 <= n' < |w.s3pas| && w.s3pas[n'].spec == t && n' != n :: w.s3pas[n'].cached.Gone?
  }

  ghost predicate BreaksPromiseOf(w: World, s: Step, t: Spec) {
    BreaksPromise(w, s) && w.s3pas[s.n].spec == t
  }

  /** The cleaner broke the promise of `t` at step `i`, and no call cleared the expectation before state `j`. */
  ghost predicate BrokenBy(hist: seq<World>, steps: seq<Step>, i: nat, j: nat, t: Spec) {
    && i < j <= |steps| && j < |hist|
    && BreaksPromiseOf(hist[i], steps[i], t)
    && forall k | i < k < j :: steps[k] != Clear(t)
  }

  /** The cache has dropped the attachment that `s` deleted. */
  ghost predicate Dropped(w: World, s: Step) {
    s.Delete? && s.n < |w.s3pas| && w.s3pas[s.n].cached.Gone?
  }

  lemma BreakBreaks(w: World, s: Step, t: Spec)
    requires Enabled(w, s) && Tracked(w) && BreaksPromiseOf(w, s, t)
    ensures Broken(Apply(w, s), t) && OthersGone(Apply(w, s), t, s.n)
  {
    NoneLeftAfterDelete(w, s);
  }

  /** What is owed stays so until it is cleared. */
  lemma StaysOwed(w: World, s: Step, t: Spec, tuples: set<Spec>)
    requires Enabled(w, s) && Tracked(w) && KeysDistinct(tuples) && t in tuples && w.used <= tuples
    requires Owed(w, t) && s != Clear(t)
    ensures Owed(Apply(w, s), t) && !(s.Create? && s.t == t)
  {}

  lemma StaysDead(w: World, s: Step, t: Spec, n: nat)
    requires Enabled(w, s) && NoneLive(w, t) && OthersGone(w, t, n) && !(s.Create? && s.t == t)
    ensures NoneLive(Apply(w, s), t) && OthersGone(Apply(w, s), t, n)
    ensures w.view != Deleted(t) ==> Apply(w, s).view != Deleted(t)
  {}

  lemma StaysBroken(w: World, s: Step, t: Spec, n: nat, tuples: set<Spec>)
    requires Enabled(w, s) && Tracked(w) && KeysDistinct(tuples) && t in tuples && w.used <= tuples
    requires Broken(w, t) && OthersGone(w, t, n) && s != Clear(t)
    ensures Broken(Apply(w, s), t) && OthersGone(Apply(w, s), t, n)
  {
    StaysOwed(w, s, t, tuples);
    StaysDead(w, s, t, n);
  }

  lemma ClearEnds(w: World, t: Spec)
    requires Enabled(w, Clear(t))
    ensures !Owed(Apply(w, Clear(t)), t)
  {}

  /** Only a new attachment is owed anew. */
  lemma OwedAnew(w: World, s: Step, t: Spec, tuples: set<Spec>)
    requires Enabled(w, s) && Tracked(w) && KeysDistinct(tuples) && t in tuples && w.used <= tuples
    requires !Owed(w, t) && Owed(Apply(w, s), t)
    ensures s.Create? && LiveFor(Apply(w, s), t)
  {
    assert s.Create? ==> IsLiveFor(Apply(w, s), s.t, |w.s3pas|);
  }

  lemma OnlyADeleteKills(w: World, s: Step, t: Spec)
    requires Enabled(w, s) && !NoneLive(w, t) && NoneLive(Apply(w, s), t)
    ensures s.Delete? && w.s3pas[s.n].spec == t
  {
    var n :| 0 <= n < |w.s3pas| && w.s3pas[n].spec == t && w.s3pas[n].live;
    assert n < |Apply(w, s).s3pas| && Apply(w, s).s3pas[n].spec == t;
  }

  /** A call that has deleted the attachment of `t` clears the expectation before it goes on. */
  lemma DeletedUntilCleared(w: World, s: Step, t: Spec)
    requires Enabled(w, s) && w.view == Deleted(t) && Owed(Apply(w, s), t)
    ensures Apply(w, s).view == Deleted(t)
  {}

  /** Nothing but such a delete breaks a promise. */
  lemma OnlyABreakBreaks(w: World, s: Step, t: Spec, tuples: set<Spec>)
    requires Enabled(w, s) && Tracked(w) && KeysDistinct(tuples) && t in tuples && w.used <= tuples
    requires !Broken(w, t) && Broken(Apply(w, s), t)
    ensures BreaksPromiseOf(w, s, t)
  {
    if w.view == Deleted(t) {
      DeletedUntilCleared(w, s, t);
    } else if !Owed(w, t) {
      OwedAnew(w, s, t, tuples);
    } else {
      OnlyADeleteKills(w, s, t);
    }
  }

  lemma BreaksInRun(hist: seq<World>, steps: seq<Step>, i: nat, t: Spec, tuples: set<Spec>)
    requires IsRun(hist, steps) && i < |steps| && BreaksPromiseOf(hist[i], steps[i], t)
    requires KeysDistinct(tuples) && hist[i].used <= tuples
    ensures Broken(hist[i + 1], t) && OthersGone(hist[i + 1], t, steps[i].n)
  {
    TrackedWithin(hist, steps, i, tuples);
    assert IsStep(hist[i], steps[i], hist[i + 1]);
    BreakBreaks(hist[i], steps[i], t);
  }

  lemma StaysBrokenInRun(hist: seq<World>, steps: seq<Step>, j: nat, t: Spec, n: nat, tuples: set<Spec>)
    requires IsRun(hist, steps) && j < |steps| && steps[j] != Clear(t)
    requires Broken(hist[j], t) && OthersGone(hist[j], t, n)
    requires KeysDistinct(tuples) && t in tuples && hist[j].used <= tuples
    ensures Broken(hist[j + 1], t) && OthersGone(hist[j + 1], t, n)
  {
    TrackedWithin(hist, steps, j, tuples);
    assert IsStep(hist[j], steps[j], hist[j + 1]);
    StaysBroken(hist[j], steps[j], t, n, tuples);
  }

  lemma {:induction false} BrokenSince(hist: seq<World>, steps: seq<Step>, i: nat, j: nat, t: Spec, tuples: set<Spec>)
    requires IsRun(hist, steps) && BrokenBy(hist, steps, i, j, t)
    requires KeysDistinct(tuples) && t in tuples && hist[j].used <= tuples
    ensures Broken(hist[j], t) && OthersGone(hist[j], t, steps[i].n)
  {
    var k := j - 1;
    UsedStays(hist, steps, k, k + 1);
    if i == k {
      BreaksInRun(hist, steps, i, t, tuples);
    } else {
      assert steps[k] != Clear(t);
      BrokenSince(hist, steps, i, k, t, tuples);
      StaysBrokenInRun(hist, steps, k, t, steps[i].n, tuples);
    }
  }

  lemma BrokenIsNotCleared(hist: seq<World>, steps: seq<Step>, j: nat, t: Spec)
    requires IsRun(hist, steps) && j < |steps| && Broken(hist[j + 1], t)
    ensures steps[j] != Clear(t)
  {
    assert IsStep(hist[j], steps[j], hist[j + 1]);
    if steps[j] == Clear(t) { ClearEnds(hist[j], t); }
  }

  lemma BrokenByAsWell(hist: seq<World>, steps: seq<Step>, i: nat, j: nat, t: Spec)
    requires BrokenBy(hist, steps, i, j, t) && j < |steps| && j + 1 < |hist| && steps[j] != Clear(t)
    ensures BrokenBy(hist, steps, i, j + 1, t)
  {}

  lemma BrokenAnew(hist: seq<World>, steps: seq<Step>, j: nat, t: Spec, tuples: set<Spec>)
    requires IsRun(hist, steps) && j < |steps| && !Broken(hist[j], t) && Broken(hist[j + 1], t)
    requires KeysDistinct(tuples) && t in tuples && hist[j].used <= tuples
    ensures BreaksPromiseOf(hist[j], steps[j], t)
  {
    TrackedWithin(hist, steps, j, tuples);
    assert IsStep(hist[j], steps[j], hist[j + 1]);
    OnlyABreakBreaks(hist[j], steps[j], t, tuples);
  }

  /** The delete that broke it. */
  lemma {:induction false} BrokenBySome(hist: seq<World>, steps: seq<Step>, j: nat, t: Spec, tuples: set<Spec>)
    returns (i: nat)
    requires IsRun(hist, steps) && j <= |steps| && Broken(hist[j], t)
    requires KeysDistinct(tuples) && t in tuples && hist[j].used <= tuples
    ensures BrokenBy(hist, steps, i, j, t)
  {
    var k := j - 1;
    UsedStays(hist, steps, k, k + 1);
    if Broken(hist[k], t) {
      i := BrokenBySome(hist, steps, k, t, tuples);
      BrokenIsNotCleared(hist, steps, k, t);
      BrokenByAsWell(hist, steps, i, k, t);
    } else {
      BrokenAnew(hist, steps, k, t, tuples);
      i := k;
    }
  }

  /** With distinct keys: something of `t` is owed and nothing of it lives, if and only if the cleaner has deleted an
      attachment of `t` that was expected or just made, and no call has cleared the expectation since. */
  lemma BrokenExactlyUntilCleared(hist: seq<World>, steps: seq<Step>, j: nat, t: Spec)
    requires IsRun(hist, steps) && j <= |steps| && KeysDistinct(hist[j].used + {t})
    ensures Broken(hist[j], t) <==> exists i: nat :: BrokenBy(hist, steps, i, j, t)
  {
    var tuples := hist[j].used + {t};
    if Broken(hist[j], t) { var i := BrokenBySome(hist, steps, j, t, tuples); }
    if i: nat :| BrokenBy(hist, steps, i, j, t) { BrokenSince(hist, steps, i, j, t, tuples); }
  }

  lemma StuckIsBroken(hist: seq<World>, steps: seq<Step>, j: nat, t: Spec, tuples: set<Spec>)
    requires IsRun(hist, steps) && j <= |steps| && KeysDistinct(tuples) && hist[j].used <= tuples && Away(hist[j], t)
    ensures Stuck(hist[j], t) <==> Broken(hist[j], t) && AllGone(hist[j], t)
  {
    TrackedWithin(hist, steps, j, tuples);
  }

  /** The last to go is the one that the cleaner has deleted. */
  lemma AllGoneOnceDropped(hist: seq<World>, steps: seq<Step>, i: nat, j: nat, t: Spec, tuples: set<Spec>)
    requires IsRun(hist, steps) && BrokenBy(hist, steps, i, j, t)
    requires KeysDistinct(tuples) && t in tuples && hist[j].used <= tuples
    ensures Broken(hist[j], t) && (AllGone(hist[j], t) <==> Dropped(hist[j], steps[i]))
  {
    BrokenSince(hist, steps, i, j, t, tuples);
  }

  /** With distinct keys, whenever no call is at `t`: its creation is blocked for ever, if and only if the cleaner has
      deleted an attachment of it that was expected or just made, the cache has dropped that one, and no call has
      cleared the expectation since. */
  lemma StuckExactlyWhenDroppedUncleared(hist: seq<World>, steps: seq<Step>, j: nat, t: Spec)
    requires IsRun(hist, steps) && j <= |steps| && KeysDistinct(hist[j].used + {t}) && Away(hist[j], t)
    ensures Stuck(hist[j], t) <==>
      exists i: nat :: BrokenBy(hist, steps, i, j, t) && Dropped(hist[j], steps[i])
  {
    var tuples := hist[j].used + {t};
    StuckIsBroken(hist, steps, j, t, tuples);
    if Stuck(hist[j], t) {
      var i := BrokenBySome(hist, steps, j, t, tuples);
      AllGoneOnceDropped(hist, steps, i, j, t, tuples);
    }
    if i: nat :| BrokenBy(hist, steps, i, j, t) && Dropped(hist[j], steps[i]) {
      AllGoneOnceDropped(hist, steps, i, j, t, tuples);
    }
  }
}
