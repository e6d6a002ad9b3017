/** SharingUniqueness: at most one attachment per sharing tuple, and what pending expectations promise. */
module SharingUniqueness {
  import opened SharingTuple
  import opened SharingModel

  /** No two tuples share an expectation key. */
  ghost predicate KeysDistinct(tuples: set<Spec>) {
    forall s, t | s in tuples && t in tuples && KeyOf(s) == KeyOf(t) :: s == t
  }

  ghost predicate UniqueLive(w: World) {
    forall n, n' | 0 <= n < n' < |w.s3pas| && w.s3pas[n].spec == w.s3pas[n'].spec ::
      !(w.s3pas[n].live && w.s3pas[n'].live)
  }

  /******* The inductive invariant *******/

  ghost predicate AllGone(w: World, t: Spec) {
    forall n | 0 <= n < |w.s3pas| && w.s3pas[n].spec == t :: w.s3pas[n].cached.Gone?
  }

  ghost predicate NoneUnseen(w: World, t: Spec) {
    forall n | 0 <= n < |w.s3pas| && w.s3pas[n].spec == t :: !w.s3pas[n].cached.Unseen?
  }

  ghost predicate IsLiveFor(w: World, t: Spec, n: nat) {
    n < |w.s3pas| && w.s3pas[n].spec == t && w.s3pas[n].live
  }

  ghost predicate LiveFor(w: World, t: Spec) {
    exists n :: IsLiveFor(w, t, n)
  }

  ghost predicate NoneLive(w: World, t: Spec) {
    forall n | 0 <= n < |w.s3pas| && w.s3pas[n].spec == t :: !w.s3pas[n].live
  }

  ghost predicate ViewTrue(w: World) {
    match w.view
    case Idle => true
    case Absent(t) => t in w.used && (KeyOf(t) in w.pending || AllGone(w, t))
    case Present(t) => t in w.used && NoneUnseen(w, t)
    case Deleted(t) => t in w.used && NoneUnseen(w, t) && NoneLive(w, t)
    case Made(t) => t in w.used
    case Duplicated(_) => false
  }

  ghost predicate Tracked(w: World) {
    && (forall n | 0 <= n < |w.s3pas| ::
          && w.s3pas[n].spec in w.used
          && (w.s3pas[n].live ==> !w.s3pas[n].cached.Gone?)
          && (w.s3pas[n].cached.Unseen? ==> KeyOf(w.s3pas[n].spec) in w.pending || w.view == Made(w.s3pas[n].spec)))
    && (forall n, n' | 0 <= n < n' < |w.s3pas| && w.s3pas[n].spec == w.s3pas[n'].spec ::
          w.s3pas[n].cached.Gone? || w.s3pas[n'].cached.Gone?)
    && ViewTrue(w)
  }

  lemma UsedGrows(w: World, s: Step)
    requires Enabled(w, s)
    ensures w.used <= Apply(w, s).used
  {}

  lemma TrackedCache(w: World, s: Step)
    requires Enabled(w, s) && Tracked(w) && (s.Show? || s.Forget?)
    ensures Tracked(Apply(w, s))
  {}

  lemma NothingListed(w: World, t: Spec)
    requires Tracked(w) && !w.view.Made? && forall n | 0 <= n < |w.s3pas| :: !VisibleFor(w, t, n)
    ensures KeyOf(t) in w.pending || AllGone(w, t)
  {
    forall n | 0 <= n < |w.s3pas| && w.s3pas[n].spec == t
      ensures w.s3pas[n].cached.Gone? || KeyOf(t) in w.pending
    {
      assert !VisibleFor(w, t, n);
    }
  }

  /** A listed attachment is the only one of its tuple that the cache has not dropped. */
  lemma OneListed(w: World, t: Spec, n: nat)
    requires Tracked(w) && VisibleFor(w, t, n)
    ensures NoneUnseen(w, t)
    ensures forall n' | 0 <= n' < |w.s3pas| && n' != n :: !VisibleFor(w, t, n')
  {
    forall n' | 0 <= n' < |w.s3pas| && n' != n && w.s3pas[n'].spec == t ensures w.s3pas[n'].cached.Gone? {
      if n < n' { assert w.s3pas[n].spec == w.s3pas[n'].spec; } else { assert w.s3pas[n'].spec == w.s3pas[n].spec; }
    }
  }

  lemma ListedView(w: World, t: Spec)
    requires Tracked(w) && !w.view.Made?
    ensures match ViewAfterList(w, t)
      case Absent(_) => KeyOf(t) in w.pending || AllGone(w, t)
      case Present(_) => NoneUnseen(w, t)
      case _ => false
  {
    if n :| 0 <= n < |w.s3pas| && VisibleFor(w, t, n) {
      OneListed(w, t, n);
      assert ViewAfterList(w, t) == Present(t);
    } else {
      NothingListed(w, t);
      assert ViewAfterList(w, t) == Absent(t);
    }
  }

  lemma TrackedList(w: World, s: Step)
    requires Enabled(w, s) && Tracked(w) && s.List?
    ensures Tracked(Apply(w, s))
  {
    ListedView(w, s.t);
  }

  lemma TrackedCreate(w: World, s: Step)
    requires Enabled(w, s) && Tracked(w) && s.Create?
    ensures Tracked(Apply(w, s))
  {}

  lemma TrackedExpectation(w: World, s: Step)
    requires Enabled(w, s) && Tracked(w) && KeysDistinct(w.used) && (s.SetPending? || s.Clear?)
    ensures Tracked(Apply(w, s))
  {}

  /** Two worlds that differ in the contents of attachments and in the Pods at most. */
  ghost predicate SameLooks(w: World, w': World) {
    && w'.view == w.view && w'.used == w.used && w'.pending == w.pending && |w'.s3pas| == |w.s3pas|
    && (forall n | 0 <= n < |w.s3pas| ::
          && w'.s3pas[n].spec == w.s3pas[n].spec && w'.s3pas[n].live == w.s3pas[n].live
          && w'.s3pas[n].cached == w.s3pas[n].cached)
  }

  lemma UpdateLooksTheSame(w: World, s: Step)
    requires Enabled(w, s) && s.Update?
    ensures SameLooks(w, Apply(w, s))
  {}

  lemma TrackedUpdate(w: World, s: Step)
    requires Enabled(w, s) && Tracked(w) && s.Update?
    ensures Tracked(Apply(w, s))
  {
    UpdateLooksTheSame(w, s);
    SameLooksTracked(w, Apply(w, s));
  }

  lemma SameLooksTracked(w: World, w': World)
    requires Tracked(w) && SameLooks(w, w')
    ensures Tracked(w')
  {}

  lemma TrackedDelete(w: World, s: Step)
    requires Enabled(w, s) && Tracked(w) && s.Delete?
    ensures Tracked(Apply(w, s))
  {
    NoneLeftAfterDelete(w, s);
  }

  lemma TrackedStep(w: World, s: Step)
    requires Enabled(w, s) && Tracked(w) && KeysDistinct(Apply(w, s).used)
    ensures Tracked(Apply(w, s))
  {
    UsedGrows(w, s);
    match s {
      case Show(_, _) => TrackedCache(w, s);
      case Forget(_) => TrackedCache(w, s);
      case List(_) => TrackedList(w, s);
      case Create(_, _, _) => TrackedCreate(w, s);
      case SetPending(_) => TrackedExpectation(w, s);
      case Clear(_) => TrackedExpectation(w, s);
      case Update(_, _, _) => TrackedUpdate(w, s);
      case Delete(_, _, _) => TrackedDelete(w, s);
      case _ =>
    }
  }

  lemma UsedNext(w: World, s: Step, w': World)
    requires IsStep(w, s, w')
    ensures w.used <= w'.used
  {
    UsedGrows(w, s);
  }

  lemma TrackedNext(w: World, s: Step, w': World, tuples: set<Spec>)
    requires IsStep(w, s, w') && Tracked(w) && KeysDistinct(tuples) && w'.used <= tuples
    ensures Tracked(w')
  {
    TrackedStep(w, s);
  }

  lemma {:induction false} TrackedWithin(hist: seq<World>, steps: seq<Step>, i: nat, tuples: set<Spec>)
    requires IsRun(hist, steps) && i <= |steps| && KeysDistinct(tuples) && hist[i].used <= tuples
    ensures Tracked(hist[i])
  {
    if i > 0 {
      assert IsStep(hist[i - 1], steps[i - 1], hist[i - 1 + 1]);
      UsedNext(hist[i - 1], steps[i - 1], hist[i]);
      TrackedWithin(hist, steps, i - 1, tuples);
      TrackedNext(hist[i - 1], steps[i - 1], hist[i], tuples);
    }
  }

  lemma RunIsTracked(hist: seq<World>, steps: seq<Step>, i: nat)
    requires IsRun(hist, steps) && i <= |steps| && KeysDistinct(hist[i].used)
    ensures Tracked(hist[i])
  {
    TrackedWithin(hist, steps, i, hist[i].used);
  }

  /** Every live attachment is pending or visible in the cache, and no tuple has two of them. */
  lemma AtMostOneLivePerTuple(hist: seq<World>, steps: seq<Step>, i: nat)
    requires IsRun(hist, steps) && i <= |steps| && KeysDistinct(hist[i].used)
    ensures UniqueLive(hist[i])
    ensures forall n | 0 <= n < |hist[i].s3pas| && hist[i].s3pas[n].live ::
      hist[i].s3pas[n].cached.Visible? || KeyOf(hist[i].s3pas[n].spec) in hist[i].pending
      || hist[i].view == Made(hist[i].s3pas[n].spec)
    ensures !hist[i].view.Duplicated?
  {
    RunIsTracked(hist, steps, i);
  }

  /******* When expectations come true *******/

  /** `t` is what the key stands for: its attachment lives, or is being deleted by the running call. */
  ghost predicate Promise(w: World, key: string, t: Spec) {
    t in w.used && KeyOf(t) == key && (LiveFor(w, t) || w.view == Deleted(t))
  }

  ghost predicate Promised(w: World) {
    && (forall key | key in w.pending :: exists t :: Promise(w, key, t))
    && (w.view.Made? ==> LiveFor(w, w.view.t))
  }

  /** The cleaner deletes an attachment that is expected, or is about to be. */
  predicate BreaksPromise(w: World, s: Step) {
    s.Delete? && s.reason.AllCleaned? && s.n < |w.s3pas|
    && (KeyOf(w.s3pas[s.n].spec) in w.pending || w.view == Made(w.s3pas[s.n].spec))
  }

  ghost predicate KeepsPromises(hist: seq<World>, steps: seq<Step>) {
    |hist| == |steps| + 1 && forall i {:trigger steps[i]} | 0 <= i < |steps| :: !BreaksPromise(hist[i], steps[i])
  }

  ghost predicate AlwaysPromised(hist: seq<World>) {
    forall i | 0 <= i < |hist| :: Promised(hist[i])
  }

  lemma LiveForKept(w: World, s: Step, t: Spec)
    requires Enabled(w, s) && LiveFor(w, t) && !(s.Delete? && w.s3pas[s.n].spec == t)
    ensures LiveFor(Apply(w, s), t)
  {
    var n :| IsLiveFor(w, t, n);
    assert IsLiveFor(Apply(w, s), t, n);
  }

  lemma PromiseKept(w: World, s: Step, key: string, t: Spec)
    requires Enabled(w, s) && Tracked(w) && !BreaksPromise(w, s) && Promise(w, key, t) && key in w.pending
    requires key in Apply(w, s).pending
    ensures Promise(Apply(w, s), key, t)
  {
    if LiveFor(w, t) && !(s.Delete? && w.s3pas[s.n].spec == t) { LiveForKept(w, s, t); }
  }

  /** A new expectation is for the attachment that was just made. */
  lemma PromiseMade(w: World, s: Step, key: string)
    requires Enabled(w, s) && Tracked(w) && Promised(w) && key in Apply(w, s).pending && key !in w.pending
    ensures s.SetPending? && Promise(Apply(w, s), key, s.t)
  {
    LiveForKept(w, s, s.t);
  }

  lemma PromisedStep(w: World, s: Step)
    requires Enabled(w, s) && Tracked(w) && !BreaksPromise(w, s) && Promised(w)
    ensures Promised(Apply(w, s))
  {
    var w' := Apply(w, s);
    forall key | key in w'.pending ensures exists t :: Promise(w', key, t) {
      if key in w.pending {
        var t :| Promise(w, key, t);
        PromiseKept(w, s, key, t);
      } else {
        PromiseMade(w, s, key);
      }
    }
    if s.Create? {
      assert IsLiveFor(w', s.t, |w.s3pas|);
    } else if w'.view.Made? {
      LiveForKept(w, s, w.view.t);
    }
  }

  /** The deleted attachment was the only live one of its tuple. */
  lemma NoneLeftAfterDelete(w: World, s: Step)
    requires Enabled(w, s) && Tracked(w) && s.Delete?
    ensures NoneLive(Apply(w, s), w.s3pas[s.n].spec)
  {
    var t := w.s3pas[s.n].spec;
    forall n | 0 <= n < |w.s3pas| && w.s3pas[n].spec == t && n != s.n ensures !w.s3pas[n].live {
      var lo, hi := if n < s.n then n else s.n, if n < s.n then s.n else n;
      assert w.s3pas[lo].spec == w.s3pas[hi].spec;
    }
  }

  lemma BrokenStep(w: World, s: Step)
    requires Enabled(w, s) && Tracked(w) && KeysDistinct(w.used) && BreaksPromise(w, s)
    ensures !Promised(Apply(w, s))
  {
    var t, w' := w.s3pas[s.n].spec, Apply(w, s);
    NoneLeftAfterDelete(w, s);
    assert w.view != Deleted(t);
    assert forall t' | Promise(w', KeyOf(t), t') :: t' == t;
  }

  lemma PromisedNext(w: World, s: Step, w': World)
    requires IsStep(w, s, w') && Tracked(w) && !BreaksPromise(w, s) && Promised(w)
    ensures Promised(w')
  {
    PromisedStep(w, s);
  }

  lemma {:induction false} PromisedWithin(hist: seq<World>, steps: seq<Step>, i: nat, tuples: set<Spec>)
    requires IsRun(hist, steps) && i <= |steps| && KeepsPromises(hist, steps)
    requires KeysDistinct(tuples) && hist[i].used <= tuples
    ensures Promised(hist[i])
  {
    if i > 0 {
      assert IsStep(hist[i - 1], steps[i - 1], hist[i - 1 + 1]);
      UsedNext(hist[i - 1], steps[i - 1], hist[i]);
      PromisedWithin(hist, steps, i - 1, tuples);
      TrackedWithin(hist, steps, i - 1, tuples);
      PromisedNext(hist[i - 1], steps[i - 1], hist[i]);
    }
  }

  lemma RunIsPromised(hist: seq<World>, steps: seq<Step>, i: nat)
    requires IsRun(hist, steps) && i <= |steps| && KeepsPromises(hist, steps) && KeysDistinct(hist[i].used)
    ensures Promised(hist[i])
  {
    PromisedWithin(hist, steps, i, hist[i].used);
  }

  lemma {:induction false} UsedStays(hist: seq<World>, steps: seq<Step>, i: nat, j: nat)
    requires IsRun(hist, steps) && i <= j <= |steps|
    ensures hist[i].used <= hist[j].used
  {
    if i < j {
      UsedStays(hist, steps, i, j - 1);
      assert IsStep(hist[j - 1], steps[j - 1], hist[j - 1 + 1]);
      UsedNext(hist[j - 1], steps[j - 1], hist[j]);
    }
  }

  /** Expectations stand for live attachments all along a run, if and only if the cleaner never deletes an attachment
      that is expected or about to be. */
  lemma PromisedExactlyUnlessCleanerBreaks(hist: seq<World>, steps: seq<Step>)
    requires IsRun(hist, steps) && KeysDistinct(hist[|steps|].used)
    ensures AlwaysPromised(hist) <==> KeepsPromises(hist, steps)
  {
    forall i | 0 <= i <= |steps| ensures hist[i].used <= hist[|steps|].used { UsedStays(hist, steps, i, |steps|); }
    if KeepsPromises(hist, steps) {
      forall i | 0 <= i < |hist| ensures Promised(hist[i]) { RunIsPromised(hist, steps, i); }
    }
    if i :| 0 <= i < |steps| && BreaksPromise(hist[i], steps[i]) {
      RunIsTracked(hist, steps, i);
      assert IsStep(hist[i], steps[i], hist[i + 1]);
      BrokenStep(hist[i], steps[i]);
    }
  }

  /** In such runs, between calls, a pending key belongs to a live attachment. */
  lemma NoStaleExpectation(hist: seq<World>, steps: seq<Step>, i: nat, t: Spec)
    requires IsRun(hist, steps) && i <= |steps| && KeepsPromises(hist, steps) && KeysDistinct(hist[i].used)
    requires t in hist[i].used && KeyOf(t) in hist[i].pending && !hist[i].view.Deleted?
    ensures LiveFor(hist[i], t)
  {
    RunIsPromised(hist, steps, i);
    var s :| Promise(hist[i], KeyOf(t), s);
  }

  ghost predicate ReconcilerOnly(steps: seq<Step>) {
    forall i | 0 <= i < |steps| :: !IsCleaner(steps[i])
  }

  /** Runs without the cleaner are such runs. */
  lemma ReconcilerOnlyKeepsPromises(hist: seq<World>, steps: seq<Step>)
    requires IsRun(hist, steps) && ReconcilerOnly(steps)
    ensures KeepsPromises(hist, steps)
  {
    forall i | 0 <= i < |steps| ensures !BreaksPromise(hist[i], steps[i]) { assert !IsCleaner(steps[i]); }
  }
}
