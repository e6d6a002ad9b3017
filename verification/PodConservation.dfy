/** PodConservation: no live Mountpoint Pod is forgotten, exactly as long as no call drops one because a cache that has
    not shown it yet answered NotFound. */
module PodConservation {
  import opened Strings
  import opened SharingTuple
  import opened SharingModel
  import opened SharingInvariants
  import opened NeedsUnmount

  /** Mountpoint Pod `m` is listed or annotated, or the running call holds it, or its compensating delete failed. */
  ghost predicate Accounted(w: World, m: nat) {
    m < |w.pods| && w.pods[m].live ==>
      w.pods[m].needsUnmount || Listed(w, m) || w.held == Some(m) || m in w.leaked
  }

  ghost predicate Conserved(w: World) {
    forall m | 0 <= m < |w.pods| :: Accounted(w, m)
  }

  ghost predicate AlwaysConserved(hist: seq<World>) {
    forall i | 0 <= i < |hist| :: Conserved(hist[i])
  }

  /** The step takes the entry of Mountpoint Pod `m` out of its attachment. */
  ghost predicate Drops(w: World, s: Step, m: nat)
    requires Enabled(w, s)
  {
    match s
    case Update(n, k, DropEmpty(m')) => m == m'
    case Update(n, k, Clean(drop)) => m in w.s3pas[n].versions[k] && Without(w.s3pas[n].versions[k][m], drop) == []
    case Delete(n, k, AllCleaned(_)) => m in w.s3pas[n].versions[k]
    case _ => false
  }

  /** The step drops a Mountpoint Pod that lives and is not annotated: the Get before it did not find the Pod. */
  ghost predicate DropsLivePod(w: World, s: Step)
    requires Enabled(w, s)
  {
    exists m | 0 <= m < |w.pods| :: w.pods[m].live && !w.pods[m].needsUnmount && Drops(w, s, m)
  }

  ghost predicate KeepsLivePods(hist: seq<World>, steps: seq<Step>) {
    && IsRun(hist, steps)
    && forall i {:trigger steps[i]} | 0 <= i < |steps| ::
         IsStep(hist[i], steps[i], hist[i + 1]) && !DropsLivePod(hist[i], steps[i])
  }

  lemma DroppedWasMissed(w: World, s: Step, m: nat)
    requires Enabled(w, s) && Safe(w) && Drops(w, s, m)
    ensures m < |w.pods| && (w.pods[m].needsUnmount || m in w.missed) && w.pods[m].home == Some(s.n)
  {
    var base := w.s3pas[s.n].versions[s.k];
    assert ContentOk(w, s.n, w.s3pas[s.n].spec, base);
    if s.Delete? { assert m !in CleanMap(base, s.reason.drop); }
  }

  /** No content of an attachment holds a Mountpoint Pod that belongs elsewhere. */
  lemma AccountedUpdate(w: World, s: Step, m: nat)
    requires Enabled(w, s) && Safe(w) && s.Update? && m < |w.pods| && Accounted(w, m) && !DropsLivePod(w, s)
    ensures Accounted(Apply(w, s), m)
  {
    assert ContentOk(w, s.n, w.s3pas[s.n].spec, w.s3pas[s.n].versions[s.k]);
  }

  lemma AccountedDelete(w: World, s: Step, m: nat)
    requires Enabled(w, s) && Safe(w) && s.Delete? && m < |w.pods| && Accounted(w, m) && !DropsLivePod(w, s)
    ensures Accounted(Apply(w, s), m)
  {}

  lemma ConservedStep(w: World, s: Step)
    requires Enabled(w, s) && Safe(w) && Conserved(w) && !DropsLivePod(w, s)
    ensures Conserved(Apply(w, s))
  {
    var w' := Apply(w, s);
    forall m | 0 <= m < |w'.pods| ensures Accounted(w', m) {
      if m < |w.pods| { assert Accounted(w, m); }
      if s.Update? {
        AccountedUpdate(w, s, m);
      } else if s.Delete? {
        AccountedDelete(w, s, m);
      } else {
        Monotone(w, s);
      }
    }
  }

  /** A dropped Mountpoint Pod is listed nowhere else. */
  lemma DroppedIsForgotten(w: World, s: Step)
    requires Enabled(w, s) && Safe(w) && DropsLivePod(w, s)
    ensures !Conserved(Apply(w, s))
  {
    var w' := Apply(w, s);
    var m :| 0 <= m < |w.pods| && w.pods[m].live && !w.pods[m].needsUnmount && Drops(w, s, m);
    DroppedWasMissed(w, s, m);
    assert m !in w.leaked && w.held != Some(m);
    assert !Listed(w', m);
    assert !Accounted(w', m);
  }

  lemma {:induction false} ConservedInRun(hist: seq<World>, steps: seq<Step>, i: nat)
    requires KeepsLivePods(hist, steps) && i <= |steps|
    ensures Conserved(hist[i])
  {
    if i > 0 {
      var k := i - 1;
      assert IsStep(hist[k], steps[k], hist[k + 1]);
      ConservedInRun(hist, steps, k);
      RunIsSafe(hist, steps, k);
      ConservedStep(hist[k], steps[k]);
    }
  }

  /** A Pod was missed only by a Get that did not find it. */
  lemma {:induction false} MissedByAGet(hist: seq<World>, steps: seq<Step>, i: nat, m: nat) returns (j: nat)
    requires IsRun(hist, steps) && i <= |steps| && m in hist[i].missed
    ensures j < i && steps[j].ReadMissing? && steps[j].m == m
  {
    var k := i - 1;
    assert IsStep(hist[k], steps[k], hist[k + 1]);
    if m in hist[k].missed {
      j := MissedByAGet(hist, steps, k, m);
    } else {
      j := k;
    }
  }

  lemma LivedBefore(w: World, s: Step, m: nat)
    requires Enabled(w, s) && m < |w.pods| && Apply(w, s).pods[m].live
    ensures w.pods[m].live
  {}

  lemma {:induction false} AliveBefore(hist: seq<World>, steps: seq<Step>, j: nat, i: nat, m: nat)
    requires IsRun(hist, steps) && j <= i <= |steps| && m < |hist[j].pods|
    ensures m < |hist[i].pods| && (hist[i].pods[m].live ==> hist[j].pods[m].live)
  {
    if j < i {
      var k := i - 1;
      AliveBefore(hist, steps, j, k, m);
      assert IsStep(hist[k], steps[k], hist[k + 1]);
      RunIsSafe(hist, steps, k);
      Monotone(hist[k], steps[k]);
      if hist[k + 1].pods[m].live { LivedBefore(hist[k], steps[k], m); }
    }
  }

  /** At step `j` the cache answers NotFound for the live Mountpoint Pod `m`, which it has not shown yet, and at step
      `i` the Pod is dropped for that: it lives and is not annotated. */
  ghost predicate StaleNotFound(hist: seq<World>, steps: seq<Step>, j: nat, i: nat, m: nat)
    requires IsRun(hist, steps)
  {
    && j < i < |steps| && IsStep(hist[i], steps[i], hist[i + 1])
    && steps[j].ReadMissing? && steps[j].m == m
    && m < |hist[j].pods| && hist[j].pods[m].live && !hist[j].pods[m].shown
    && m < |hist[i].pods| && hist[i].pods[m].live && !hist[i].pods[m].needsUnmount && Drops(hist[i], steps[i], m)
  }

  lemma DroppedOnStaleNotFound(hist: seq<World>, steps: seq<Step>, i: nat) returns (j: nat, m: nat)
    requires IsRun(hist, steps) && i < |steps| && IsStep(hist[i], steps[i], hist[i + 1])
    requires DropsLivePod(hist[i], steps[i])
    ensures StaleNotFound(hist, steps, j, i, m)
  {
    var w := hist[i];
    m :| 0 <= m < |w.pods| && w.pods[m].live && !w.pods[m].needsUnmount && Drops(w, steps[i], m);
    RunIsSafe(hist, steps, i);
    DroppedWasMissed(hist[i], steps[i], m);
    j := MissedByAGet(hist, steps, i, m);
    assert IsStep(hist[j], steps[j], hist[j + 1]);
    AliveBefore(hist, steps, j, i, m);
  }

  /** Conservation, exactly: all along a run every live Mountpoint Pod is listed, annotated, held, or left behind by a
      failed delete, if and only if none is dropped on a stale NotFound. */
  lemma ConservedExactlyWithoutStaleNotFound(hist: seq<World>, steps: seq<Step>)
    requires IsRun(hist, steps)
    ensures AlwaysConserved(hist) <==> !exists j: nat, i: nat, m: nat :: StaleNotFound(hist, steps, j, i, m)
  {
    if j: nat, i: nat, m: nat :| StaleNotFound(hist, steps, j, i, m) {
      RunIsSafe(hist, steps, i);
      DroppedIsForgotten(hist[i], steps[i]);
    } else {
      forall i | 0 <= i < |steps| ensures IsStep(hist[i], steps[i], hist[i + 1]) && !DropsLivePod(hist[i], steps[i]) {
        assert IsStep(hist[i], steps[i], hist[i + 1]);
        if DropsLivePod(hist[i], steps[i]) { var j, m := DroppedOnStaleNotFound(hist, steps, i); }
      }
      forall i | 0 <= i < |hist| ensures Conserved(hist[i]) { ConservedInRun(hist, steps, i); }
    }
  }

  /** A Get misses only Mountpoint Pods that are gone. */
  ghost predicate MissesOnlyGone(hist: seq<World>, steps: seq<Step>) {
    && IsRun(hist, steps)
    && forall i {:trigger steps[i]} | 0 <= i < |steps| && steps[i].ReadMissing? ::
         steps[i].m < |hist[i].pods| && !hist[i].pods[steps[i].m].live
  }

  /** In runs in which a Get misses only Pods that are gone, no live Mountpoint Pod is forgotten, except one whose
      compensating delete failed. */
  lemma MountpointPodConservation(hist: seq<World>, steps: seq<Step>, i: nat, m: nat)
    requires MissesOnlyGone(hist, steps) && i <= |steps|
    requires m < |hist[i].pods| && hist[i].pods[m].live && hist[i].held != Some(m)
    requires m !in hist[i].leaked
    ensures Listed(hist[i], m) || hist[i].pods[m].needsUnmount
  {
    ConservedExactlyWithoutStaleNotFound(hist, steps);
    assert AlwaysConserved(hist);
    assert Accounted(hist[i], m);
  }

  /** So it is in runs of whole calls. */
  lemma WholeRunsMissOnlyGone(hist: seq<World>, steps: seq<Step>)
    requires IsWholeRun(hist, steps)
    ensures MissesOnlyGone(hist, steps)
  {
    forall i | 0 <= i < |steps| && steps[i].ReadMissing?
      ensures steps[i].m < |hist[i].pods| && !hist[i].pods[steps[i].m].live
    {
      assert IsStep(hist[i], steps[i], hist[i + 1]) && Whole(hist[i], steps[i]);
    }
  }

  /** A Reconcile call for a workload that has left takes it out of its attachment, does not find the Mountpoint Pod
      in a cache that has not shown it yet, and drops the entry of the Pod, which lives. */
  lemma StaleNotFoundForgetsPod(t: Spec) returns (r: Run)
    requires WellFormed(t)
    ensures r.Valid() && |r.Last().pods| == 1 && r.Last().pods[0].live && !Accounted(r.Last(), 0)
    ensures r.Last().held.None? && r.Last().leaked == {}
  {
    r := LeftBehind(t);
    r := RemovesU(r);
    r := Then(r, ReadMissing(0, TheReconciler));
    assert r.Last().s3pas[0].versions[1] == map[0 := []];
    r := Then(r, Update(0, 1, DropEmpty(0)));
    assert !Listed(r.Last(), 0);
  }
}
