/** ControllerRun: the controller process, one whole call after the other. */
module ControllerRun {
  import opened Strings
  import opened SharingTuple
  import opened SharingModel
  import opened SharingInvariants
  import opened SharingUniqueness
  import opened NeedsUnmount
  import opened PodConservation
  import opened ClusterClient
  import opened Controller
  import opened Cleaner

  /** At every moment of the run an annotated Mountpoint Pod serves only workloads that are gone, and from then on it is
      given nobody. */
  ghost predicate AnnotationsAreKept(run: Run)
    requires run.Valid()
  {
    && (forall i | 0 <= i <= |run.steps| :: AnnotatedServeNobody(run.hist[i]))
    && (forall i, j, m |
          0 <= i <= j <= |run.steps| && 0 <= m < |run.hist[i].pods| && run.hist[i].pods[m].needsUnmount ::
          && m < |run.hist[j].pods| && run.hist[j].pods[m].needsUnmount
          && Served(run.hist[j], m) == Served(run.hist[i], m))
  }

  /** Between calls every live Mountpoint Pod is listed or annotated, unless its compensating delete failed. */
  ghost predicate NoPodIsForgotten(w: World) {
    forall m | 0 <= m < |w.pods| && w.pods[m].live && m !in w.leaked :: Listed(w, m) || w.pods[m].needsUnmount
  }

  lemma WholeRunKeepsAnnotations(run: Run)
    requires run.Valid() && IsWholeRun(run.hist, run.steps)
    ensures AnnotationsAreKept(run)
  {
    forall i | 0 <= i <= |run.steps| ensures AnnotatedServeNobody(run.hist[i]) {
      AnnotatedPodsServeNobody(run.hist, run.steps, i);
    }
    forall i, j, m | 0 <= i <= j <= |run.steps| && 0 <= m < |run.hist[i].pods| && run.hist[i].pods[m].needsUnmount
      ensures m < |run.hist[j].pods| && run.hist[j].pods[m].needsUnmount
      ensures Served(run.hist[j], m) == Served(run.hist[i], m)
    {
      AnnotatedPodsGetNobody(run.hist, run.steps, i, j, m);
    }
  }

  lemma PodsAreConserved(run: Run)
    requires run.Valid() && IsWholeRun(run.hist, run.steps) && run.Last().held.None?
    ensures NoPodIsForgotten(run.Last())
  {
    WholeRunsMissOnlyGone(run.hist, run.steps);
    forall m | 0 <= m < |run.Last().pods| && run.Last().pods[m].live && m !in run.Last().leaked
      ensures Listed(run.Last(), m) || run.Last().pods[m].needsUnmount
    {
      MountpointPodConservation(run.hist, run.steps, |run.steps|, m);
    }
  }

  lemma WhereAttached(w: World, t: Spec, uid: string) returns (n: nat, m: nat, i: nat)
    requires Attached(w, t, uid)
    ensures IsAt(w, t, uid, n, m, i)
  {
    n :| IsLiveFor(w, t, n) && HasUid(w.s3pas[n].Latest(), uid);
    m :| m in w.s3pas[n].Latest() && ListHasUid(w.s3pas[n].Latest()[m], uid);
    i :| 0 <= i < |w.s3pas[n].Latest()[m]| && w.s3pas[n].Latest()[m][i].uid == uid;
  }

  /** The workload is attached under its tuple in one attachment, to one Mountpoint Pod, at one place. */
  ghost predicate AttachedAtJust(w: World, t: Spec, uid: string, n: nat, m: nat, i: nat) {
    && IsAt(w, t, uid, n, m, i)
    && forall n': nat, m': nat, i': nat | IsAt(w, t, uid, n', m', i') :: n' == n && m' == m && i' == i
  }

  /** One Reconcile call for a Pending workload, on current reads and without lost calls, while no promise was broken
      and keys are distinct: it leaves the workload attached exactly once. */
  method AttachWorkload(reconciler: Reconciler, wl: Workload, pv: Volume, roleArn: string, time: int)
    returns (r: Result, ghost n: nat, ghost m: nat, ghost i: nat)
    requires var cluster := reconciler.cluster;
      cluster.Valid() && cluster.quiet && cluster.reliable && BetweenCalls(cluster.w) && CaughtUp(cluster.w)
    requires wl.uid in reconciler.cluster.w.born && wl.phase == Pending && !wl.terminating
    requires KeepsPromises(reconciler.cluster.run.hist, reconciler.cluster.run.steps)
    requires KeysDistinct(reconciler.cluster.w.used + {NewSpec(wl, pv, roleArn)})
    modifies reconciler.cluster
    ensures reconciler.cluster.Valid() && BetweenCalls(reconciler.cluster.w)
    ensures AttachedAtJust(reconciler.cluster.w, NewSpec(wl, pv, roleArn), wl.uid, n, m, i)
  {
    var cluster := reconciler.cluster;
    ghost var t := NewSpec(wl, pv, roleArn);
    NeverStaleWhilePromisesAreKept(cluster.run, t);
    r := reconciler.SpawnOrDeleteMountpointPodIfNeeded(wl, pv, Some(roleArn), time);
    n, m, i := WhereAttached(cluster.w, t, wl.uid);
    forall n': nat, m': nat, i': nat | IsAt(cluster.w, t, wl.uid, n', m', i') ensures n' == n && m' == m && i' == i {
      AttachedExactlyOnce(cluster.run, t, wl.uid, n, m, i, n', m', i');
    }
  }

  /** One move of the environment, if it can be made. */
  method MoveEnvironment(cluster: Cluster, step: Step)
    requires cluster.Valid() && BetweenCalls(cluster.w)
    modifies cluster
    ensures cluster.Valid() && BetweenCalls(cluster.w)
  {
    if IsEnvironment(step) && Enabled(cluster.w, step) {
      cluster.Take(step);
    }
  }

  /** Any number of Reconcile and RunCleanup calls on current reads, and of moves of the environment between them. */
  method RunController(reconciler: Reconciler, cleaner: StaleAttachmentCleaner)
    requires cleaner.reconciler == reconciler && cleaner.cluster == reconciler.cluster
    requires reconciler.cluster.Valid() && reconciler.cluster.quiet && BetweenCalls(reconciler.cluster.w)
    modifies reconciler.cluster
    ensures reconciler.cluster.Valid() && BetweenCalls(reconciler.cluster.w)
    ensures AnnotationsAreKept(reconciler.cluster.run)
    ensures NoPodIsForgotten(reconciler.cluster.w)
  {
    var cluster := reconciler.cluster;
    var moves: nat :| true;
    for i := 0 to moves
      invariant cluster.Valid() && BetweenCalls(cluster.w)
    {
      var step: Step :| true;
      MoveEnvironment(cluster, step);
      var caughtUp := CaughtUp(cluster.w);
      if
      case caughtUp =>
        var now: int :| true;
        var _ := cleaner.RunCleanup(now);
      case caughtUp =>
        var wl: Workload, pv: Volume, roleArn: Option<string>, time: int :| true;
        if wl.uid in cluster.w.born {
          var _ := reconciler.SpawnOrDeleteMountpointPodIfNeeded(wl, pv, roleArn, time);
        }
      case true =>
    }
    WholeRunKeepsAnnotations(cluster.run);
    PodsAreConserved(cluster.run);
  }
}
