/**
 * NeedsUnmount: what the needs-unmount annotation promises.
 *
 * The controller annotates a Mountpoint Pod before the compare-and-swap that takes it out of its attachment, so
 * the decision may rest on an old version. The promise is kept exactly by the runs in which that does not matter;
 * whole Reconcile and RunCleanup calls on current reads are such runs.
 */
module NeedsUnmount {
  import opened Strings
  import opened SharingTuple
  import opened SharingModel
  import opened SharingInvariants
  import opened KeyCollision

  /** No existing workload is an attachment of Mountpoint Pod `m`. */
  ghost predicate ServesNobody(w: World, m: nat) {
    Listed(w, m) ==>
      forall i | 0 <= i < |Entry(w, m)| :: Entry(w, m)[i].uid !in w.existing
  }

  ghost function Entry(w: World, m: nat): seq<Attachment>
    requires Listed(w, m)
  {
    w.s3pas[w.pods[m].home.value].Latest()[m]
  }

  ghost predicate AnnotatedServeNobody(w: World) {
    forall m | 0 <= m < |w.pods| && w.pods[m].needsUnmount :: ServesNobody(w, m)
  }

  /** Whom Mountpoint Pod `m` was ever given. */
  ghost function Served(w: World, m: nat): set<Record> {
    set r | r in w.attached && r.mp == m
  }

  /** A workload that the decision to annotate, made on version `k`, did not take into account: it was assigned
      since, or it came after the cleaner had listed the workload Pods. */
  ghost predicate Overlooked(w: World, n: nat, k: nat, m: nat, who: Actor, uid: string)
    requires AnnotateAllowed(w, n, k, m, who)
  {
    !ListHasUid(w.s3pas[n].versions[k][m], uid) || (who.TheCleaner? && uid !in w.seen.value.born)
  }

  /** No annotation overlooks a workload that exists, and no existing workload is assigned to an annotated Pod. */
  ghost predicate Sound(w: World, s: Step)
    requires Enabled(w, s)
  {
    match s
    case Annotate(n, k, m, who) =>
      Listed(w, m) ==> forall i | 0 <= i < |Entry(w, m)| && Overlooked(w, n, k, m, who, Entry(w, m)[i].uid) ::
        Entry(w, m)[i].uid !in w.existing
    case Update(_, _, Assign(m, uid, _, _)) => m < |w.pods| && w.pods[m].needsUnmount ==> uid !in w.existing
    case _ => true
  }

  ghost predicate IsSoundRun(hist: seq<World>, steps: seq<Step>) {
    && IsRun(hist, steps)
    && forall i {:trigger steps[i]} | 0 <= i < |steps| ::
         IsStep(hist[i], steps[i], hist[i + 1]) && Sound(hist[i], steps[i])
  }

  /** Apart from Update, a step changes no entry of a Mountpoint Pod that is not held. */
  lemma EntryKept(w: World, s: Step, m: nat)
    requires Safe(w) && Enabled(w, s) && !s.Update?
    requires m < |w.pods| && w.held != Some(m) && Listed(Apply(w, s), m)
    ensures Listed(w, m) && Entry(Apply(w, s), m) == Entry(w, m)
  {}

  /** An Update that gives `m` nobody leaves a part of its entry. */
  lemma EntryThins(w: World, s: Step, m: nat)
    requires Safe(w) && Enabled(w, s) && s.Update? && !(s.change.Assign? && s.change.m == m)
    requires m < |w.pods| && w.held != Some(m) && Listed(Apply(w, s), m)
    ensures Listed(w, m) && Thinned(Entry(Apply(w, s), m), Entry(w, m))
  {
    var base := w.s3pas[s.n].versions[s.k];
    if w.pods[m].home == Some(s.n) && !s.change.Assign? && !s.change.AddNew? {
      ChangedShape(w, w.s3pas[s.n].spec, base, s.change);
    } else {
      assert Listed(w, m) && Entry(Apply(w, s), m) == Entry(w, m);
      ThinnedRefl(Entry(w, m));
    }
  }

  lemma EntryIsBorn(w: World, m: nat, i: nat)
    requires Safe(w) && Listed(w, m) && i < |Entry(w, m)|
    ensures Entry(w, m)[i].uid in w.born
  {
    var n := w.pods[m].home.value;
    assert ContentOk(w, n, w.s3pas[n].spec, w.s3pas[n].versions[|w.s3pas[n].versions| - 1]);
  }

  lemma EntryIsHome(w: World, n: nat, k: nat, m: nat)
    requires Safe(w) && n < |w.s3pas| && k < |w.s3pas[n].versions| && m in w.s3pas[n].versions[k]
    ensures m < |w.pods| && w.pods[m].home == Some(n) && w.held != Some(m)
  {
    assert ContentOk(w, n, w.s3pas[n].spec, w.s3pas[n].versions[k]);
  }

  /** An Assign appends to the entry. */
  lemma EntryGains(w: World, s: Step)
    requires Safe(w) && Enabled(w, s) && s.Update? && s.change.Assign?
    ensures Listed(w, s.change.m) && Listed(Apply(w, s), s.change.m)
    ensures Entry(Apply(w, s), s.change.m) == Entry(w, s.change.m) + [Attachment(s.change.uid, s.change.time)]
  {
    EntryIsHome(w, s.n, s.k, s.change.m);
  }

  /** Nobody who is listed for `m` starts to exist, and nobody who exists is added to it. */
  lemma EntryStaysDead(w: World, s: Step, m: nat)
    requires Safe(w) && Enabled(w, s) && !(s.Update? && s.change.Assign? && s.change.m == m)
    requires m < |w.pods| && w.held != Some(m) && ServesNobody(w, m)
    ensures ServesNobody(Apply(w, s), m)
  {
    var w' := Apply(w, s);
    if Listed(w', m) {
      forall i | 0 <= i < |Entry(w', m)| ensures Entry(w', m)[i].uid !in w'.existing {
        if s.Update? {
          EntryThins(w, s, m);
          var at :| Embeds(Entry(w', m), Entry(w, m), at);
          assert Entry(w, m)[at[i]].uid !in w.existing;
        } else {
          EntryKept(w, s, m);
          EntryIsBorn(w, m, i);
          assert Entry(w, m)[i].uid !in w.existing;
        }
      }
    }
  }

  lemma AnnotatedStep(w: World, s: Step, m: nat)
    requires Safe(w) && Enabled(w, s) && Sound(w, s)
    requires m < |w.pods| && w.pods[m].needsUnmount && ServesNobody(w, m)
    ensures ServesNobody(Apply(w, s), m)
  {
    if s.Update? && s.change.Assign? && s.change.m == m {
      EntryGains(w, s);
    } else {
      EntryStaysDead(w, s, m);
    }
  }

  /** Whoever the decision took into account is gone: nobody was there, or the cleaner did not find them. */
  lemma SoundAnnotation(w: World, s: Step)
    requires Safe(w) && Enabled(w, s) && s.Annotate?
    ensures Sound(w, s) <==> ServesNobody(w, s.m)
  {
    var list := w.s3pas[s.n].versions[s.k][s.m];
    if Listed(w, s.m) {
      forall i | 0 <= i < |Entry(w, s.m)| && !Overlooked(w, s.n, s.k, s.m, s.who, Entry(w, s.m)[i].uid)
        ensures Entry(w, s.m)[i].uid !in w.existing
      {
        var j :| 0 <= j < |list| && list[j].uid == Entry(w, s.m)[i].uid;
        assert TakenForGone(w, list[j].uid);
      }
    }
  }

  lemma EntryAnnotated(w: World, s: Step)
    requires Safe(w) && Enabled(w, s) && s.Annotate?
    ensures ServesNobody(Apply(w, s), s.m) <==> ServesNobody(w, s.m)
  {
    var w' := Apply(w, s);
    assert Listed(w', s.m) <==> Listed(w, s.m);
    assert Listed(w, s.m) ==> Entry(w', s.m) == Entry(w, s.m);
  }

  lemma SoundStep(w: World, s: Step)
    requires Safe(w) && Enabled(w, s) && Sound(w, s) && AnnotatedServeNobody(w)
    ensures AnnotatedServeNobody(Apply(w, s))
  {
    var w' := Apply(w, s);
    Monotone(w, s);
    forall m | 0 <= m < |w'.pods| && w'.pods[m].needsUnmount ensures ServesNobody(w', m) {
      if s.Annotate? && s.m == m {
        SoundAnnotation(w, s);
        EntryAnnotated(w, s);
      } else {
        AnnotatedStep(w, s, m);
      }
    }
  }

  lemma UnsoundStep(w: World, s: Step)
    requires Safe(w) && Enabled(w, s) && !Sound(w, s)
    ensures !AnnotatedServeNobody(Apply(w, s))
  {
    var w' := Apply(w, s);
    if s.Annotate? {
      SoundAnnotation(w, s);
      EntryAnnotated(w, s);
      assert w'.pods[s.m].needsUnmount;
    } else {
      var m := s.change.m;
      EntryGains(w, s);
      assert Entry(w', m)[|Entry(w, m)|].uid == s.change.uid;
      assert w'.pods[m].needsUnmount && !ServesNobody(w', m);
    }
  }

  lemma {:induction false} SoundRunsServeNobody(hist: seq<World>, steps: seq<Step>, i: nat)
    requires IsSoundRun(hist, steps) && i <= |steps|
    ensures AnnotatedServeNobody(hist[i])
  {
    if i > 0 {
      assert IsStep(hist[i - 1], steps[i - 1], hist[i - 1 + 1]);
      SoundRunsServeNobody(hist, steps, i - 1);
      RunIsSafe(hist, steps, i - 1);
      SoundStep(hist[i - 1], steps[i - 1]);
    }
  }

  /** Every annotated Mountpoint Pod serves only workloads that are gone, all along a run, if and only if no annotation
      overlooks an existing workload and none is assigned to an annotated Pod. */
  lemma AnnotatedServeNobodyExactlyInSoundRuns(hist: seq<World>, steps: seq<Step>)
    requires IsRun(hist, steps)
    ensures (forall i | 0 <= i <= |steps| :: AnnotatedServeNobody(hist[i])) <==> IsSoundRun(hist, steps)
  {
    if IsSoundRun(hist, steps) {
      forall i | 0 <= i <= |steps| ensures AnnotatedServeNobody(hist[i]) { SoundRunsServeNobody(hist, steps, i); }
    }
    if forall i | 0 <= i <= |steps| :: AnnotatedServeNobody(hist[i]) {
      forall i | 0 <= i < |steps| ensures IsStep(hist[i], steps[i], hist[i + 1]) && Sound(hist[i], steps[i]) {
        RunIsSafe(hist, steps, i);
        assert IsStep(hist[i], steps[i], hist[i + 1]) && AnnotatedServeNobody(hist[i + 1]);
        if !Sound(hist[i], steps[i]) { UnsoundStep(hist[i], steps[i]); }
      }
    }
  }

  /******* Whole calls on current reads *******/

  /** A decision on the current version, after which no workload has come; a Get that misses only Pods that are gone;
      and a check of the annotation that still holds when the workload is assigned. */
  ghost predicate Whole(w: World, s: Step)
    requires Enabled(w, s)
  {
    match s
    case Annotate(n, k, m, who) => IsLatest(w, n, k) && (who.TheCleaner? ==> w.seen.value.born == w.born)
    case ReadMissing(m, _) => !w.pods[m].live
    case Update(_, _, Assign(m, _, _, _)) => m < |w.pods| && !w.pods[m].needsUnmount
    case _ => true
  }

  ghost predicate IsWholeRun(hist: seq<World>, steps: seq<Step>) {
    && IsRun(hist, steps)
    && forall i {:trigger steps[i]} | 0 <= i < |steps| ::
         IsStep(hist[i], steps[i], hist[i + 1]) && Whole(hist[i], steps[i])
  }

  lemma WholeIsSound(w: World, s: Step)
    requires Safe(w) && Enabled(w, s) && Whole(w, s)
    ensures Sound(w, s)
  {
    if s.Annotate? && Listed(w, s.m) {
      EntryIsHome(w, s.n, s.k, s.m);
      forall i | 0 <= i < |Entry(w, s.m)| ensures !Overlooked(w, s.n, s.k, s.m, s.who, Entry(w, s.m)[i].uid) {
        EntryIsBorn(w, s.m, i);
        assert w.s3pas[s.n].versions[s.k][s.m][i].uid == Entry(w, s.m)[i].uid;
      }
    }
  }

  lemma WholeRunsAreSound(hist: seq<World>, steps: seq<Step>)
    requires IsWholeRun(hist, steps)
    ensures IsSoundRun(hist, steps)
  {
    forall i | 0 <= i < |steps| ensures IsStep(hist[i], steps[i], hist[i + 1]) && Sound(hist[i], steps[i]) {
      assert IsStep(hist[i], steps[i], hist[i + 1]) && Whole(hist[i], steps[i]);
      RunIsSafe(hist, steps, i);
      WholeIsSound(hist[i], steps[i]);
    }
  }

  /** In runs of whole calls, an annotated Mountpoint Pod serves only workloads that are gone. */
  lemma AnnotatedPodsServeNobody(hist: seq<World>, steps: seq<Step>, i: nat)
    requires IsWholeRun(hist, steps) && i <= |steps|
    ensures AnnotatedServeNobody(hist[i])
  {
    WholeRunsAreSound(hist, steps);
    SoundRunsServeNobody(hist, steps, i);
  }

  lemma AnnotatedGetsNobody(w: World, s: Step, m: nat)
    requires Safe(w) && Enabled(w, s) && Whole(w, s)
    requires m < |w.pods| && w.pods[m].needsUnmount
    ensures m < |Apply(w, s).pods| && Apply(w, s).pods[m].needsUnmount
    ensures Served(Apply(w, s), m) == Served(w, m)
  {}

  /** And no later step gives it another one. */
  lemma {:induction false} AnnotatedPodsGetNobody(hist: seq<World>, steps: seq<Step>, i: nat, j: nat, m: nat)
    requires IsWholeRun(hist, steps) && i <= j <= |steps|
    requires m < |hist[i].pods| && hist[i].pods[m].needsUnmount
    ensures m < |hist[j].pods| && hist[j].pods[m].needsUnmount && Served(hist[j], m) == Served(hist[i], m)
  {
    if i < j {
      AnnotatedPodsGetNobody(hist, steps, i, j - 1, m);
      assert IsStep(hist[j - 1], steps[j - 1], hist[j - 1 + 1]);
      RunIsSafe(hist, steps, j - 1);
      AnnotatedGetsNobody(hist[j - 1], steps[j - 1], m);
    }
  }

  /******* Where it fails *******/

  ghost function AttachedAndFound(r: Run, t: Spec): (r': Run)
    requires r.Valid() && Ready(r.Last()) && WellFormed(t) && KeyOf(t) !in r.Last().pending
    requires r.Last().s3pas == [] && r.Last().pods == []
    ensures r'.Valid() && Ready(r'.Last())
    ensures r'.Last().born == r.Last().born && r'.Last().existing == r.Last().existing
    ensures r'.Last().s3pas == [S3pa(t, [map[0 := [Attachment("u", 0)]]], true, Visible(0))]
    ensures r'.Last().pods == [MpPod(true, false, false, true, Some(0))] && r'.Last().leaked == r.Last().leaked
  {
    Finds(Then(Creates(r, t), Show(0, 0)), t, 0)
  }

  /** Workload "u" has come, was attached, and has gone, and the cache shows it. */
  lemma LeftBehind(t: Spec) returns (r: Run)
    requires WellFormed(t)
    ensures r.Valid() && Ready(r.Last()) && "v" in r.Last().existing
    ensures "v" in r.Last().born && "u" !in r.Last().existing
    ensures r.Last().s3pas == [S3pa(t, [map[0 := [Attachment("u", 0)]]], true, Visible(0))]
    ensures r.Last().pods == [MpPod(true, false, false, true, Some(0))] && r.Last().leaked == {}
  {
    var r0 := Then(Then(Run([INIT], []), Appear("u")), Appear("v"));
    r := Then(AttachedAndFound(r0, t), Vanish("u"));
  }

  /** "v" is assigned to Mountpoint Pod 0 on the current version. */
  ghost function AssignsV(r: Run, k: nat): (r': Run)
    requires r.Valid() && |r.Last().s3pas| == 1 && IsLatest(r.Last(), 0, k) && 0 in r.Last().s3pas[0].versions[k]
    requires !HasUid(r.Last().s3pas[0].versions[k], "v") && "v" in r.Last().born
    ensures r'.Valid() && |r'.Last().s3pas| == 1 && r'.Last().s3pas[0].live
    ensures var a: Attachments := r.Last().s3pas[0].versions[k];
      r'.Last().s3pas[0].versions == r.Last().s3pas[0].versions + [a[0 := a[0] + [Attachment("v", 1)]]]
    ensures r'.Last().s3pas[0].cached == r.Last().s3pas[0].cached && r'.Last().s3pas[0].spec == r.Last().s3pas[0].spec
    ensures r'.Last().pods == r.Last().pods
    ensures r'.Last().existing == r.Last().existing && r'.Last().seen == r.Last().seen
    ensures r'.Last().view == r.Last().view && r'.Last().held == r.Last().held && r'.Last().pending == r.Last().pending
  {
    Then(r, Update(0, k, Assign(0, "v", 1, r.Last().s3pas[0].spec)))
  }

  /** "u" leaves Mountpoint Pod 0, and the cache shows it. */
  ghost function RemovesU(r: Run): (r': Run)
    requires r.Valid() && Ready(r.Last()) && |r.Last().s3pas| == 1
    requires r.Last().s3pas == [S3pa(r.Last().s3pas[0].spec, [map[0 := [Attachment("u", 0)]]], true, Visible(0))]
    ensures r'.Valid() && Ready(r'.Last())
    ensures r'.Last().s3pas
      == [S3pa(r.Last().s3pas[0].spec, [map[0 := [Attachment("u", 0)]], map[0 := []]], true, Visible(1))]
    ensures r'.Last().pods == r.Last().pods
    ensures r'.Last().existing == r.Last().existing && r'.Last().born == r.Last().born
    ensures r'.Last().leaked == r.Last().leaked
  {
    assert WithoutUid([Attachment("u", 0)], "u") == [] by { assert [Attachment("u", 0)][1..] == []; }
    var removed := Then(r, Update(0, 0, Remove(0, "u")));
    var before: Attachments := map[0 := [Attachment("u", 0)]];
    var after: Attachments := map[0 := []];
    assert Changed(None, before, Remove(0, "u")) == after;
    assert removed.Last().s3pas[0].versions == [before] + [after];
    var shown := Then(removed, Show(0, 1));
    assert shown.Last().s3pas[0] == S3pa(r.Last().s3pas[0].spec, [before, after], true, Visible(1));
    shown
  }

  /** Mountpoint Pod 0 is annotated while "v", which exists, is attached to it. */
  lemma RaceEnds(r: Run, k: nat, who: Actor, i: nat) returns (r': Run)
    requires r.Valid() && Enabled(r.Last(), Annotate(0, k, 0, who)) && Listed(r.Last(), 0)
    requires i < |Entry(r.Last(), 0)| && Entry(r.Last(), 0)[i].uid == "v" && "v" in r.Last().existing
    ensures r'.Valid() && |r'.steps| > 0 && r'.steps[|r'.steps| - 1] == Annotate(0, k, 0, who)
    ensures !AnnotatedServeNobody(r'.Last())
  {
    r' := Then(r, Annotate(0, k, 0, who));
    assert r'.steps == r.steps + [Annotate(0, k, 0, who)];
    assert Listed(r'.Last(), 0) && Entry(r'.Last(), 0) == Entry(r.Last(), 0);
    assert r'.Last().pods[0].needsUnmount && !ServesNobody(r'.Last(), 0);
  }

  /** The cleaner lists the Pods and reads version 0, where only "u" is attached, which is gone; then workload "v",
      which exists, is assigned; then the cleaner annotates, as version 0 allows. */
  lemma CleanerRace(t: Spec)
    requires WellFormed(t)
    ensures exists r: Run :: (r.Valid() && |r.steps| > 0 && r.steps[|r.steps| - 1] == Annotate(0, 0, 0, TheCleaner)
                              && !AnnotatedServeNobody(r.Last()))
  {
    var r := LeftBehind(t);
    r := Then(r, ReadPods);
    assert !HasUid(r.Last().s3pas[0].versions[0], "v");
    r := AssignsV(r, 0);
    assert r.Last().s3pas[0].versions[0][0] == [Attachment("u", 0)];
    r := Then(r, ShowPod(0));
    r := RaceEnds(r, 0, TheCleaner, 1);
  }

  /** The same without the cleaner, on a cache that lags: version 1 has an empty entry, "v" is assigned to it, and a
      Reconcile call that still reads version 1 annotates. */
  lemma StaleCacheRace(t: Spec)
    requires WellFormed(t)
    ensures exists r: Run :: (r.Valid() && |r.steps| > 0 && r.steps[|r.steps| - 1] == Annotate(0, 1, 0, TheReconciler)
                              && !AnnotatedServeNobody(r.Last()))
  {
    var r := LeftBehind(t);
    r := RemovesU(r);
    assert !HasUid(r.Last().s3pas[0].versions[1], "v");
    r := Then(Then(AssignsV(r, 1), List(t)), ShowPod(0));
    r := RaceEnds(r, 1, TheReconciler, 0);
  }
}
