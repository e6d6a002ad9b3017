/** AnnotationHistory: when needs-unmount annotations keep their promise, told by the steps that came before them. */
module AnnotationHistory {
  import opened Strings
  import opened SharingModel
  import opened SharingInvariants
  import opened NeedsUnmount

  /** The current version of attachment `n` lists workload `uid` under Mountpoint Pod `m`. */
  ghost predicate ListedIn(w: World, n: nat, m: nat, uid: string) {
    n < |w.s3pas| && m in w.s3pas[n].Latest() && ListHasUid(w.s3pas[n].Latest()[m], uid)
  }

  /** The step assigns the workload to `m`, on version `k` of attachment `n` or a later one. */
  predicate Gives(s: Step, n: nat, k: nat, m: nat, uid: string) {
    s.Update? && s.n == n && k <= s.k && s.change.Assign? && s.change.m == m && s.change.uid == uid
  }

  /** The step takes the workload out of the list of `m`. */
  ghost predicate Takes(w: World, s: Step, n: nat, m: nat, uid: string) {
    && s.Update? && s.n == n
    && match s.change
       case Remove(m', uid') => m' == m && uid' == uid
       case Clean(drop) => ListedIn(w, n, m, uid) && exists x | x in drop :: x.uid == uid && x in w.s3pas[n].Latest()[m]
       case _ => false
  }

  /** Step `a` assigned the workload after version `k`, and no later step before `i` took it away. */
  ghost predicate GivenSince(hist: seq<World>, steps: seq<Step>, a: nat, i: nat, n: nat, k: nat, m: nat, uid: string) {
    && a < i <= |steps| && i < |hist| && Gives(steps[a], n, k, m, uid)
    && forall b | a < b < i :: !Takes(hist[b], steps[b], n, m, uid)
  }

  /******* One step *******/

  lemma GivenIsListed(w: World, s: Step, k: nat)
    requires Safe(w) && Enabled(w, s) && s.Update? && s.change.Assign?
    ensures ListedIn(Apply(w, s), s.n, s.change.m, s.change.uid)
  {
    var list := Apply(w, s).s3pas[s.n].Latest()[s.change.m];
    assert list[|list| - 1].uid == s.change.uid;
  }

  lemma ListHasMember(list: seq<Attachment>, x: Attachment)
    requires x in list
    ensures ListHasUid(list, x.uid)
  {
    var i :| 0 <= i < |list| && list[i] == x;
  }

  lemma StaysListed(w: World, s: Step, n: nat, m: nat, uid: string)
    requires Safe(w) && Enabled(w, s) && ListedIn(w, n, m, uid) && !Takes(w, s, n, m, uid)
    ensures ListedIn(Apply(w, s), n, m, uid)
  {
    if s.Update? && s.n == n { StaysListedInUpdate(w, s, m, uid); }
  }

  lemma StaysListedInUpdate(w: World, s: Step, m: nat, uid: string)
    requires Safe(w) && Enabled(w, s) && s.Update? && ListedIn(w, s.n, m, uid) && !Takes(w, s, s.n, m, uid)
    ensures ListedIn(Apply(w, s), s.n, m, uid)
  {
    EntryIsHome(w, s.n, s.k, m);
    ChangeKeeps(w.held, w.s3pas[s.n].Latest(), s.change, m, uid);
  }

  lemma ChangeKeeps(held: Option<nat>, base: Attachments, c: Change, m: nat, uid: string)
    requires m in base && ListHasUid(base[m], uid) && held != Some(m)
    requires c.DropEmpty? ==> c.m in base && base[c.m] == []
    requires c.Remove? ==> c.m != m || c.uid != uid
    requires c.Clean? ==> forall x | x in base[m] && x.uid == uid :: x !in c.drop
    ensures m in Changed(held, base, c) && ListHasUid(Changed(held, base, c)[m], uid)
  {
    var i: nat :| i < |base[m]| && base[m][i].uid == uid;
    match c {
      case Assign(_, _, _, _) => assert Changed(held, base, c)[m][i].uid == uid;
      case Remove(m', uid') =>
        WithoutUidThins(base[m], uid');
        if m' == m { ListHasMember(WithoutUid(base[m], uid'), base[m][i]); }
      case Clean(drop) =>
        WithoutThins(base[m], drop);
        ListHasMember(Without(base[m], drop), base[m][i]);
      case _ =>
    }
  }

  lemma TakenIsNotListed(w: World, s: Step, n: nat, m: nat, uid: string)
    requires Safe(w) && Enabled(w, s) && Takes(w, s, n, m, uid)
    ensures !ListedIn(Apply(w, s), n, m, uid)
  {
    LatestIsUnique(w, n);
    if s.change.Remove? {
      RemoveTakes(w.held, w.s3pas[n].Latest(), m, uid);
    } else {
      CleanedIsNotListed(w, s, n, m, uid);
    }
  }

  lemma CleanedIsNotListed(w: World, s: Step, n: nat, m: nat, uid: string)
    requires Enabled(w, s) && Takes(w, s, n, m, uid) && s.change.Clean? && UniqueUids(w.s3pas[n].Latest())
    ensures !ListedIn(Apply(w, s), n, m, uid)
  {
    CleanTakes(w.s3pas[n].Latest(), s.change.drop, m, uid);
    assert Apply(w, s).s3pas[n].Latest() == CleanMap(w.s3pas[n].Latest(), s.change.drop);
  }

  lemma LatestIsUnique(w: World, n: nat)
    requires Safe(w) && n < |w.s3pas|
    ensures UniqueUids(w.s3pas[n].Latest())
  {
    assert ContentOk(w, n, w.s3pas[n].spec, w.s3pas[n].versions[|w.s3pas[n].versions| - 1]);
  }

  lemma RemoveTakes(held: Option<nat>, base: Attachments, m: nat, uid: string)
    requires m in base
    ensures !ListHasUid(Changed(held, base, Remove(m, uid))[m], uid)
  {
    WithoutUidThins(base[m], uid);
  }

  lemma CleanTakes(base: Attachments, drop: set<Attachment>, m: nat, uid: string)
    requires UniqueUids(base) && m in base && exists x | x in drop :: x.uid == uid && x in base[m]
    ensures m in CleanMap(base, drop) ==> !ListHasUid(CleanMap(base, drop)[m], uid)
  {
    var x :| x in drop && x.uid == uid && x in base[m];
    WithoutThins(base[m], drop);
    NotLeft(base[m], Without(base[m], drop), x);
  }

  lemma NotLeft(list: seq<Attachment>, r: seq<Attachment>, x: Attachment)
    requires x in list && x !in r && (forall y | y in r :: y in list)
    requires forall i, j | 0 <= i < j < |list| :: list[i].uid != list[j].uid
    ensures !ListHasUid(r, x.uid)
  {
    forall i | 0 <= i < |r| ensures r[i].uid != x.uid {
      assert r[i] in list && r[i] != x;
    }
  }

  /** Only an Assign lists a workload anew under a Mountpoint Pod that was there before. */
  lemma ListedAnew(w: World, s: Step, n: nat, k: nat, m: nat, uid: string)
    requires Safe(w) && Enabled(w, s) && n < |w.s3pas| && k < |w.s3pas[n].versions| && m in w.s3pas[n].versions[k]
    requires !ListedIn(w, n, m, uid) && ListedIn(Apply(w, s), n, m, uid)
    ensures Gives(s, n, k, m, uid)
  {
    EntryIsHome(w, n, k, m);
    if s.Update? && s.n == n { ListedAnewInUpdate(w, s, m, uid); } else { VersionsKept(w, s, n); }
  }

  lemma VersionsKept(w: World, s: Step, n: nat)
    requires Enabled(w, s) && n < |w.s3pas| && !(s.Update? && s.n == n)
    ensures Apply(w, s).s3pas[n].versions == w.s3pas[n].versions
  {}

  lemma ListedAnewInUpdate(w: World, s: Step, m: nat, uid: string)
    requires Safe(w) && Enabled(w, s) && s.Update? && w.held != Some(m)
    requires !ListedIn(w, s.n, m, uid) && ListedIn(Apply(w, s), s.n, m, uid)
    ensures s.change.Assign? && s.change.m == m && s.change.uid == uid
  {
    var base: Attachments, after: Attachments := w.s3pas[s.n].Latest(), Apply(w, s).s3pas[s.n].Latest();
    if s.change.Assign? && s.change.m == m {
      AppendedHas(base[m], Attachment(s.change.uid, s.change.time), uid);
    } else if !s.change.Assign? && !s.change.AddNew? {
      ChangedShape(w, w.s3pas[s.n].spec, base, s.change);
      ThinnedHas(after[m], base[m], uid);
    }
  }

  lemma AppendedHas(list: seq<Attachment>, x: Attachment, uid: string)
    requires ListHasUid(list + [x], uid)
    ensures ListHasUid(list, uid) || x.uid == uid
  {
    var i: nat :| i < |list| + 1 && (list + [x])[i].uid == uid;
    assert i < |list| ==> list[i].uid == uid;
  }

  lemma ThinnedHas(r: seq<Attachment>, list: seq<Attachment>, uid: string)
    requires Thinned(r, list) && ListHasUid(r, uid)
    ensures ListHasUid(list, uid)
  {
    var at :| Embeds(r, list, at);
    var i: nat :| i < |r| && r[i].uid == uid;
    assert list[at[i]].uid == uid;
  }

  /******* Runs *******/

  lemma {:induction false} GivenIsStillListed(
      hist: seq<World>, steps: seq<Step>, a: nat, i: nat, n: nat, k: nat, m: nat, uid: string)
    requires IsRun(hist, steps) && GivenSince(hist, steps, a, i, n, k, m, uid)
    ensures ListedIn(hist[i], n, m, uid)
  {
    var j := i - 1;
    RunIsSafe(hist, steps, j);
    assert IsStep(hist[j], steps[j], hist[j + 1]);
    if a == j {
      GivenIsListed(hist[j], steps[j], k);
    } else {
      assert !Takes(hist[j], steps[j], n, m, uid);
      GivenIsStillListed(hist, steps, a, j, n, k, m, uid);
      StaysListed(hist[j], steps[j], n, m, uid);
    }
  }

  /** Version `k` of attachment `n` has Mountpoint Pod `m`, but does not list the workload for it. */
  ghost predicate NotYetListed(w: World, n: nat, k: nat, m: nat, uid: string) {
    && n < |w.s3pas| && k < |w.s3pas[n].versions|
    && m in w.s3pas[n].versions[k] && !ListHasUid(w.s3pas[n].versions[k][m], uid)
  }

  /** A version that is not the current one was there a step before. */
  lemma OldVersion(w: World, s: Step, n: nat, k: nat, m: nat, uid: string)
    requires Enabled(w, s) && NotYetListed(Apply(w, s), n, k, m, uid) && ListedIn(Apply(w, s), n, m, uid)
    ensures NotYetListed(w, n, k, m, uid)
  {}

  lemma ListedBeforeOrGiven(w: World, s: Step, n: nat, k: nat, m: nat, uid: string)
    requires Safe(w) && Enabled(w, s) && NotYetListed(Apply(w, s), n, k, m, uid) && ListedIn(Apply(w, s), n, m, uid)
    ensures NotYetListed(w, n, k, m, uid) && !Takes(w, s, n, m, uid)
    ensures ListedIn(w, n, m, uid) || Gives(s, n, k, m, uid)
  {
    OldVersion(w, s, n, k, m, uid);
    if Takes(w, s, n, m, uid) { TakenIsNotListed(w, s, n, m, uid); }
    if !ListedIn(w, n, m, uid) { ListedAnew(w, s, n, k, m, uid); }
  }

  lemma ListedBeforeOrGivenInRun(hist: seq<World>, steps: seq<Step>, j: nat, n: nat, k: nat, m: nat, uid: string)
    requires IsRun(hist, steps) && j < |steps|
    requires NotYetListed(hist[j + 1], n, k, m, uid) && ListedIn(hist[j + 1], n, m, uid)
    ensures NotYetListed(hist[j], n, k, m, uid) && !Takes(hist[j], steps[j], n, m, uid)
    ensures ListedIn(hist[j], n, m, uid) || Gives(steps[j], n, k, m, uid)
  {
    RunIsSafe(hist, steps, j);
    assert IsStep(hist[j], steps[j], hist[j + 1]);
    ListedBeforeOrGiven(hist[j], steps[j], n, k, m, uid);
  }

  lemma GivenStill(
      hist: seq<World>, steps: seq<Step>, a: nat, j: nat, n: nat, k: nat, m: nat, uid: string)
    requires GivenSince(hist, steps, a, j, n, k, m, uid) && j < |steps| && j + 1 < |hist|
    requires !Takes(hist[j], steps[j], n, m, uid)
    ensures GivenSince(hist, steps, a, j + 1, n, k, m, uid)
  {}

  lemma {:induction false} ListedWasGiven(
      hist: seq<World>, steps: seq<Step>, i: nat, n: nat, k: nat, m: nat, uid: string)
    returns (a: nat)
    requires IsRun(hist, steps) && i <= |steps| && NotYetListed(hist[i], n, k, m, uid) && ListedIn(hist[i], n, m, uid)
    ensures GivenSince(hist, steps, a, i, n, k, m, uid)
  {
    var j := i - 1;
    ListedBeforeOrGivenInRun(hist, steps, j, n, k, m, uid);
    if ListedIn(hist[j], n, m, uid) {
      a := ListedWasGiven(hist, steps, j, n, k, m, uid);
      GivenStill(hist, steps, a, j, n, k, m, uid);
    } else {
      a := j;
    }
  }

  /** The workload came at step `p`, and the cleaner has not listed the workload Pods since. */
  ghost predicate CameSince(steps: seq<Step>, p: nat, i: nat, uid: string) {
    && p < i <= |steps| && steps[p] == Appear(uid)
    && forall b | p < b < i :: !steps[b].ReadPods?
  }

  lemma {:induction false} UnseenCame(hist: seq<World>, steps: seq<Step>, i: nat, uid: string) returns (p: nat)
    requires IsRun(hist, steps) && i <= |steps| && uid in hist[i].born
    requires hist[i].seen.Some? ==> uid !in hist[i].seen.value.born
    ensures CameSince(steps, p, i, uid)
  {
    var j := i - 1;
    assert IsStep(hist[j], steps[j], hist[j + 1]);
    if uid in hist[j].born {
      p := UnseenCame(hist, steps, j, uid);
    } else {
      p := j;
    }
  }

  /******* The promise *******/

  /** An annotation that was decided on version `k` is made only when every workload that was assigned to the Mountpoint
      Pod after that version, and not taken away since, is gone; for the cleaner also every one that came after its last
      listing and is still listed. And no existing workload is assigned to an annotated Pod. */
  ghost predicate Heeded(hist: seq<World>, steps: seq<Step>, i: nat)
    requires IsRun(hist, steps) && i < |steps|
  {
    match steps[i]
    case Annotate(n, k, m, who) =>
      n < |hist[i].s3pas| && hist[i].s3pas[n].live ==>
        && (forall a: nat, uid | GivenSince(hist, steps, a, i, n, k, m, uid) :: uid !in hist[i].existing)
        && (who.TheCleaner? ==>
              forall p: nat, uid | CameSince(steps, p, i, uid) && ListedIn(hist[i], n, m, uid) ::
                uid !in hist[i].existing)
    case Update(_, _, Assign(m, uid, _, _)) =>
      m < |hist[i].pods| && hist[i].pods[m].needsUnmount ==> uid !in hist[i].existing
    case _ => true
  }

  ghost predicate AllHeeded(hist: seq<World>, steps: seq<Step>)
    requires IsRun(hist, steps)
  {
    forall i | 0 <= i < |steps| :: Heeded(hist, steps, i)
  }

  lemma EntryIsListedIn(w: World, n: nat, k: nat, m: nat, uid: string)
    requires Safe(w) && n < |w.s3pas| && k < |w.s3pas[n].versions| && m in w.s3pas[n].versions[k]
    ensures Listed(w, m) && ListHasUid(Entry(w, m), uid) <==> w.s3pas[n].live && ListedIn(w, n, m, uid)
  {
    EntryIsHome(w, n, k, m);
  }

  lemma ServedAreGone(w: World, n: nat, m: nat)
    requires ServesNobody(w, m) && Listed(w, m)
    ensures forall uid | ListHasUid(Entry(w, m), uid) :: uid !in w.existing
  {
    forall uid | ListHasUid(Entry(w, m), uid) ensures uid !in w.existing {
      var i: nat :| i < |Entry(w, m)| && Entry(w, m)[i].uid == uid;
    }
  }

  lemma ServingNobodyIsHeeded(hist: seq<World>, steps: seq<Step>, i: nat)
    requires IsRun(hist, steps) && i < |steps| && IsStep(hist[i], steps[i], hist[i + 1]) && steps[i].Annotate?
    requires ServesNobody(hist[i], steps[i].m)
    ensures Heeded(hist, steps, i)
  {
    var w, s := hist[i], steps[i];
    RunIsSafe(hist, steps, i);
    forall a: nat, uid | w.s3pas[s.n].live && GivenSince(hist, steps, a, i, s.n, s.k, s.m, uid)
      ensures uid !in w.existing
    {
      GivenIsStillListed(hist, steps, a, i, s.n, s.k, s.m, uid);
      EntryIsListedIn(w, s.n, s.k, s.m, uid);
      ServedAreGone(w, s.n, s.m);
    }
    forall uid | w.s3pas[s.n].live && ListedIn(w, s.n, s.m, uid) ensures uid !in w.existing {
      EntryIsListedIn(w, s.n, s.k, s.m, uid);
      ServedAreGone(w, s.n, s.m);
    }
  }

  /** Whoever is listed was given since, or was listed before; and then the cleaner did not find them, or they came
      since. */
  lemma HeededServesNobody(hist: seq<World>, steps: seq<Step>, i: nat)
    requires IsRun(hist, steps) && i < |steps| && IsStep(hist[i], steps[i], hist[i + 1]) && steps[i].Annotate?
    requires Heeded(hist, steps, i)
    ensures ServesNobody(hist[i], steps[i].m)
  {
    var w, s := hist[i], steps[i];
    RunIsSafe(hist, steps, i);
    if Listed(w, s.m) {
      forall j | 0 <= j < |Entry(w, s.m)| ensures Entry(w, s.m)[j].uid !in w.existing {
        var uid := Entry(w, s.m)[j].uid;
        EntryIsBorn(w, s.m, j);
        EntryIsListedIn(w, s.n, s.k, s.m, uid);
        ListedAndHeeded(hist, steps, i, uid);
      }
    }
  }

  lemma ListedAndHeeded(hist: seq<World>, steps: seq<Step>, i: nat, uid: string)
    requires IsRun(hist, steps) && i < |steps| && IsStep(hist[i], steps[i], hist[i + 1]) && steps[i].Annotate?
    requires Heeded(hist, steps, i) && hist[i].s3pas[steps[i].n].live && SeenOk(hist[i])
    requires ListedIn(hist[i], steps[i].n, steps[i].m, uid) && uid in hist[i].born
    ensures uid !in hist[i].existing
  {
    var w, s := hist[i], steps[i];
    if !ListHasUid(w.s3pas[s.n].versions[s.k][s.m], uid) {
      var a := ListedWasGiven(hist, steps, i, s.n, s.k, s.m, uid);
    } else {
      assert TakenForGone(w, uid);
      if uid !in w.seen.value.born { var p := UnseenCame(hist, steps, i, uid); }
    }
  }

  lemma SoundIsHeeded(hist: seq<World>, steps: seq<Step>, i: nat)
    requires IsRun(hist, steps) && i < |steps| && IsStep(hist[i], steps[i], hist[i + 1])
    ensures Sound(hist[i], steps[i]) <==> Heeded(hist, steps, i)
  {
    if steps[i].Annotate? {
      RunIsSafe(hist, steps, i);
      SoundAnnotation(hist[i], steps[i]);
      if Heeded(hist, steps, i) { HeededServesNobody(hist, steps, i); }
      if ServesNobody(hist[i], steps[i].m) { ServingNobodyIsHeeded(hist, steps, i); }
    }
  }

  /** Every annotated Mountpoint Pod serves only workloads that are gone, all along a run, if and only if every
      annotation heeds what was assigned, and for the cleaner who came, after it was decided. */
  lemma AnnotatedServeNobodyExactlyWhenHeeded(hist: seq<World>, steps: seq<Step>)
    requires IsRun(hist, steps)
    ensures (forall i | 0 <= i <= |steps| :: AnnotatedServeNobody(hist[i])) <==> AllHeeded(hist, steps)
  {
    AnnotatedServeNobodyExactlyInSoundRuns(hist, steps);
    forall i | 0 <= i < |steps|
      ensures IsStep(hist[i], steps[i], hist[i + 1]) && (Sound(hist[i], steps[i]) <==> Heeded(hist, steps, i))
    {
      assert IsStep(hist[i], steps[i], hist[i + 1]);
      SoundIsHeeded(hist, steps, i);
    }
  }
}
