/** StaleExpectationRuns: the cleaner deletes an attachment that is expected, and what may come of it. */
module StaleExpectationRuns {
  import opened Strings
  import opened SharingTuple
  import opened SharingModel
  import opened SharingUniqueness
  import opened KeyCollision
  import opened StaleExpectations

  /** The cleaner lists the Pods, has read the attachment and its Mountpoint Pod from the cache, and annotates the
      Pod. */
  lemma CleanerAnnotates(r: Run, t: Spec) returns (r': Run)
    requires r.Valid() && r.Last().s3pas == [Fresh(t, 0).(cached := Visible(0))]
    requires r.Last().pods == [MpPod(true, false, false, true, Some(0))] && "u" !in r.Last().existing
    ensures r'.Valid()
    ensures var w := r.Last();
      r'.Last() == w.(pods := [w.pods[0].(shown := true, needsUnmount := true)],
                      seen := Some(Reading(w.existing, w.born)))
  {
    r' := Then(Then(r, ShowPod(0)), ReadPods);
    r' := Then(r', Annotate(0, 0, 0, TheCleaner));
  }

  /** Then it deletes the attachment. */
  lemma CleanerDeletes(r: Run, t: Spec) returns (r': Run)
    requires r.Valid() && r.Last().s3pas == [Fresh(t, 0).(cached := Visible(0))]
    requires r.Last().pods == [MpPod(true, true, true, true, Some(0))] && TakenForGone(r.Last(), "u")
    ensures r'.Valid() && r'.Last() == r.Last().(s3pas := [Fresh(t, 0).(cached := Visible(0), live := false)])
  {
    var u := Attachment("u", 0);
    AllOfItCleaned(u);
    assert r.Last().s3pas[0].versions[0] == map[0 := [u]];
    r' := Then(r, Delete(0, 0, AllCleaned({u})));
  }

  lemma AllOfItCleaned(u: Attachment)
    ensures var a: Attachments := map[0 := [u]]; CleanMap(a, {u}) == map[] && a[0][0] in {u}
  {
    assert Without([u], {u}) == [] by { assert [u][1..] == []; }
  }

  /** An attachment is made and expected, the cache shows it, and its only workload goes. */
  lemma ExpectedAndShown(t: Spec) returns (r: Run)
    requires WellFormed(t)
    ensures r.Valid() && Ready(r.Last()) && r.Last().view.Idle? && KeyOf(t) in r.Last().pending && r.Last().used == {t}
    ensures r.Last().s3pas == [Fresh(t, 0).(cached := Visible(0))]
    ensures r.Last().pods == [MpPod(true, false, false, true, Some(0))] && "u" !in r.Last().existing
  {
    r := Creates(Then(Run([INIT], []), Appear("u")), t);
    r := Then(r, Show(0, 0));
    r := Then(r, Vanish("u"));
  }

  /** The cleaner deletes an attachment that the cache shows, but not its expectation, which is then stale for ever. */
  lemma CleanerLeavesStaleExpectation(t: Spec) returns (r: Run)
    requires WellFormed(t)
    ensures r.Valid() && Ready(r.Last()) && Stuck(r.Last(), t) && NoneLive(r.Last(), t) && r.Last().used == {t}
  {
    r := ExpectedAndShown(t);
    r := CleanerAnnotates(r, t);
    r := CleanerDeletes(r, t);
    r := Then(r, Forget(0));
  }

  /** The first attachment of `t` is deleted and dropped, and a second one lives. */
  ghost predicate CreatedAgain(w: World, t: Spec) {
    |w.s3pas| == 2 && !w.s3pas[0].live && IsLiveFor(w, t, 1) && w.used == {t}
  }

  /** The same, but a Reconcile call still finds the deleted attachment in the cache and clears the expectation; so the
      next call creates another one. */
  lemma ClearedExpectationRecovers(t: Spec) returns (broken: Run, r: Run)
    requires WellFormed(t)
    ensures broken.Valid() && Broken(broken.Last(), t)
    ensures r.Valid() && broken.hist <= r.hist && broken.steps <= r.steps && CreatedAgain(r.Last(), t)
  {
    broken := ExpectedAndShown(t);
    broken := CleanerAnnotates(broken, t);
    broken := CleanerDeletes(broken, t);
    r := FoundByACall(broken, t);
    r := NothingLeft(r, t);
    r := CreatesAgain(r, t);
  }

  /** A Reconcile call that finds the deleted attachment in the cache. */
  lemma FoundByACall(r: Run, t: Spec) returns (r': Run)
    requires r.Valid() && Ready(r.Last()) && WellFormed(t) && VisibleFor(r.Last(), t, 0) && |r.Last().s3pas| == 1
    requires !r.Last().s3pas[0].live && r.Last().used == {t}
    ensures r'.Valid() && Ready(r'.Last()) && r.hist <= r'.hist && r.steps <= r'.steps
    ensures r'.Last().s3pas == r.Last().s3pas && KeyOf(t) !in r'.Last().pending && r'.Last().used == {t}
  {
    r' := Then(r, List(t));
    r' := Then(r', Clear(t));
  }

  /** The cache drops it, and the next call finds nothing. */
  lemma NothingLeft(r: Run, t: Spec) returns (r': Run)
    requires r.Valid() && Ready(r.Last()) && WellFormed(t) && |r.Last().s3pas| == 1
    requires !r.Last().s3pas[0].live && KeyOf(t) !in r.Last().pending && r.Last().used == {t}
    ensures r'.Valid() && Ready(r'.Last()) && r.hist <= r'.hist && r.steps <= r'.steps
    ensures r'.Last().view == Absent(t) && KeyOf(t) !in r'.Last().pending && r'.Last().used == {t}
    ensures |r'.Last().s3pas| == 1 && !r'.Last().s3pas[0].live
  {
    r' := Then(r, Forget(0));
    r' := Then(r', List(t));
  }

  lemma CreatesAgain(r: Run, t: Spec) returns (r': Run)
    requires r.Valid() && Ready(r.Last()) && WellFormed(t) && |r.Last().s3pas| == 1 && r.Last().view == Absent(t)
    requires !r.Last().s3pas[0].live && KeyOf(t) !in r.Last().pending && r.Last().used == {t}
    ensures r'.Valid() && r.hist <= r'.hist && r.steps <= r'.steps && CreatedAgain(r'.Last(), t)
  {
    r' := Then(r, Spawn);
    r' := Then(r', Create(t, "u", 0));
  }
}
