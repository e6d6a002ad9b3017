/** Reconciler: the controller's decisions for one volume of one workload, call by call. */
module Controller {
  import opened Strings
  import opened Expectations
  import opened SharingTuple
  import opened SharingModel
  import opened SharingInvariants
  import opened SharingUniqueness
  import opened Removal
  import opened ClusterClient

  /** What a handler returns: no requeue, a requeue without an error, or an error. */
  datatype Result = Done | Requeue | Error

  /** `s3pa` is the current content of a live attachment. */
  ghost predicate IsCurrent(w: World, s3pa: Copy) {
    IsCopy(w, s3pa) && IsLatest(w, s3pa.name, s3pa.version)
  }

  /** Between two Reconcile calls. */
  ghost predicate BetweenCalls(w: World) {
    w.held.None? && ListReady(w)
  }

  /** The cache shows what is there. */
  predicate CaughtUp(w: World) {
    forall n | 0 <= n < |w.s3pas| ::
      w.s3pas[n].cached == if w.s3pas[n].live then Visible(|w.s3pas[n].versions| - 1) else Gone
  }

  /** A handler wants another try without an error if there is a newer version of the attachment, and if no call was
      lost its error is that the attachment is gone. */
  ghost predicate GivesReason(w: World, reliable: bool, r: Result, c: Copy) {
    && c.name < |w.s3pas|
    && (r.Requeue? ==> c.version < |w.s3pas[c.name].versions| - 1)
    && (r.Error? && reliable ==> !w.s3pas[c.name].live)
  }

  lemma ReasonStays(w: World, w': World, reliable: bool, r: Result, c: Copy)
    requires Evolves(w, w') && GivesReason(w, reliable, r, c)
    ensures GivesReason(w', reliable, r, c)
  {
    assert S3paEvolves(w.s3pas[c.name], w'.s3pas[c.name]);
  }

  /** Only attachment `n` may have changed. */
  ghost predicate OnlyChanged(w: World, w': World, n: nat) {
    |w'.s3pas| == |w.s3pas| && forall i | 0 <= i < |w.s3pas| && i != n :: w'.s3pas[i] == w.s3pas[i]
  }

  datatype Lookup = LookupFailed | NothingFound | AttachmentFound(s3pa: Copy)

  /** The running call found an attachment of `t` and has spawned nothing. */
  ghost predicate FoundOne(w: World, t: Spec) {
    (w.view == Present(t) || w.view == Duplicated(t)) && w.held.None?
  }

  /** Nobody is attached meanwhile, and no tuple looked up. */
  ghost predicate NobodyNew(w: World, w': World) {
    w'.attached == w.attached && w'.used == w.used
  }

  /** Nor is anything expected. */
  ghost predicate SameBooks(w: World, w': World) {
    w'.pending == w.pending && NobodyNew(w, w')
  }

  /** No attachment and no Mountpoint Pod has changed. */
  ghost predicate SameObjects(w: World, w': World) {
    w'.s3pas == w.s3pas && w'.pods == w.pods
  }

  /** Only workload `uid` is attached meanwhile, under tuple `t`, and only `t` is looked up. */
  ghost predicate AttachesOnly(w: World, w': World, uid: string, t: Spec) {
    && w'.used <= w.used + {t}
    && forall r | r in w'.attached && r !in w.attached :: r.uid == uid && r.tuple == t
  }

  /** Mountpoint Pod `m` may serve another workload. */
  ghost predicate Suitable(w: World, m: nat) {
    m < |w.pods| && w.pods[m].live && !w.pods[m].needsUnmount && w.pods[m].accepts
  }

  /** The workload exists and is not in the copy. */
  ghost predicate Attachable(w: World, s3pa: Copy, uid: string) {
    IsCopy(w, s3pa) && FoundOne(w, s3pa.spec) && uid in w.born && !HasUid(s3pa.content, uid)
  }

  /** `b` is `a` with one more attachment at the end of the list of Mountpoint Pod `m`. */
  ghost predicate Gains(a: Attachments, b: Attachments, m: nat, uid: string, time: int) {
    b == a[m := (if m in a then a[m] else []) + [Attachment(uid, time)]]
  }

  lemma GainedIsThere(a: Attachments, b: Attachments, m: nat, uid: string, time: int)
    requires Gains(a, b, m, uid, time)
    ensures HasUid(b, uid) && ListedAt(b, uid, time)
  {
    assert b[m][|b[m]| - 1] == Attachment(uid, time);
    assert ListHasUid(b[m], uid);
  }

  /** `b`, a version of the same attachment as `a`, has the workload under Mountpoint Pod `m`. */
  ghost predicate Placed(w: World, a: Copy, b: Copy, m: nat, uid: string, time: int) {
    IsCopy(w, b) && b.name == a.name && b.spec == a.spec && Gains(a.content, b.content, m, uid, time)
  }

  ghost predicate WasListed(w: World, n: nat, uid: string) {
    n < |w.s3pas| && exists v | 0 <= v < |w.s3pas[n].versions| :: HasUid(w.s3pas[n].versions[v], uid)
  }

  /** The workload is listed with that time of attachment. */
  ghost predicate ListedAt(a: Attachments, uid: string, time: int) {
    exists m | m in a :: Attachment(uid, time) in a[m]
  }

  ghost predicate WasListedAt(w: World, n: nat, uid: string, time: int) {
    n < |w.s3pas| && exists v | 0 <= v < |w.s3pas[n].versions| :: ListedAt(w.s3pas[n].versions[v], uid, time)
  }

  /** Some live attachment of tuple `t` lists the workload with that time of attachment. */
  ghost predicate AttachedAt(w: World, t: Spec, uid: string, time: int) {
    exists n: nat :: IsLiveFor(w, t, n) && ListedAt(w.s3pas[n].Latest(), uid, time)
  }

  /** A workload that gets attached is attached with this time. */
  ghost predicate AttachesNow(w: World, w': World, t: Spec, uid: string, time: int) {
    !Attached(w, t, uid) && Attached(w', t, uid) ==> AttachedAt(w', t, uid, time)
  }

  /** Meanwhile an attachment of tuple `t` was created for a Mountpoint Pod that is new as well, with this workload. */
  ghost predicate CreatedFor(w: World, w': World, t: Spec, uid: string, time: int) {
    exists n, m :: |w.s3pas| <= n < |w'.s3pas| && |w.pods| <= m < |w'.pods| && IsJust(w'.s3pas[n], t, m, uid, time)
  }

  /** Some live attachment of tuple `t` lists the workload. */
  ghost predicate Attached(w: World, t: Spec, uid: string) {
    exists n: nat :: IsLiveFor(w, t, n) && HasUid(w.s3pas[n].Latest(), uid)
  }

  /** No expectation of `t` outlived its attachment. */
  ghost predicate NotStale(w: World, t: Spec) {
    KeyOf(t) in w.pending ==> LiveFor(w, t)
  }

  predicate IsPodActive(wl: Workload) {
    wl.phase == Running || (wl.phase == Pending && !wl.terminating)
  }

  function NonEmpty(a: Attachments): Attachments {
    map m | m in a && a[m] != [] :: a[m]
  }

  /** The empty entries outside `todo` have been dropped. */
  ghost predicate PartlyDropped(a: Attachments, b: Attachments, todo: set<nat>) {
    && todo <= b.Keys <= a.Keys
    && (forall m | m in b :: b[m] == a[m])
    && (forall m | m in a && m !in todo :: m in b <==> a[m] != [])
  }

  lemma AllDropped(a: Attachments, b: Attachments)
    requires PartlyDropped(a, b, {})
    ensures b == NonEmpty(a)
  {}

  /** The Mountpoint Pods that an attachment has lost are released. */
  ghost predicate LostOnesReleased(w: World, a: Attachments, b: Attachments) {
    forall m | m in a && m !in b :: Released(w, m)
  }

  lemma LostOnesStayReleased(w: World, w': World, a: Attachments, b: Attachments)
    requires Evolves(w, w') && LostOnesReleased(w, a, b)
    ensures LostOnesReleased(w', a, b)
  {
    forall m | m in a && m !in b ensures Released(w', m) { ReleasedStays(w, w', m); }
  }

  class Reconciler {
    const cluster: Cluster

    constructor (cluster: Cluster)
      ensures this.cluster == cluster
    {
      this.cluster := cluster;
    }

    /******* Expectations *******/

    method IsPending(filters: Filters) returns (pending: bool)
      ensures pending <==> Key(filters) in cluster.w.pending
    {
      var key := DeriveExpectationKeyFromFilters(filters);
      pending := key in cluster.w.pending;
    }

    method SetPending(t: Spec, filters: Filters)
      requires cluster.Valid() && cluster.w.view == Made(t) && filters == FiltersOf(t)
      modifies cluster
      ensures cluster.Valid()
      ensures cluster.w == old(cluster.w).(pending := old(cluster.w.pending) + {Key(filters)}, view := Idle)
    {
      cluster.Take(SharingModel.SetPending(t));
    }

    method ClearPending(t: Spec, filters: Filters)
      requires cluster.Valid() && Enabled(cluster.w, Clear(t)) && filters == FiltersOf(t)
      modifies cluster
      ensures cluster.Valid() && cluster.w == old(cluster.w).(pending := old(cluster.w.pending) - {Key(filters)})
    {
      cluster.Take(Clear(t));
    }

    /** Clears an expectation if there is one. */
    method ClearIfPending(t: Spec, filters: Filters)
      requires cluster.Valid() && Enabled(cluster.w, Clear(t)) && filters == FiltersOf(t)
      modifies cluster
      ensures Evolves(old(cluster.w), cluster.w)
      ensures cluster.Valid() && cluster.w == old(cluster.w).(pending := old(cluster.w.pending) - {Key(filters)})
    {
      var pending := IsPending(filters);
      if pending {
        ClearPending(t, filters);
      } else {
        assert cluster.w.pending - {Key(filters)} == cluster.w.pending;
      }
    }

    /******* A workload that is no longer active *******/

    /** Mountpoint Pod `m` is annotated, or was not found. */
    method AddNeedsUnmountAnnotation(me: Actor, s3pa: Copy, m: nat) returns (ok: bool, ghost read: PodRead)
      requires cluster.Valid() && IsVersion(cluster.w, s3pa) && m < |cluster.w.pods|
      requires AnnotateAllowed(cluster.w, s3pa.name, s3pa.version, m, me)
      requires cluster.quiet ==>
        && IsLatest(cluster.w, s3pa.name, s3pa.version)
        && (me == TheCleaner ==> cluster.w.seen.value.born == cluster.w.born)
      modifies cluster
      ensures cluster.Valid() && Evolves(old(cluster.w), cluster.w)
      ensures me == TheReconciler ==> Others(old(cluster.w), cluster.w)
      ensures me == TheCleaner ==> cluster.w.seen == old(cluster.w.seen)
      ensures cluster.quiet ==> cluster.w.s3pas == old(cluster.w.s3pas) && Calm(old(cluster.w), cluster.w)
      ensures cluster.quiet ==> cluster.w.seen == old(cluster.w.seen)
      ensures ok ==> Released(cluster.w, m)
      ensures match read
        case Found(_) => ok ==> cluster.w.pods[m].needsUnmount
        case Missing => ok && m in cluster.w.missed
        case ReadFailed => !ok
      ensures cluster.quiet && cluster.reliable ==> ok
    {
      var r := cluster.GetPod(me, m);
      read := r;
      if r.Missing? {
        NotFoundIsNoted(me, m);
        return true, read;
      }
      if r.ReadFailed? { return false, read; }
      VersionsStay(old(cluster.w), cluster.w, s3pa);
      AnnotateStaysAllowed(old(cluster.w), cluster.w, s3pa, m, me);
      ghost var before := cluster.w;
      var o := cluster.UpdatePodNeedsUnmount(me, s3pa, m);
      EvolvesTransitive(old(cluster.w), before, cluster.w);
      ok := o.Ok?;
    }

    method NotFoundIsNoted(me: Actor, m: nat)
      requires cluster.Valid() && Enabled(cluster.w, ReadMissing(m, me))
      requires cluster.quiet ==> !cluster.w.pods[m].live
      modifies cluster
      ensures cluster.Valid() && cluster.w == old(cluster.w).(missed := old(cluster.w.missed) + {m})
    {
      cluster.Take(ReadMissing(m, me));
    }

    /** The first loop: edits the entry that has the workload, and writes it back. */
    method RemoveUid(s3pa0: Copy, uid: string) returns (r: Result, s3pa: Copy)
      requires cluster.Valid() && IsCopy(cluster.w, s3pa0) && FoundOne(cluster.w, s3pa0.spec)
      requires cluster.quiet ==> IsCurrent(cluster.w, s3pa0)
      modifies cluster
      ensures cluster.Valid() && FoundOne(cluster.w, s3pa0.spec) && SameBooks(old(cluster.w), cluster.w)
      ensures Evolves(old(cluster.w), cluster.w)
      ensures r.Done? ==> IsCopy(cluster.w, s3pa) && s3pa.name == s3pa0.name && s3pa.spec == s3pa0.spec
      ensures r.Done? ==> s3pa.content == WithoutUidMap(s3pa0.content, uid)
      ensures GivesReason(cluster.w, cluster.reliable, r, s3pa0)
      ensures cluster.quiet && r.Done? ==> IsCurrent(cluster.w, s3pa)
      ensures cluster.quiet && cluster.reliable ==> r.Done?
      ensures cluster.quiet ==> OnlyChanged(old(cluster.w), cluster.w, s3pa0.name)
    {
      s3pa := s3pa0;
      CopyIsUnique(cluster.w, cluster.run, s3pa0);
      var todo := s3pa.content.Keys;
      while todo != {}
        invariant cluster.Valid() && cluster.w == old(cluster.w)
        invariant s3pa == s3pa0 && todo <= s3pa0.content.Keys
        invariant forall m | m in s3pa0.content.Keys - todo :: !ListHasUid(s3pa0.content[m], uid)
        decreases todo
      {
        var m :| m in todo;
        var filtered, found := FilterOut(s3pa.content[m], uid);
        if found {
          OneEntryIsEnough(s3pa0.content, m, uid);
          r, s3pa := WriteWithout(s3pa0, m, uid, filtered);
          return;
        }
        todo := todo - {m};
      }
      assert !HasUid(s3pa0.content, uid);
      NothingToRemove(s3pa0.content, uid);
      r := Done;
    }

    /** Writes back the entry without the workload. */
    method WriteWithout(s3pa0: Copy, m: nat, uid: string, filtered: seq<Attachment>) returns (r: Result, s3pa: Copy)
      requires cluster.Valid() && IsCopy(cluster.w, s3pa0) && FoundOne(cluster.w, s3pa0.spec)
      requires cluster.quiet ==> IsCurrent(cluster.w, s3pa0)
      requires m in s3pa0.content && filtered == WithoutUid(s3pa0.content[m], uid)
      modifies cluster
      ensures cluster.Valid() && FoundOne(cluster.w, s3pa0.spec) && SameBooks(old(cluster.w), cluster.w)
      ensures Evolves(old(cluster.w), cluster.w)
      ensures r.Done? ==> IsCopy(cluster.w, s3pa) && s3pa.name == s3pa0.name && s3pa.spec == s3pa0.spec
      ensures r.Done? ==> s3pa.content == s3pa0.content[m := filtered]
      ensures GivesReason(cluster.w, cluster.reliable, r, s3pa0)
      ensures cluster.quiet && r.Done? ==> IsCurrent(cluster.w, s3pa)
      ensures cluster.quiet && cluster.reliable ==> r.Done?
      ensures cluster.quiet ==> OnlyChanged(old(cluster.w), cluster.w, s3pa0.name)
    {
      s3pa := s3pa0.(content := s3pa0.content[m := filtered]);
      var o;
      o, s3pa := cluster.UpdateAttachment(TheReconciler, s3pa, Remove(m, uid));
      r := if o.Ok? then Done else if o.Conflict? then Requeue else Error;
    }

    /** The second loop: annotates each Mountpoint Pod that serves nobody, then drops its entry. */
    method DropEmptyPods(s3pa0: Copy) returns (r: Result, s3pa: Copy)
      requires cluster.Valid() && IsCopy(cluster.w, s3pa0) && FoundOne(cluster.w, s3pa0.spec)
      requires cluster.quiet ==> IsCurrent(cluster.w, s3pa0)
      modifies cluster
      ensures cluster.Valid() && FoundOne(cluster.w, s3pa0.spec) && SameBooks(old(cluster.w), cluster.w)
      ensures Evolves(old(cluster.w), cluster.w)
      ensures r.Done? ==> IsCopy(cluster.w, s3pa) && s3pa.name == s3pa0.name && s3pa.spec == s3pa0.spec
      ensures r.Done? ==> s3pa.content == NonEmpty(s3pa0.content)
      ensures r.Done? ==> forall m | m in s3pa0.content && m !in s3pa.content :: Released(cluster.w, m)
      ensures cluster.quiet && r.Done? ==> IsCurrent(cluster.w, s3pa)
      ensures cluster.quiet && cluster.reliable ==> r.Done?
      ensures cluster.quiet ==> OnlyChanged(old(cluster.w), cluster.w, s3pa0.name)
    {
      s3pa := s3pa0;
      var todo := s3pa.content.Keys;
      while todo != {}
        invariant cluster.Valid() && FoundOne(cluster.w, s3pa0.spec) && SameBooks(old(cluster.w), cluster.w)
        invariant Evolves(old(cluster.w), cluster.w)
        invariant IsCopy(cluster.w, s3pa) && s3pa.name == s3pa0.name && s3pa.spec == s3pa0.spec
        invariant PartlyDropped(s3pa0.content, s3pa.content, todo)
        invariant LostOnesReleased(cluster.w, s3pa0.content, s3pa.content)
        invariant cluster.quiet ==> IsCurrent(cluster.w, s3pa) && OnlyChanged(old(cluster.w), cluster.w, s3pa0.name)
        decreases todo
      {
        var m :| m in todo;
        if s3pa.content[m] == [] {
          ghost var before, content := cluster.w, s3pa.content;
          ghost var annotated;
          r, s3pa, annotated := DropEmptyPod(s3pa, m);
          EvolvesTransitive(old(cluster.w), before, cluster.w);
          if !r.Done? { return; }
          LostOnesStayReleased(before, cluster.w, s3pa0.content, content);
        }
        todo := todo - {m};
      }
      AllDropped(s3pa0.content, s3pa.content);
      r := Done;
    }

    method DropEmptyPod(s3pa0: Copy, m: nat) returns (r: Result, s3pa: Copy, ghost annotated: bool)
      requires cluster.Valid() && IsCopy(cluster.w, s3pa0) && FoundOne(cluster.w, s3pa0.spec)
      requires cluster.quiet ==> IsCurrent(cluster.w, s3pa0)
      requires m in s3pa0.content && s3pa0.content[m] == []
      modifies cluster
      ensures cluster.Valid() && FoundOne(cluster.w, s3pa0.spec) && SameBooks(old(cluster.w), cluster.w)
      ensures Evolves(old(cluster.w), cluster.w)
      ensures r.Done? ==> IsCopy(cluster.w, s3pa) && s3pa.name == s3pa0.name && s3pa.spec == s3pa0.spec
      ensures r.Done? ==> s3pa.content == s3pa0.content - {m} && Released(cluster.w, m)
      ensures if annotated then GivesReason(cluster.w, cluster.reliable, r, s3pa0) else r.Error?
      ensures cluster.quiet && r.Done? ==> IsCurrent(cluster.w, s3pa)
      ensures cluster.quiet && cluster.reliable ==> r.Done?
      ensures cluster.quiet ==> OnlyChanged(old(cluster.w), cluster.w, s3pa0.name)
    {
      s3pa := s3pa0;
      CopyIsUnique(cluster.w, cluster.run, s3pa0);
      var ok;
      ghost var read;
      ok, read := AddNeedsUnmountAnnotation(TheReconciler, s3pa0, m);
      annotated := ok;
      if !ok { return Error, s3pa, annotated; }
      VersionsStay(old(cluster.w), cluster.w, s3pa0);
      ghost var before := cluster.w;
      s3pa := s3pa.(content := s3pa.content - {m});
      var o;
      o, s3pa := cluster.UpdateAttachment(TheReconciler, s3pa, DropEmpty(m));
      EvolvesTransitive(old(cluster.w), before, cluster.w);
      if o.Ok? { ReleasedStays(before, cluster.w, m); }
      r := if o.Ok? then Done else if o.Conflict? then Requeue else Error;
    }

    /** Deletes an attachment that is left without Mountpoint Pods, and forgets its expectation. */
    method DeleteIfEmpty(s3pa: Copy, filters: Filters) returns (r: Result)
      requires cluster.Valid() && IsCopy(cluster.w, s3pa) && FoundOne(cluster.w, s3pa.spec)
      requires cluster.quiet ==> IsCurrent(cluster.w, s3pa)
      requires filters == FiltersOf(s3pa.spec)
      modifies cluster
      ensures cluster.Valid() && cluster.w.held.None? && ListReady(cluster.w)
      ensures Evolves(old(cluster.w), cluster.w) && IsCopy(cluster.w, s3pa) && NobodyNew(old(cluster.w), cluster.w)
      ensures r.Done? && s3pa.content == map[] ==>
        !cluster.w.s3pas[s3pa.name].live && KeyOf(s3pa.spec) !in cluster.w.pending
      ensures s3pa.content != map[] ==> r.Done? && cluster.w == old(cluster.w)
      ensures cluster.quiet && cluster.reliable ==> r.Done?
      ensures cluster.quiet ==> OnlyChanged(old(cluster.w), cluster.w, s3pa.name)
    {
      if |s3pa.content| != 0 { return Done; }
      assert s3pa.content == map[];
      r := DeleteEmptied(s3pa);
      if !r.Done? { return; }
      ghost var before := cluster.w;
      ClearIfPending(s3pa.spec, filters);
      EvolvesTransitive(old(cluster.w), before, cluster.w);
    }

    method DeleteEmptied(s3pa: Copy) returns (r: Result)
      requires cluster.Valid() && IsCopy(cluster.w, s3pa) && FoundOne(cluster.w, s3pa.spec) && s3pa.content == map[]
      requires cluster.quiet ==> IsCurrent(cluster.w, s3pa)
      modifies cluster
      ensures cluster.Valid() && cluster.w.held.None? && Evolves(old(cluster.w), cluster.w) && IsCopy(cluster.w, s3pa)
      ensures NobodyNew(old(cluster.w), cluster.w)
      ensures r.Done? ==> cluster.w.view == Deleted(s3pa.spec) && !cluster.w.s3pas[s3pa.name].live
      ensures !r.Done? ==> ListReady(cluster.w)
      ensures GivesReason(cluster.w, cluster.reliable, r, s3pa)
      ensures cluster.quiet && cluster.reliable ==> r.Done?
      ensures cluster.quiet ==> OnlyChanged(old(cluster.w), cluster.w, s3pa.name)
    {
      var o := cluster.DeleteAttachment(TheReconciler, s3pa, NowEmpty);
      VersionsStay(old(cluster.w), cluster.w, s3pa);
      r := if o.Ok? then Done else if o.Conflict? then Requeue else Error;
    }

    method RemoveWorkloadFromS3PodAttachment(s3pa0: Copy, uid: string, filters: Filters)
      returns (r: Result, ghost final: Copy)
      requires cluster.Valid() && IsCopy(cluster.w, s3pa0) && FoundOne(cluster.w, s3pa0.spec)
      requires cluster.quiet ==> IsCurrent(cluster.w, s3pa0)
      requires filters == FiltersOf(s3pa0.spec)
      modifies cluster
      ensures cluster.Valid() && cluster.w.held.None? && ListReady(cluster.w)
      ensures Evolves(old(cluster.w), cluster.w) && NobodyNew(old(cluster.w), cluster.w)
      // a call that reports success has written exactly the old map without that workload
      ensures r.Done? ==>
        IsCopy(cluster.w, final) && final.name == s3pa0.name && final.content == Removed(s3pa0.content, uid)
      // whatever entry is gone was released first
      ensures r.Done? ==> forall m | m in s3pa0.content && m !in final.content :: Released(cluster.w, m)
      // and the attachment is deleted iff nothing remains
      ensures r.Done? && final.content == map[] ==> !cluster.w.s3pas[s3pa0.name].live
      ensures cluster.quiet && r.Done? && final.content != map[] ==> IsCurrent(cluster.w, final)
      ensures cluster.quiet && cluster.reliable ==> r.Done?
      ensures cluster.quiet ==> OnlyChanged(old(cluster.w), cluster.w, s3pa0.name)
    {
      var s3pa;
      r, s3pa := RemoveUid(s3pa0, uid);
      final := s3pa;
      if !r.Done? { return; }
      ghost var kept := s3pa.content;
      ghost var afterFirst := cluster.w;
      r, s3pa := DropEmptyPods(s3pa);
      EvolvesTransitive(old(cluster.w), afterFirst, cluster.w);
      final := s3pa;
      if !r.Done? { return; }
      assert NonEmpty(kept) == Removed(s3pa0.content, uid);
      ghost var afterSecond := cluster.w;
      r := DeleteIfEmpty(s3pa, filters);
      EvolvesTransitive(old(cluster.w), afterSecond, cluster.w);
      forall m | Released(afterSecond, m) ensures Released(cluster.w, m) { ReleasedStays(afterSecond, cluster.w, m); }
    }

    /******* Looking up the attachment of a tuple *******/

    /** Deletes duplicates without Mountpoint Pods; the survivor, if there is just one, is returned. */
    method RecoverFromDuplicateS3PodAttachments(items: seq<Copy>, t: Spec, filters: Filters) returns (r: Lookup)
      requires cluster.Valid() && cluster.w.view == Duplicated(t) && cluster.w.held.None? && filters == FiltersOf(t)
      requires |items| >= 2 && forall i | 0 <= i < |items| :: IsCopy(cluster.w, items[i]) && items[i].spec == t
      requires forall i, j | 0 <= i < j < |items| :: items[i].name != items[j].name
      requires cluster.quiet ==> forall i | 0 <= i < |items| :: IsCurrent(cluster.w, items[i])
      modifies cluster
      ensures cluster.Valid() && cluster.w.view == Duplicated(t)
      ensures cluster.w.held.None? && Evolves(old(cluster.w), cluster.w)
      ensures NobodyNew(old(cluster.w), cluster.w)
      ensures r.AttachmentFound? ==>
        && IsCopy(cluster.w, r.s3pa) && r.s3pa in items && r.s3pa.content != map[]
        && (forall i | 0 <= i < |items| && items[i].content != map[] :: items[i] == r.s3pa)
      ensures r.AttachmentFound? && cluster.quiet ==> IsCurrent(cluster.w, r.s3pa)
      ensures r.NothingFound? ==> Key(filters) !in cluster.w.pending
      ensures r.NothingFound? ==> forall i | 0 <= i < |items| :: items[i].content == map[]
      ensures !r.LookupFailed? ==>
        forall i | 0 <= i < |items| && items[i].content == map[] ::
          IsVersion(cluster.w, items[i]) && !cluster.w.s3pas[items[i].name].live
      ensures r.AttachmentFound? ==> SameBooks(old(cluster.w), cluster.w)
      // it gives up on two with Mountpoint Pods, and otherwise only if a delete fails
      ensures TwoWithPods(items) ==> r.LookupFailed? && cluster.w == old(cluster.w)
      ensures cluster.quiet && cluster.reliable && r.LookupFailed? ==> TwoWithPods(items)
    {
      var withPods, noPods := SplitDuplicates(items);
      TwoOfThem(items, withPods);
      if |withPods| > 1 { return LookupFailed; }
      var ok := DeleteDuplicates(noPods, t);
      if !ok { return LookupFailed; }
      forall i | 0 <= i < |items| ensures IsVersion(cluster.w, items[i]) {
        VersionsStay(old(cluster.w), cluster.w, items[i]);
      }
      if |withPods| == 1 {
        assert withPods[0] in items;
        VersionsStay(old(cluster.w), cluster.w, withPods[0]);
        assert forall x | x in noPods :: x in items && x.name != withPods[0].name;
        return AttachmentFound(withPods[0]);
      }
      assert forall i | 0 <= i < |items| :: items[i].content != map[] ==> items[i] in withPods;
      assert items[0] in noPods;
      if |noPods| > 0 {
        ClearIfPending(t, filters);
      }
      r := NothingFound;
    }

    method DeleteDuplicates(noPods: seq<Copy>, t: Spec) returns (ok: bool)
      requires cluster.Valid() && cluster.w.view == Duplicated(t) && cluster.w.held.None?
      requires forall i | 0 <= i < |noPods| ::
        IsCopy(cluster.w, noPods[i]) && noPods[i].spec == t && noPods[i].content == map[]
      requires forall i, j | 0 <= i < j < |noPods| :: noPods[i].name != noPods[j].name
      requires cluster.quiet ==> forall i | 0 <= i < |noPods| :: IsCurrent(cluster.w, noPods[i])
      modifies cluster
      ensures cluster.Valid() && cluster.w.view == Duplicated(t) && cluster.w.held.None?
      ensures Evolves(old(cluster.w), cluster.w) && SameBooks(old(cluster.w), cluster.w)
      ensures ok ==>
        forall i | 0 <= i < |noPods| :: noPods[i].name < |cluster.w.s3pas| && !cluster.w.s3pas[noPods[i].name].live
      ensures cluster.quiet && cluster.reliable ==> ok
      ensures cluster.quiet ==> |cluster.w.s3pas| == |old(cluster.w).s3pas|
      ensures cluster.quiet ==>
        forall n | 0 <= n < |old(cluster.w).s3pas| && (forall i | 0 <= i < |noPods| :: noPods[i].name != n) ::
          cluster.w.s3pas[n] == old(cluster.w).s3pas[n]
    {
      for i := 0 to |noPods|
        invariant cluster.Valid() && cluster.w.view == Duplicated(t) && cluster.w.held.None?
        invariant Evolves(old(cluster.w), cluster.w) && SameBooks(old(cluster.w), cluster.w)
        invariant forall j | 0 <= j < i :: noPods[j].name < |cluster.w.s3pas| && !cluster.w.s3pas[noPods[j].name].live
        invariant cluster.quiet ==> |cluster.w.s3pas| == |old(cluster.w).s3pas|
        invariant cluster.quiet ==>
          forall n | 0 <= n < |old(cluster.w).s3pas| && (forall j | 0 <= j < i :: noPods[j].name != n) ::
            cluster.w.s3pas[n] == old(cluster.w).s3pas[n]
      {
        VersionsStay(old(cluster.w), cluster.w, noPods[i]);
        ghost var before := cluster.w;
        var o := cluster.DeleteAttachment(TheReconciler, noPods[i], EmptyDuplicate);
        EvolvesTransitive(old(cluster.w), before, cluster.w);
        if !o.Ok? { return false; }
        forall j | 0 <= j < i ensures noPods[j].name < |cluster.w.s3pas| && !cluster.w.s3pas[noPods[j].name].live {
          assert S3paEvolves(before.s3pas[noPods[j].name], cluster.w.s3pas[noPods[j].name]);
        }
      }
      ok := true;
    }

    method GetExistingS3PodAttachment(t: Spec, filters: Filters) returns (r: Lookup)
      requires cluster.Valid() && BetweenCalls(cluster.w) && WellFormed(t) && filters == FiltersOf(t)
      requires cluster.quiet ==> CaughtUp(cluster.w)
      modifies cluster
      ensures cluster.Valid() && BetweenCalls(cluster.w) && Evolves(old(cluster.w), cluster.w)
      ensures cluster.w.attached == old(cluster.w.attached) && cluster.w.used <= old(cluster.w.used) + {t}
      ensures r.NothingFound? ==>
        cluster.w.view == Absent(t) || (cluster.w.view == Duplicated(t) && KeyOf(t) !in cluster.w.pending)
      ensures r.AttachmentFound? ==> FoundOne(cluster.w, t) && IsCopy(cluster.w, r.s3pa) && r.s3pa.spec == t
      ensures r.AttachmentFound? && cluster.quiet ==> IsCurrent(cluster.w, r.s3pa)
      // on current reads of a cluster without duplicates, the lookup is right
      ensures cluster.quiet && cluster.reliable && UniqueLive(old(cluster.w)) ==>
        && cluster.w == Apply(old(cluster.w), List(t))
        && (if LiveFor(old(cluster.w), t) then r.AttachmentFound? else r.NothingFound?)
    {
      var ok, items := cluster.ListMatching(filters, t);
      if !ok { return LookupFailed; }
      if cluster.quiet {
        CaughtUpReads(old(cluster.w), t, items);
        CaughtUpView(old(cluster.w), t);
      }
      if |items| == 0 { return NothingFound; }
      if |items| == 1 { return AttachmentFound(items[0]); }
      ghost var before := cluster.w;
      r := RecoverFromDuplicateS3PodAttachments(items, t, filters);
      EvolvesTransitive(old(cluster.w), before, cluster.w);
    }

    /******* An active workload *******/

    /** The first suitable Mountpoint Pod, in whatever order the map is iterated. */
    method FindSuitablePod(s3pa: Copy) returns (ok: bool, choice: Option<nat>)
      requires cluster.Valid() && IsCopy(cluster.w, s3pa) && FoundOne(cluster.w, s3pa.spec)
      modifies cluster
      ensures cluster.Valid() && Others(old(cluster.w), cluster.w)
      ensures cluster.quiet ==> cluster.w == old(cluster.w)
      ensures choice.Some? ==> ok && choice.value in s3pa.content
      // it was read in some state in which it took workloads, and on current reads it takes them
      ensures !cluster.quiet && choice.Some? ==>
        exists pod :: cluster.WasPod(choice.value, pod) && !pod.needsUnmount && pod.accepts
      ensures cluster.quiet && choice.Some? ==> Suitable(cluster.w, choice.value)
      ensures cluster.quiet && ok && choice.None? ==> forall m | m in s3pa.content :: !Suitable(cluster.w, m)
      ensures cluster.reliable ==> ok
    {
      var todo := s3pa.content.Keys;
      while todo != {}
        invariant cluster.Valid() && Others(old(cluster.w), cluster.w) && todo <= s3pa.content.Keys
        invariant cluster.quiet ==> cluster.w == old(cluster.w)
        invariant cluster.quiet ==> forall m | m in s3pa.content.Keys - todo :: !Suitable(cluster.w, m)
        decreases todo
      {
        var m :| m in todo;
        ghost var before := cluster.w;
        var r := cluster.GetPod(TheReconciler, m);
        EvolvesTransitive(old(cluster.w), before, cluster.w);
        if r.ReadFailed? { return false, None; }
        if r.Found? && !r.pod.needsUnmount && r.pod.accepts { return true, Some(m); }
        todo := todo - {m};
      }
      ok, choice := true, None;
    }

    /** Assigns the workload to a suitable Mountpoint Pod `m`; `placed` is false if there is none. */
    method AssignWorkloadToAnExistingMountpointPod(s3pa0: Copy, uid: string, time: int)
      returns (placed: bool, r: Result, s3pa: Copy, ghost m: nat)
      requires Attachable(cluster.w, s3pa0, uid) && cluster.Valid()
      requires cluster.quiet ==> IsCurrent(cluster.w, s3pa0)
      modifies cluster
      ensures cluster.Valid() && FoundOne(cluster.w, s3pa0.spec) && Evolves(old(cluster.w), cluster.w)
      ensures cluster.w.pending == old(cluster.w.pending) && AttachesOnly(old(cluster.w), cluster.w, uid, s3pa0.spec)
      ensures placed && r.Done? ==> Placed(cluster.w, s3pa0, s3pa, m, uid, time) && m in s3pa0.content
      ensures GivesReason(cluster.w, cluster.reliable, r, s3pa0)
      ensures cluster.quiet && placed && r.Done? ==> IsCurrent(cluster.w, s3pa) && Suitable(old(cluster.w), m)
      ensures cluster.quiet && !placed ==> cluster.w == old(cluster.w)
      ensures cluster.quiet && !placed ==> forall m' | m' in s3pa0.content :: !Suitable(cluster.w, m')
      ensures cluster.quiet && cluster.reliable && placed ==> r.Done?
    {
      s3pa, m := s3pa0, 0;
      var ok, choice := FindSuitablePod(s3pa0);
      if !ok { return true, Error, s3pa, m; }
      if choice.None? { return false, Done, s3pa, m; }
      var chosen := choice.value;
      m := chosen;
      VersionsStay(old(cluster.w), cluster.w, s3pa0);
      ghost var before := cluster.w;
      s3pa := s3pa.(content := s3pa.content[chosen := s3pa.content[chosen] + [Attachment(uid, time)]]);
      assert Gains(s3pa0.content, s3pa.content, m, uid, time);
      var o;
      o, s3pa := cluster.UpdateAttachment(TheReconciler, s3pa, Assign(chosen, uid, time, s3pa.spec));
      EvolvesTransitive(old(cluster.w), before, cluster.w);
      placed, r := true, if o.Ok? then Done else if o.Conflict? then Requeue else Error;
    }

    /** Spawns Mountpoint Pod `m` and enters it with the workload, or takes it back. */
    method AddNewMountpointPod(s3pa0: Copy, uid: string, time: int) returns (r: Result, s3pa: Copy, ghost m: nat)
      requires Attachable(cluster.w, s3pa0, uid) && cluster.Valid()
      requires cluster.quiet ==> IsCurrent(cluster.w, s3pa0)
      modifies cluster
      ensures cluster.Valid() && FoundOne(cluster.w, s3pa0.spec) && Evolves(old(cluster.w), cluster.w)
      ensures cluster.w.pending == old(cluster.w.pending) && AttachesOnly(old(cluster.w), cluster.w, uid, s3pa0.spec)
      ensures r.Done? ==>
        Placed(cluster.w, s3pa0, s3pa, m, uid, time) && m !in s3pa0.content && |old(cluster.w).pods| <= m
      ensures GivesReason(cluster.w, cluster.reliable, r, s3pa0)
      ensures cluster.quiet && r.Done? ==> IsCurrent(cluster.w, s3pa)
      ensures cluster.quiet && cluster.reliable ==> r.Done?
    {
      s3pa, m := s3pa0, 0;
      var mpPod := cluster.CreatePod();
      if mpPod.None? {
        VersionsStay(old(cluster.w), cluster.w, s3pa0);
        return Error, s3pa, m;
      }
      m := mpPod.value;
      VersionsStay(old(cluster.w), cluster.w, s3pa0);
      HeldIsNew(cluster.w, cluster.run, s3pa0);
      ghost var before := cluster.w;
      r, s3pa := EnterSpawnedPod(s3pa0, mpPod.value, uid, time);
      EvolvesTransitive(old(cluster.w), before, cluster.w);
    }

    /** Enters the Mountpoint Pod that was just spawned, or takes it back. */
    method EnterSpawnedPod(s3pa0: Copy, mpPod: nat, uid: string, time: int) returns (r: Result, s3pa: Copy)
      requires cluster.Valid() && IsCopy(cluster.w, s3pa0) && uid in cluster.w.born && !HasUid(s3pa0.content, uid)
      requires cluster.w.view == Present(s3pa0.spec) || cluster.w.view == Duplicated(s3pa0.spec)
      requires cluster.w.held == Some(mpPod) && mpPod < |cluster.w.pods| && mpPod !in s3pa0.content
      requires cluster.quiet ==> IsCurrent(cluster.w, s3pa0)
      modifies cluster
      ensures cluster.Valid() && FoundOne(cluster.w, s3pa0.spec) && Evolves(old(cluster.w), cluster.w)
      ensures cluster.w.pending == old(cluster.w.pending) && AttachesOnly(old(cluster.w), cluster.w, uid, s3pa0.spec)
      ensures r.Done? ==> Placed(cluster.w, s3pa0, s3pa, mpPod, uid, time)
      ensures GivesReason(cluster.w, cluster.reliable, r, s3pa0)
      ensures cluster.quiet && r.Done? ==> IsCurrent(cluster.w, s3pa)
      ensures cluster.quiet && cluster.reliable ==> r.Done?
    {
      s3pa := s3pa0.(content := s3pa0.content[mpPod := [Attachment(uid, time)]]);
      assert [] + [Attachment(uid, time)] == [Attachment(uid, time)];
      assert Gains(s3pa0.content, s3pa.content, mpPod, uid, time);
      var o;
      o, s3pa := cluster.UpdateAttachment(TheReconciler, s3pa, AddNew(uid, time, s3pa.spec));
      if o.Ok? { return Done, s3pa; }
      ghost var before := cluster.w;
      var _ := cluster.DeleteSpawnedPod();
      EvolvesTransitive(old(cluster.w), before, cluster.w);
      r := if o.Conflict? then Requeue else Error;
      ReasonStays(before, cluster.w, cluster.reliable, r, s3pa0);
    }

    /** A suitable Mountpoint Pod is shared; only if there is none, a new one is spawned. */
    method AddWorkloadToS3PodAttachment(s3pa0: Copy, uid: string, time: int)
      returns (r: Result, ghost s3pa: Copy, ghost m: nat)
      requires Attachable(cluster.w, s3pa0, uid) && cluster.Valid()
      requires cluster.quiet ==> IsCurrent(cluster.w, s3pa0)
      modifies cluster
      ensures cluster.Valid() && FoundOne(cluster.w, s3pa0.spec) && cluster.w.pending == old(cluster.w.pending)
      ensures AttachesOnly(old(cluster.w), cluster.w, uid, s3pa0.spec)
      ensures r.Done? ==> Placed(cluster.w, s3pa0, s3pa, m, uid, time)
      ensures GivesReason(cluster.w, cluster.reliable, r, s3pa0)
      ensures cluster.quiet && r.Done? ==> IsCurrent(cluster.w, s3pa)
      ensures cluster.quiet && r.Done? ==>
        if exists m' :: m' in s3pa0.content && Suitable(old(cluster.w), m')
        then m in s3pa0.content && Suitable(old(cluster.w), m)
        else m !in s3pa0.content
      ensures cluster.quiet && cluster.reliable ==> r.Done?
    {
      var placed, copy;
      placed, r, copy, m := AssignWorkloadToAnExistingMountpointPod(s3pa0, uid, time);
      if !placed {
        ghost var before := cluster.w;
        VersionsStay(old(cluster.w), before, s3pa0);
        r, copy, m := AddNewMountpointPod(s3pa0, uid, time);
      }
      s3pa := copy;
    }

    /** What was looked up is at hand. */
    ghost predicate LookedUp(lookup: Lookup, t: Spec)
      reads cluster
    {
      && (lookup.AttachmentFound? ==>
            && IsCopy(cluster.w, lookup.s3pa) && lookup.s3pa.spec == t && FoundOne(cluster.w, t)
            && (cluster.quiet ==> IsCurrent(cluster.w, lookup.s3pa)))
      && (lookup.NothingFound? ==>
            && (cluster.w.view == Absent(t) || (cluster.w.view == Duplicated(t) && KeyOf(t) !in cluster.w.pending))
            && cluster.w.held.None?)
    }

    /** A workload that is not active leaves the attachment that was found for it, if there was one. */
    method HandleInactivePod(t: Spec, lookup: Lookup, uid: string, filters: Filters) returns (r: Result)
      requires cluster.Valid() && LookedUp(lookup, t) && !lookup.LookupFailed? && filters == FiltersOf(t)
      modifies cluster
      ensures cluster.Valid() && BetweenCalls(cluster.w) && NobodyNew(old(cluster.w), cluster.w)
      ensures lookup.NothingFound? ==> r.Done? && cluster.w == old(cluster.w)
      ensures cluster.quiet && cluster.reliable ==> r.Done?
      ensures cluster.quiet && r.Done? && UniqueLive(old(cluster.w)) ==>
        lookup.AttachmentFound? || !LiveFor(old(cluster.w), t) ==> !Attached(cluster.w, t, uid)
    {
      if lookup.NothingFound? {
        if !LiveFor(cluster.w, t) { NotLiveNotAttached(cluster.w, cluster.w, t, uid); }
        return Done;
      }
      ghost var final;
      r, final := RemoveWorkloadFromS3PodAttachment(lookup.s3pa, uid, filters);
      if cluster.quiet && r.Done? && UniqueLive(old(cluster.w)) {
        RemovedMeansDetached(old(cluster.w), cluster.w, lookup.s3pa, final, uid);
      }
    }

    method HandleExistingS3PodAttachment(s3pa: Copy, uid: string, time: int, filters: Filters) returns (r: Result)
      requires cluster.Valid() && IsCopy(cluster.w, s3pa) && FoundOne(cluster.w, s3pa.spec) && uid in cluster.w.born
      requires cluster.quiet ==> IsCurrent(cluster.w, s3pa)
      requires filters == FiltersOf(s3pa.spec)
      modifies cluster
      ensures cluster.Valid() && BetweenCalls(cluster.w) && AttachesOnly(old(cluster.w), cluster.w, uid, s3pa.spec)
      // the expectation has come true
      ensures cluster.w.pending == old(cluster.w.pending) - {KeyOf(s3pa.spec)}
      // success means that some version of the attachment has the workload, and on current reads the last one
      ensures r.Done? ==> WasListed(cluster.w, s3pa.name, uid)
      ensures GivesReason(cluster.w, cluster.reliable, r, s3pa)
      ensures r.Done? && !HasUid(s3pa.content, uid) ==> WasListedAt(cluster.w, s3pa.name, uid, time)
      ensures cluster.quiet && r.Done? ==> Attached(cluster.w, s3pa.spec, uid)
      ensures cluster.quiet && r.Done? && !HasUid(s3pa.content, uid) ==> AttachedAt(cluster.w, s3pa.spec, uid, time)
      ensures cluster.quiet && cluster.reliable ==> r.Done?
    {
      ClearIfPending(s3pa.spec, filters);
      if HasUid(s3pa.content, uid) {
        if cluster.quiet { assert IsLiveFor(cluster.w, s3pa.spec, s3pa.name); }
        return Done;
      }
      ghost var copy, m;
      r, copy, m := AddWorkloadToS3PodAttachment(s3pa, uid, time);
      if r.Done? {
        GainedIsThere(s3pa.content, copy.content, m, uid, time);
        if cluster.quiet { assert IsLiveFor(cluster.w, s3pa.spec, copy.name); }
      }
    }

    method CreateS3PodAttachmentWithMPPod(t: Spec, uid: string, time: int) returns (ok: bool)
      requires cluster.Valid() && WellFormed(t) && KeyOf(t) !in cluster.w.pending && uid in cluster.w.born
      requires (cluster.w.view == Absent(t) || cluster.w.view == Duplicated(t)) && cluster.w.held.None?
      modifies cluster
      ensures cluster.Valid() && cluster.w.held.None? && cluster.w.pending == old(cluster.w.pending)
      ensures AttachesOnly(old(cluster.w), cluster.w, uid, t)
      ensures if ok then cluster.w.view == Made(t) else cluster.w.view == old(cluster.w.view)
      ensures ok ==> CreatedFor(old(cluster.w), cluster.w, t, uid, time)
      ensures ok && cluster.quiet ==> AttachedAt(cluster.w, t, uid, time) && Attached(cluster.w, t, uid)
      ensures cluster.reliable ==> ok
    {
      var mpPod := cluster.CreatePod();
      if mpPod.None? { return false; }
      ghost var before := cluster.w;
      var o := cluster.CreateAttachment(t, uid, time);
      if !o.Ok? {
        var _ := cluster.DeleteSpawnedPod();
        return false;
      }
      if cluster.quiet { CreatedIsAttached(before, t, uid, time); }
      ok := true;
    }

    method HandleNewS3PodAttachment(t: Spec, uid: string, running: bool, time: int, filters: Filters)
      returns (r: Result)
      requires cluster.Valid() && WellFormed(t) && filters == FiltersOf(t) && uid in cluster.w.born
      requires (cluster.w.view == Absent(t) || cluster.w.view == Duplicated(t)) && cluster.w.held.None?
      modifies cluster
      ensures cluster.Valid() && BetweenCalls(cluster.w) && AttachesOnly(old(cluster.w), cluster.w, uid, t)
      // an expected attachment, or one that is not needed, is not created
      ensures KeyOf(t) in old(cluster.w.pending) ==> r == Requeue && cluster.w == old(cluster.w)
      ensures KeyOf(t) !in old(cluster.w.pending) && running ==> r == Done && cluster.w == old(cluster.w)
      // one that is created is expected
      ensures KeyOf(t) !in old(cluster.w.pending) && !running ==>
        || (r == Error && cluster.w.pending == old(cluster.w.pending))
        || (r == Requeue && cluster.w.pending == old(cluster.w.pending) + {KeyOf(t)})
      ensures KeyOf(t) !in old(cluster.w.pending) && !running && r == Requeue ==>
        CreatedFor(old(cluster.w), cluster.w, t, uid, time)
      ensures KeyOf(t) !in old(cluster.w.pending) && !running && cluster.quiet && r == Requeue ==>
        Attached(cluster.w, t, uid) && AttachedAt(cluster.w, t, uid, time)
      ensures cluster.reliable ==> !r.Error?
    {
      var pending := IsPending(filters);
      if pending { return Requeue; }
      if running { return Done; }
      var ok := CreateS3PodAttachmentWithMPPod(t, uid, time);
      if !ok { return Error; }
      SetPending(t, filters);
      r := Requeue;
    }

    /** The call runs on current reads, no API call is lost, and there are no duplicates. */
    ghost predicate OnCurrentReads(w: World) {
      cluster.quiet && cluster.reliable && UniqueLive(w)
    }

    /** `spawnOrDeleteMountpointPodIfNeeded` for one volume; no `roleArn` means that the service account is missing. */
    method SpawnOrDeleteMountpointPodIfNeeded(wl: Workload, pv: Volume, roleArn: Option<string>, time: int)
      returns (r: Result)
      requires cluster.Valid() && BetweenCalls(cluster.w) && wl.uid in cluster.w.born
      requires cluster.quiet ==> CaughtUp(cluster.w)
      modifies cluster
      ensures cluster.Valid() && BetweenCalls(cluster.w)
      ensures roleArn.None? ==> r == Error && cluster.w == old(cluster.w)
      // whoever gets attached is this workload, under the tuple that describes it and the volume
      ensures roleArn.Some? ==> forall x | x in cluster.w.attached && x !in old(cluster.w.attached) ::
        x.uid == wl.uid && Describes(x.tuple, wl, pv, roleArn.value)
      ensures roleArn.Some? ==> AttachesOnly(old(cluster.w), cluster.w, wl.uid, NewSpec(wl, pv, roleArn.value))
      // on current reads: a Pending workload gets attached, unless an expectation without an attachment is in the way
      ensures OnCurrentReads(old(cluster.w)) && roleArn.Some? && wl.phase == Pending && !wl.terminating ==>
        var t := NewSpec(wl, pv, roleArn.value);
        if NotStale(old(cluster.w), t) then Attached(cluster.w, t, wl.uid)
        else r == Requeue && SameObjects(old(cluster.w), cluster.w)
      // a Running one too if there is an attachment, terminating or not, and otherwise nothing happens
      ensures OnCurrentReads(old(cluster.w)) && roleArn.Some? && wl.phase == Running ==>
        var t := NewSpec(wl, pv, roleArn.value);
        if LiveFor(old(cluster.w), t) then r == Done && Attached(cluster.w, t, wl.uid)
        else SameObjects(old(cluster.w), cluster.w)
      // one that has ended, or is told to before it runs, gets detached
      ensures wl.phase == Succeeded || wl.phase == Failed || (wl.phase == Pending && wl.terminating) ==>
        OnCurrentReads(old(cluster.w)) && roleArn.Some? ==>
          r == Done && !Attached(cluster.w, NewSpec(wl, pv, roleArn.value), wl.uid)
      // and who was not attached before is attached now, not earlier
      ensures OnCurrentReads(old(cluster.w)) && roleArn.Some? ==>
        var t := NewSpec(wl, pv, roleArn.value);
        AttachesNow(old(cluster.w), cluster.w, t, wl.uid, time)
    {
      if roleArn.None? { return Error; }
      var t := NewSpec(wl, pv, roleArn.value);
      var filters := BuildFieldFilters(wl, pv, roleArn.value);
      FreshAttachmentIsMatched(wl, pv, roleArn.value, wl, pv, roleArn.value);
      NewSpecIsDescribed(t, wl, pv, roleArn.value);
      var lookup := GetExistingS3PodAttachment(t, filters);
      if lookup.LookupFailed? { return Error; }
      if OnCurrentReads(old(cluster.w)) { SameAttachments(old(cluster.w), cluster.w, t, wl.uid); }
      if !IsPodActive(wl) {
        r := HandleInactivePod(t, lookup, wl.uid, filters);
      } else {
        r := HandleActivePod(t, lookup, wl.uid, wl.phase == Running, time, filters);
      }
    }

    /** The attachment that was found, or else a new one. */
    method HandleActivePod(t: Spec, lookup: Lookup, uid: string, running: bool, time: int, filters: Filters)
      returns (r: Result)
      requires cluster.Valid() && LookedUp(lookup, t) && !lookup.LookupFailed?
      requires WellFormed(t) && filters == FiltersOf(t) && uid in cluster.w.born
      modifies cluster
      ensures cluster.Valid() && BetweenCalls(cluster.w) && AttachesOnly(old(cluster.w), cluster.w, uid, t)
      ensures cluster.quiet && cluster.reliable && lookup.AttachmentFound? ==> r.Done? && Attached(cluster.w, t, uid)
      ensures cluster.quiet && cluster.reliable && lookup.NothingFound? ==>
        if KeyOf(t) in old(cluster.w.pending) then r == Requeue && cluster.w == old(cluster.w)
        else if running then r == Done && cluster.w == old(cluster.w)
        else r == Requeue && Attached(cluster.w, t, uid)
      ensures cluster.quiet && cluster.reliable ==> AttachesNow(old(cluster.w), cluster.w, t, uid, time)
    {
      if lookup.AttachmentFound? {
        if HasUid(lookup.s3pa.content, uid) && cluster.quiet { assert IsLiveFor(cluster.w, t, lookup.s3pa.name); }
        r := HandleExistingS3PodAttachment(lookup.s3pa, uid, time, filters);
      } else {
        r := HandleNewS3PodAttachment(t, uid, running, time, filters);
      }
    }
  }

  lemma CreatedIsAttached(w: World, t: Spec, uid: string, time: int)
    requires Enabled(w, Create(t, uid, time))
    ensures var w' := Apply(w, Create(t, uid, time)); Attached(w', t, uid) && AttachedAt(w', t, uid, time)
  {
    var w' := Apply(w, Create(t, uid, time));
    var n, m := |w.s3pas|, w.held.value;
    assert IsLiveFor(w', t, n);
    assert w'.s3pas[n].Latest()[m][0] == Attachment(uid, time);
    assert ListHasUid(w'.s3pas[n].Latest()[m], uid);
  }

  ghost predicate DifferentNames(items: seq<Copy>) {
    forall i, j | 0 <= i < j < |items| :: items[i].name != items[j].name
  }

  ghost predicate TwoWithPods(items: seq<Copy>) {
    exists i, j | 0 <= i < j < |items| :: items[i].content != map[] && items[j].content != map[]
  }

  lemma TwoOfThem(items: seq<Copy>, withPods: seq<Copy>)
    requires DifferentNames(items) && DifferentNames(withPods)
    requires forall x :: x in withPods <==> x in items && x.content != map[]
    ensures |withPods| > 1 <==> TwoWithPods(items)
  {
    if |withPods| > 1 {
      assert withPods[0] in withPods && withPods[1] in withPods && withPods[0].name != withPods[1].name;
      var i :| 0 <= i < |items| && items[i] == withPods[0];
      var j :| 0 <= j < |items| && items[j] == withPods[1];
      if i < j { assert TwoWithPods(items); } else { assert j < i; }
    }
    if i, j :| 0 <= i < j < |items| && items[i].content != map[] && items[j].content != map[] {
      assert items[i] in withPods && items[j] in withPods && items[i] != items[j];
    }
  }

  method SplitDuplicates(items: seq<Copy>) returns (withPods: seq<Copy>, noPods: seq<Copy>)
    requires DifferentNames(items)
    ensures DifferentNames(withPods) && DifferentNames(noPods)
    ensures forall x :: x in withPods <==> x in items && x.content != map[]
    ensures forall x :: x in noPods <==> x in items && x.content == map[]
  {
    withPods, noPods := [], [];
    for i := 0 to |items|
      invariant DifferentNames(withPods) && DifferentNames(noPods)
      invariant forall x :: x in withPods <==> x in items[..i] && x.content != map[]
      invariant forall x :: x in noPods <==> x in items[..i] && x.content == map[]
    {
      assert items[..i + 1] == items[..i] + [items[i]];
      if |items[i].content| == 0 {
        noPods := noPods + [items[i]];
      } else {
        withPods := withPods + [items[i]];
      }
    }
    assert items[..|items|] == items;
  }

  /** In a caught-up cache every item is current, and without duplicates there is at most one. */
  lemma CaughtUpReads(w: World, t: Spec, items: seq<Copy>)
    requires CaughtUp(w)
    requires forall i | 0 <= i < |items| :: Read(w, t, items[i])
    requires forall i, j | 0 <= i < j < |items| :: items[i].name != items[j].name
    ensures forall i | 0 <= i < |items| :: IsCurrent(w, items[i])
    ensures UniqueLive(w) ==> |items| <= 1
  {
    forall i | 0 <= i < |items| ensures IsCurrent(w, items[i]) { assert Read(w, t, items[i]); }
    if |items| > 1 {
      var a, b := items[0].name, items[1].name;
      assert IsCurrent(w, items[0]) && IsCurrent(w, items[1]) && a != b;
      var lo, hi := if a < b then a else b, if a < b then b else a;
      assert !(w.s3pas[lo].spec == w.s3pas[hi].spec && !(w.s3pas[lo].live && w.s3pas[hi].live));
    }
  }

  lemma CaughtUpView(w: World, t: Spec)
    requires CaughtUp(w)
    ensures ViewAfterList(w, t).Absent? <==> !LiveFor(w, t)
  {
    if n :| 0 <= n < |w.s3pas| && VisibleFor(w, t, n) {
      assert IsLiveFor(w, t, n);
    } else if LiveFor(w, t) {
      var n :| IsLiveFor(w, t, n);
      assert VisibleFor(w, t, n);
    }
  }

  lemma OnlyLiveOne(w: World, w': World, s3pa: Copy, n: nat)
    requires UniqueLive(w) && IsCurrent(w, s3pa) && OnlyChanged(w, w', s3pa.name) && IsLiveFor(w', s3pa.spec, n)
    ensures n == s3pa.name
  {
    assert IsLiveFor(w, s3pa.spec, s3pa.name);
  }

  /** Taking the workload out of the only live attachment of its tuple detaches it. */
  lemma RemovedMeansDetached(w: World, w': World, s3pa: Copy, final: Copy, uid: string)
    requires UniqueLive(w) && IsCurrent(w, s3pa) && OnlyChanged(w, w', s3pa.name) && final.name == s3pa.name
    requires final.content == Removed(s3pa.content, uid)
    requires final.content == map[] ==> s3pa.name < |w'.s3pas| && !w'.s3pas[s3pa.name].live
    requires final.content != map[] ==> IsCurrent(w', final)
    ensures !Attached(w', s3pa.spec, uid)
  {
    RemovedIsExact(s3pa.content, uid);
    forall n: nat | IsLiveFor(w', s3pa.spec, n) ensures !HasUid(w'.s3pas[n].Latest(), uid) {
      OnlyLiveOne(w, w', s3pa, n);
    }
  }

  lemma SameAttachments(w: World, w': World, t: Spec, uid: string)
    requires w'.s3pas == w.s3pas
    ensures LiveFor(w', t) <==> LiveFor(w, t)
    ensures Attached(w', t, uid) <==> Attached(w, t, uid)
    ensures UniqueLive(w') <==> UniqueLive(w)
  {
    forall n: nat ensures IsLiveFor(w', t, n) <==> IsLiveFor(w, t, n) {}
  }

  lemma NotLiveNotAttached(w: World, w': World, t: Spec, uid: string)
    requires !LiveFor(w, t) && w'.s3pas == w.s3pas
    ensures !Attached(w', t, uid)
  {
    forall n: nat | IsLiveFor(w', t, n) ensures IsLiveFor(w, t, n) {}
  }

  /** As long as the cleaner deletes nothing that is expected, and keys are distinct, no expectation is stale between
      calls. */
  lemma NeverStaleWhilePromisesAreKept(run: Run, t: Spec)
    requires run.Valid() && KeepsPromises(run.hist, run.steps) && BetweenCalls(run.Last())
    requires KeysDistinct(run.Last().used + {t})
    ensures NotStale(run.Last(), t) && UniqueLive(run.Last())
  {
    var w := run.Last();
    RunIsPromised(run.hist, run.steps, |run.steps|);
    AtMostOneLivePerTuple(run.hist, run.steps, |run.steps|);
    if KeyOf(t) in w.pending {
      var s :| Promise(w, KeyOf(t), s);
    }
  }

  /** An attached workload is attached once: in one attachment, to one Mountpoint Pod, at one place. */
  lemma AttachedExactlyOnce(run: Run, t: Spec, uid: string, n: nat, m: nat, i: nat, n': nat, m': nat, i': nat)
    requires run.Valid() && KeysDistinct(run.Last().used)
    requires IsAt(run.Last(), t, uid, n, m, i) && IsAt(run.Last(), t, uid, n', m', i')
    ensures n == n' && m == m' && i == i'
  {
    AtMostOneLivePerTuple(run.hist, run.steps, |run.steps|);
    var w := run.Last();
    NoWorkloadTwice(run.hist, run.steps, |run.steps|, n, |w.s3pas[n].versions| - 1);
  }

  ghost predicate IsAt(w: World, t: Spec, uid: string, n: nat, m: nat, i: nat) {
    && IsLiveFor(w, t, n) && m in w.s3pas[n].Latest()
    && i < |w.s3pas[n].Latest()[m]| && w.s3pas[n].Latest()[m][i].uid == uid
  }

  lemma HeldIsNew(w: World, run: Run, s3pa: Copy)
    requires run.Valid() && run.Last() == w && IsCopy(w, s3pa) && w.held.Some?
    ensures w.held.value < |w.pods| && w.held.value !in s3pa.content
  {
    CopyIsUnique(w, run, s3pa);
  }

  lemma CopyIsUnique(w: World, run: Run, s3pa: Copy)
    requires run.Valid() && run.Last() == w && IsCopy(w, s3pa)
    ensures Safe(w) && ContentOk(w, s3pa.name, s3pa.spec, s3pa.content)
  {
    RunIsSafe(run.hist, run.steps, |run.steps|);
    assert ContentOk(w, s3pa.name, w.s3pas[s3pa.name].spec, w.s3pas[s3pa.name].versions[s3pa.version]);
  }
}
