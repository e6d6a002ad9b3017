/** StaleAttachmentCleaner: the second writer of attachments. */
module Cleaner {
  import opened SharingModel
  import opened SharingInvariants
  import opened Removal
  import opened ClusterClient
  import opened Controller

  /** Whether the map lists a stale attachment. */
  ghost predicate HasStale(a: Attachments, existing: set<string>, now: int) {
    StaleAmong(a, a.Keys, existing, now)
  }

  ghost predicate StaleAmong(a: Attachments, among: set<nat>, existing: set<string>, now: int) {
    exists m | m in a && m in among :: AnyStale(a[m], existing, now)
  }

  lemma StaleAmongMore(a: Attachments, todo: set<nat>, m: nat, existing: set<string>, now: int)
    requires m in a && m in todo && todo <= a.Keys
    ensures StaleAmong(a, a.Keys - (todo - {m}), existing, now)
       <==> StaleAmong(a, a.Keys - todo, existing, now) || AnyStale(a[m], existing, now)
  {
    assert a.Keys - (todo - {m}) == a.Keys - todo + {m};
  }

  /** The cleaner works with its last listing of workload Pods. */
  ghost predicate Listing(w: World, existing: set<string>) {
    w.seen.Some? && w.seen.value.existing == existing
  }

  /** No workload has come or gone since. */
  ghost predicate UpToDate(w: World, existing: set<string>) {
    Listing(w, existing) && w.existing == existing && w.seen.value.born == w.born
  }

  /** The copy was read from the cache. */
  ghost predicate FromCache(w: World, s3pa: Copy) {
    IsCopy(w, s3pa) && Shown(w, s3pa.name, s3pa.version)
  }

  lemma FromCacheStays(w: World, w': World, s3pa: Copy)
    requires Evolves(w, w') && FromCache(w, s3pa)
    ensures FromCache(w', s3pa)
  {
    VersionsStay(w, w', s3pa);
    ShownStays(w, w', s3pa.name, s3pa.version);
  }

  /** Attachments that are all stale are of workloads that the cleaner takes for gone. */
  lemma AllStaleTakenForGone(w: World, a: Attachments, m: nat, existing: set<string>, now: int)
    requires Listing(w, existing) && m in a && Without(a[m], StaleOf(a, existing, now)) == []
    ensures AllTakenForGone(w, a[m])
  {
    forall i | 0 <= i < |a[m]| ensures a[m][i].uid !in existing {
      WithoutThins(a[m], StaleOf(a, existing, now));
      assert a[m][i] in a[m] && a[m][i] !in Without(a[m], StaleOf(a, existing, now));
      StaleMember(a, existing, now, m, a[m][i]);
    }
  }

  /** What is written back is a clean-up that the protocol allows. */
  lemma CleaningIsAllowed(w: World, a: Attachments, existing: set<string>, now: int)
    requires Listing(w, existing) && HasStale(a, existing, now) && LostOnesReleased(w, a, Cleaned(a, existing, now))
    ensures CleanAllowed(w, a, StaleOf(a, existing, now))
  {
    var m :| m in a && AnyStale(a[m], existing, now);
    var i :| 0 <= i < |a[m]| && IsStale(a[m][i], existing, now);
    assert a[m][i] in StaleOf(a, existing, now);
  }

  /** The entries outside `todo` have been cleaned. */
  ghost predicate PartlyCleaned(a: Attachments, b: Attachments, todo: set<nat>, drop: set<Attachment>) {
    && b.Keys <= a.Keys
    && (forall m | m in a && m in todo :: m in b && b[m] == a[m])
    && (forall m | m in a && m !in todo ::
          if Without(a[m], drop) == [] then m !in b else m in b && b[m] == Without(a[m], drop))
  }

  lemma OneMoreCleaned(a: Attachments, b: Attachments, todo: set<nat>, drop: set<Attachment>, m: nat, b': Attachments)
    requires PartlyCleaned(a, b, todo, drop) && todo <= b.Keys && m in todo
    requires b' == if Without(a[m], drop) == [] then b - {m} else b[m := Without(a[m], drop)]
    ensures PartlyCleaned(a, b', todo - {m}, drop) && todo - {m} <= b'.Keys
  {}

  lemma AllOfThemCleaned(a: Attachments, b: Attachments, existing: set<string>, now: int)
    requires PartlyCleaned(a, b, {}, StaleOf(a, existing, now))
    ensures b == Cleaned(a, existing, now)
  {}

  class StaleAttachmentCleaner {
    const reconciler: Reconciler
    const cluster: Cluster

    constructor (reconciler: Reconciler)
      ensures this.reconciler == reconciler && this.cluster == reconciler.cluster
    {
      this.reconciler, this.cluster := reconciler, reconciler.cluster;
    }

    /** One entry: keeps the valid attachments, or annotates the Mountpoint Pod and drops the entry. */
    method CleanEntry(
        s3pa0: Copy, existing: set<string>, now: int, ghost drop: set<Attachment>, m: nat, content: Attachments)
      returns (ok: bool, content': Attachments, modified: bool)
      requires reconciler.cluster == cluster && cluster.Valid() && FromCache(cluster.w, s3pa0) && m in s3pa0.content
      requires Listing(cluster.w, existing)
      requires drop == StaleOf(s3pa0.content, existing, now) && m in content && content[m] == s3pa0.content[m]
      requires cluster.quiet ==> IsCurrent(cluster.w, s3pa0) && UpToDate(cluster.w, existing)
      modifies cluster
      ensures cluster.Valid() && Evolves(old(cluster.w), cluster.w) && cluster.w.seen == old(cluster.w.seen)
      ensures cluster.quiet ==> cluster.w.s3pas == old(cluster.w.s3pas) && Calm(old(cluster.w), cluster.w)
      ensures ok && Without(s3pa0.content[m], drop) == [] ==> content' == content - {m} && Released(cluster.w, m)
      ensures ok && Without(s3pa0.content[m], drop) != [] ==> content' == content[m := Without(s3pa0.content[m], drop)]
      ensures modified <==> AnyStale(s3pa0.content[m], existing, now)
      ensures cluster.quiet && cluster.reliable ==> ok
    {
      forall x | x in content[m] ensures x in drop <==> IsStale(x, existing, now) {
        StaleMember(s3pa0.content, existing, now, m, x);
      }
      var valid;
      valid, modified := ValidAttachments(content[m], existing, now, drop);
      if |valid| == 0 {
        CopyIsUnique(cluster.w, cluster.run, s3pa0);
        AllStaleTakenForGone(cluster.w, s3pa0.content, m, existing, now);
        ghost var read;
        ok, read := reconciler.AddNeedsUnmountAnnotation(TheCleaner, s3pa0, m);
        content' := content - {m};
      } else {
        ok, content' := true, content[m := valid];
      }
    }

    method CleanupStaleWorkloads(s3pa0: Copy, existing: set<string>, now: int)
      returns (ok: bool, ghost wrote: bool, ghost final: Copy)
      requires reconciler.cluster == cluster && cluster.Valid()
      requires FromCache(cluster.w, s3pa0) && Listing(cluster.w, existing)
      requires cluster.quiet ==> IsCurrent(cluster.w, s3pa0) && UpToDate(cluster.w, existing)
      modifies cluster
      ensures cluster.Valid() && Evolves(old(cluster.w), cluster.w) && cluster.w.seen == old(cluster.w.seen)
      ensures cluster.quiet ==> OnlyChanged(old(cluster.w), cluster.w, s3pa0.name) && Calm(old(cluster.w), cluster.w)
      ensures wrote <==> ok && HasStale(s3pa0.content, existing, now)
      // what is written is exactly the filter
      ensures wrote && Cleaned(s3pa0.content, existing, now) != map[] ==>
        IsCopy(cluster.w, final) && final.name == s3pa0.name && final.content == Cleaned(s3pa0.content, existing, now)
      ensures wrote && Cleaned(s3pa0.content, existing, now) == map[] ==>
        s3pa0.name < |cluster.w.s3pas| && !cluster.w.s3pas[s3pa0.name].live
      // whatever entry the filter drops was released first, even when nothing is written
      ensures ok ==>
        forall m | m in s3pa0.content && m !in Cleaned(s3pa0.content, existing, now) :: Released(cluster.w, m)
      ensures cluster.quiet && !wrote ==> cluster.w.s3pas == old(cluster.w.s3pas)
      ensures cluster.quiet && wrote && Cleaned(s3pa0.content, existing, now) != map[] ==> IsCurrent(cluster.w, final)
      ensures cluster.quiet && cluster.reliable ==> ok
    {
      wrote, final := false, s3pa0;
      var content, modified;
      ok, content, modified := CleanEntries(s3pa0, existing, now);
      if ok && modified {
        ghost var before := cluster.w;
        FromCacheStays(old(cluster.w), before, s3pa0);
        ok, final := WriteBack(s3pa0, content, existing, now);
        EvolvesTransitive(old(cluster.w), before, cluster.w);
        forall m | Released(before, m) ensures Released(cluster.w, m) { ReleasedStays(before, cluster.w, m); }
        wrote := ok;
      }
    }

    /** The loop over the Mountpoint Pods of one attachment, in any order. */
    method CleanEntries(s3pa0: Copy, existing: set<string>, now: int)
      returns (ok: bool, content: Attachments, modified: bool)
      requires reconciler.cluster == cluster && cluster.Valid()
      requires FromCache(cluster.w, s3pa0) && Listing(cluster.w, existing)
      requires cluster.quiet ==> IsCurrent(cluster.w, s3pa0) && UpToDate(cluster.w, existing)
      modifies cluster
      ensures cluster.Valid() && Evolves(old(cluster.w), cluster.w) && cluster.w.seen == old(cluster.w.seen)
      ensures cluster.quiet ==> cluster.w.s3pas == old(cluster.w.s3pas) && Calm(old(cluster.w), cluster.w)
      ensures ok ==> content == Cleaned(s3pa0.content, existing, now)
      ensures ok ==> forall m | m in s3pa0.content && m !in content :: Released(cluster.w, m)
      ensures ok ==> (modified <==> HasStale(s3pa0.content, existing, now))
      ensures cluster.quiet && cluster.reliable ==> ok
    {
      ghost var drop := StaleOf(s3pa0.content, existing, now);
      content, modified := s3pa0.content, false;
      var todo := content.Keys;
      while todo != {}
        invariant cluster.Valid() && Evolves(old(cluster.w), cluster.w) && cluster.w.seen == old(cluster.w.seen)
        invariant cluster.quiet ==> cluster.w.s3pas == old(cluster.w.s3pas) && Calm(old(cluster.w), cluster.w)
        invariant todo <= content.Keys && PartlyCleaned(s3pa0.content, content, todo, drop)
        invariant LostOnesReleased(cluster.w, s3pa0.content, content)
        invariant modified <==> StaleAmong(s3pa0.content, s3pa0.content.Keys - todo, existing, now)
        decreases todo
      {
        var m :| m in todo;
        ghost var before := cluster.w;
        FromCacheStays(old(cluster.w), before, s3pa0);
        var entryModified;
        ghost var content0 := content;
        ok, content, entryModified := CleanEntry(s3pa0, existing, now, drop, m, content);
        EvolvesTransitive(old(cluster.w), before, cluster.w);
        if !ok { return; }
        OneMoreCleaned(s3pa0.content, content0, todo, drop, m, content);
        LostOnesStayReleased(before, cluster.w, s3pa0.content, content0);
        StaleAmongMore(s3pa0.content, todo, m, existing, now);
        modified := modified || entryModified;
        todo := todo - {m};
      }
      ok := true;
      AllOfThemCleaned(s3pa0.content, content, existing, now);
    }

    /** `Update` or, if nothing is left, `Delete`. */
    method WriteBack(s3pa0: Copy, content: Attachments, existing: set<string>, now: int)
      returns (ok: bool, ghost final: Copy)
      requires cluster.Valid() && FromCache(cluster.w, s3pa0) && Listing(cluster.w, existing)
      requires content == Cleaned(s3pa0.content, existing, now) && HasStale(s3pa0.content, existing, now)
      requires LostOnesReleased(cluster.w, s3pa0.content, content)
      requires cluster.quiet ==> IsCurrent(cluster.w, s3pa0)
      modifies cluster
      ensures cluster.Valid() && Evolves(old(cluster.w), cluster.w) && cluster.w.seen == old(cluster.w.seen)
      ensures cluster.quiet ==> OnlyChanged(old(cluster.w), cluster.w, s3pa0.name) && Calm(old(cluster.w), cluster.w)
      ensures ok && content != map[] ==>
        IsCopy(cluster.w, final) && final.name == s3pa0.name && final.content == content
      ensures ok && content == map[] ==> s3pa0.name < |cluster.w.s3pas| && !cluster.w.s3pas[s3pa0.name].live
      ensures cluster.quiet && !ok ==> cluster.w == old(cluster.w)
      ensures cluster.quiet && ok && content != map[] ==> IsCurrent(cluster.w, final)
      ensures cluster.quiet && cluster.reliable ==> ok
    {
      var drop := StaleOf(s3pa0.content, existing, now);
      CleaningIsAllowed(cluster.w, s3pa0.content, existing, now);
      final := s3pa0;
      if |content| == 0 {
        assert content == map[];
        var o := cluster.DeleteAttachment(TheCleaner, s3pa0, AllCleaned(drop));
        ok := o.Ok?;
      } else {
        var o, written := cluster.UpdateAttachment(TheCleaner, s3pa0.(content := content), Clean(drop));
        ok, final := o.Ok?, written;
      }
    }

    /** One pass over all attachments that the cache shows. */
    method RunCleanup(now: int) returns (ok: bool)
      requires reconciler.cluster == cluster && cluster.Valid()
      requires cluster.quiet ==> CaughtUp(cluster.w)
      modifies cluster
      ensures cluster.Valid() && (cluster.quiet ==> Calm(old(cluster.w), cluster.w))
      ensures cluster.quiet && cluster.reliable ==> ok
      // on current reads, every live attachment is filtered, and nothing else changes
      ensures cluster.quiet && cluster.reliable ==>
        && |cluster.w.s3pas| == |old(cluster.w).s3pas|
        && forall n | 0 <= n < |old(cluster.w).s3pas| ::
          FilteredInto(old(cluster.w).s3pas[n], cluster.w.s3pas[n], old(cluster.w).existing, now)
    {
      var existing;
      ok, existing := cluster.ReadPods();
      if !ok { return; }
      cluster.Interfere(TheCleaner);
      var lost := cluster.Lost();
      if lost { return false; }
      RunIsSafe(cluster.run.hist, cluster.run.steps, |cluster.run.steps|);
      var items := ReadAll(cluster.w);
      CleanAll(items, existing, now);
      ok := true;
    }

    /** The loop over the listed attachments; an error on one of them does not stop the others. */
    method CleanAll(items: seq<Copy>, existing: set<string>, now: int)
      requires reconciler.cluster == cluster && cluster.Valid() && Listing(cluster.w, existing)
      requires forall i | 0 <= i < |items| :: FromCache(cluster.w, items[i])
      requires forall i, j | 0 <= i < j < |items| :: items[i].name != items[j].name
      requires cluster.quiet ==>
        UpToDate(cluster.w, existing) && forall i | 0 <= i < |items| :: IsCurrent(cluster.w, items[i])
      modifies cluster
      ensures cluster.Valid() && (cluster.quiet ==> Calm(old(cluster.w), cluster.w))
      ensures cluster.quiet ==> |cluster.w.s3pas| == |old(cluster.w).s3pas|
      ensures cluster.quiet ==> forall n | 0 <= n < |old(cluster.w).s3pas| && n !in NamesOf(items) ::
        cluster.w.s3pas[n] == old(cluster.w).s3pas[n]
      ensures cluster.quiet && cluster.reliable ==>
        forall i | 0 <= i < |items| && items[i].name < |old(cluster.w).s3pas| ::
          FilteredInto(old(cluster.w).s3pas[items[i].name], cluster.w.s3pas[items[i].name], existing, now)
    {
      ghost var w0 := cluster.w;
      for i := 0 to |items|
        invariant cluster.Valid() && Evolves(w0, cluster.w) && cluster.w.seen == w0.seen
        invariant cluster.quiet ==> |cluster.w.s3pas| == |w0.s3pas| && Calm(w0, cluster.w)
        invariant cluster.quiet ==> forall n | 0 <= n < |w0.s3pas| && (forall j | 0 <= j < i :: items[j].name != n) ::
          cluster.w.s3pas[n] == w0.s3pas[n]
        invariant cluster.quiet && cluster.reliable ==> forall j | 0 <= j < i ::
          FilteredInto(w0.s3pas[items[j].name], cluster.w.s3pas[items[j].name], existing, now)
      {
        CleanOne(w0, items[i], existing, now);
      }
      forall n | 0 <= n < |w0.s3pas| && n !in NamesOf(items)
        ensures forall j | 0 <= j < |items| :: items[j].name != n
      {}
    }

    method CleanOne(ghost w0: World, s3pa: Copy, existing: set<string>, now: int)
      requires reconciler.cluster == cluster && cluster.Valid() && FromCache(w0, s3pa) && Evolves(w0, cluster.w)
      requires Listing(cluster.w, existing)
      requires cluster.quiet ==> UpToDate(cluster.w, existing) && IsCurrent(cluster.w, s3pa)
      modifies cluster
      ensures cluster.Valid() && Evolves(w0, cluster.w) && cluster.w.seen == old(cluster.w.seen)
      ensures cluster.quiet ==> OnlyChanged(old(cluster.w), cluster.w, s3pa.name) && Calm(old(cluster.w), cluster.w)
      ensures cluster.quiet && cluster.reliable ==>
        FilteredInto(old(cluster.w).s3pas[s3pa.name], cluster.w.s3pas[s3pa.name], existing, now)
    {
      FromCacheStays(w0, cluster.w, s3pa);
      ghost var before := cluster.w;
      var ok, wrote, final := CleanupStaleWorkloads(s3pa, existing, now);
      EvolvesTransitive(w0, before, cluster.w);
    }
  }

  /** What cleaning makes of one attachment. */
  ghost predicate FilteredInto(a: S3pa, b: S3pa, existing: set<string>, now: int) {
    if a.live && HasStale(a.Latest(), existing, now) then
      (b.live <==> Cleaned(a.Latest(), existing, now) != map[]) &&
      (b.live ==> b.Latest() == Cleaned(a.Latest(), existing, now))
    else b == a
  }

  /** `List` of all attachments. */
  method ReadAll(w: World) returns (items: seq<Copy>)
    requires Safe(w)
    ensures forall i | 0 <= i < |items| ::
      IsCopy(w, items[i]) && w.s3pas[items[i].name].cached == Visible(items[i].version)
    ensures forall i, j | 0 <= i < j < |items| :: items[i].name != items[j].name
    ensures forall n | 0 <= n < |w.s3pas| && w.s3pas[n].cached.Visible? :: n in NamesOf(items)
  {
    var names: set<nat> := set n | 0 <= n < |w.s3pas| && w.s3pas[n].cached.Visible?;
    ghost var all := names;
    items := [];
    while names != {}
      invariant names <= all && NamesOf(items) == all - names
      invariant forall i | 0 <= i < |items| ::
        IsCopy(w, items[i]) && w.s3pas[items[i].name].cached == Visible(items[i].version)
      invariant forall i, j | 0 <= i < j < |items| :: items[i].name != items[j].name
      decreases names
    {
      var n :| n in names;
      var k := w.s3pas[n].cached.version;
      var item := Copy(n, k, w.s3pas[n].spec, w.s3pas[n].versions[k]);
      assert forall i | 0 <= i < |items| :: items[i].name in NamesOf(items);
      NamesOfMore(items, item);
      items, names := items + [item], names - {n};
    }
  }
}
