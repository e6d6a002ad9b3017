/** NodeSearch: how the node finds the attachment that the controller made for a workload. */
module NodeSearch {
  import opened Strings
  import opened Expectations
  import opened SharingTuple
  import opened SharingModel
  import opened SharingInvariants
  import opened SharingUniqueness
  import opened ClusterClient

  /** What a NodePublishVolume request says about the workload. */
  datatype ProvideContext = ProvideContext(workloadPodId: string, volumeId: string, authSource: string,
                                           podNamespace: string, serviceAccountName: string)

  /** The volume context that kubelet builds for the same workload and volume. */
  function ContextFor(wl: Workload, pv: Volume): ProvideContext {
    ProvideContext(wl.uid, pv.volumeHandle,
      if pv.authenticationSource != "" then pv.authenticationSource else AUTH_DRIVER,
      wl.namespace, GetServiceAccountName(wl))
  }

  /** Mount options are left out because they may change, the role ARN because the node does not know it. */
  function NodeFilters(nodeId: string, volumeName: string, ctx: ProvideContext, fsGroup: string): Filters {
    var common: Filters := map[
      FIELD_NODE_NAME := nodeId,
      FIELD_PV_NAME := volumeName,
      FIELD_VOLUME_ID := ctx.volumeId,
      FIELD_FS_GROUP := fsGroup,
      FIELD_AUTH_SOURCE := ctx.authSource];
    if ctx.authSource == AUTH_POD then
      common[FIELD_NAMESPACE := ctx.podNamespace][FIELD_SERVICE_ACCOUNT := ctx.serviceAccountName]
    else common
  }

  function FiltersFor(wl: Workload, pv: Volume): Filters {
    NodeFilters(wl.nodeName, pv.name, ContextFor(wl, pv), GetFSGroup(wl))
  }

  /** A tuple of this node, volume, file system group and authentication source and, if that is the Pod itself, of its
      namespace and service account. */
  ghost predicate IsFor(s: Spec, nodeId: string, volumeName: string, ctx: ProvideContext, fsGroup: string) {
    && s.nodeName == nodeId && s.pvName == volumeName && s.volumeId == ctx.volumeId
    && s.fsGroup == fsGroup && s.authSource == ctx.authSource
    && (ctx.authSource == "pod" ==> s.namespace == ctx.podNamespace && s.serviceAccount == ctx.serviceAccountName)
  }

  /** That is what the filters of the node ask for, and nothing else. */
  lemma NodeFiltersMatchExactly(nodeId: string, volumeName: string, ctx: ProvideContext, fsGroup: string, s: Spec)
    ensures Matches(NodeFilters(nodeId, volumeName, ctx, fsGroup), s) <==> IsFor(s, nodeId, volumeName, ctx, fsGroup)
  {
    var f := NodeFilters(nodeId, volumeName, ctx, fsGroup);
    if Matches(f, s) {
      assert IndexField(s, FIELD_NODE_NAME) == Some(f[FIELD_NODE_NAME]);
      assert IndexField(s, FIELD_PV_NAME) == Some(f[FIELD_PV_NAME]);
      assert IndexField(s, FIELD_VOLUME_ID) == Some(f[FIELD_VOLUME_ID]);
      assert IndexField(s, FIELD_FS_GROUP) == Some(f[FIELD_FS_GROUP]);
      assert IndexField(s, FIELD_AUTH_SOURCE) == Some(f[FIELD_AUTH_SOURCE]);
      if ctx.authSource == "pod" {
        assert IndexField(s, FIELD_NAMESPACE) == Some(f[FIELD_NAMESPACE]);
        assert IndexField(s, FIELD_SERVICE_ACCOUNT) == Some(f[FIELD_SERVICE_ACCOUNT]);
      }
    }
  }

  /** In terms of the workload and the volume: the filters of the node match exactly the tuples that agree with them in
      all but mount options and role, and so whatever the controller created for them. */
  lemma NodeSeesTheControllersChoice(wl: Workload, pv: Volume, s: Spec)
    ensures Matches(FiltersFor(wl, pv), s) <==>
      && s.nodeName == wl.nodeName && s.pvName == pv.name && s.volumeId == pv.volumeHandle
      && HasGroup(wl, s.fsGroup) && IsOrDefault(s.authSource, pv.authenticationSource, "driver")
      && (pv.authenticationSource == "pod" ==>
            s.namespace == wl.namespace && IsOrDefault(s.serviceAccount, wl.serviceAccountName, "default"))
    ensures forall roleArn | Describes(s, wl, pv, roleArn) :: Matches(FiltersFor(wl, pv), s)
  {
    NodeFiltersMatchExactly(wl.nodeName, pv.name, ContextFor(wl, pv), GetFSGroup(wl), s);
  }

  /** Mountpoint Pod `m` of live attachment `n`, which is for this volume, serves the workload. */
  ghost predicate Serves(
      w: World, nodeId: string, volumeName: string, ctx: ProvideContext, fsGroup: string, n: nat, m: nat) {
    && n < |w.s3pas| && w.s3pas[n].live && IsFor(w.s3pas[n].spec, nodeId, volumeName, ctx, fsGroup)
    && m in w.s3pas[n].Latest() && ListHasUid(w.s3pas[n].Latest()[m], ctx.workloadPodId)
  }

  /** The workload was never attached under two tuples of one volume. */
  ghost predicate StableInputs(w: World, volumeName: string, volumeId: string, uid: string) {
    forall r, r' | r in w.attached && r' in w.attached && r.uid == uid && r'.uid == uid
      && r.tuple.pvName == volumeName == r'.tuple.pvName && r.tuple.volumeId == volumeId == r'.tuple.volumeId ::
      r.tuple == r'.tuple
  }

  lemma ServedIsRecorded(run: Run, uid: string, n: nat, m: nat)
    requires run.Valid() && n < |run.Last().s3pas| && m in run.Last().s3pas[n].Latest()
    requires ListHasUid(run.Last().s3pas[n].Latest()[m], uid)
    ensures Record(m, uid, run.Last().s3pas[n].spec) in run.Last().attached
  {
    var w := run.Last();
    var list := w.s3pas[n].Latest()[m];
    var i :| 0 <= i < |list| && list[i].uid == uid;
    EveryEntryIsRecorded(run.hist, run.steps, |run.steps|, n, |w.s3pas[n].versions| - 1, m, i);
  }

  /** The pair that the node looks for is unique, so no iteration order matters. */
  lemma ServingPairIsUnique(run: Run, nodeId: string, volumeName: string, ctx: ProvideContext, fsGroup: string,
                            n: nat, m: nat, n': nat, m': nat)
    requires run.Valid() && KeysDistinct(run.Last().used)
    requires StableInputs(run.Last(), volumeName, ctx.volumeId, ctx.workloadPodId)
    requires Serves(run.Last(), nodeId, volumeName, ctx, fsGroup, n, m)
    requires Serves(run.Last(), nodeId, volumeName, ctx, fsGroup, n', m')
    ensures n == n' && m == m'
  {
    var w, uid := run.Last(), ctx.workloadPodId;
    ServedIsRecorded(run, uid, n, m);
    ServedIsRecorded(run, uid, n', m');
    assert w.s3pas[n].spec == w.s3pas[n'].spec;
    AtMostOneLivePerTuple(run.hist, run.steps, |run.steps|);
    NoWorkloadTwice(run.hist, run.steps, |run.steps|, n, |w.s3pas[n].versions| - 1);
  }

  /** The search: the items in list order, the Mountpoint Pods in any order, the attachments in order. */
  method FindMountpointPod(items: seq<Copy>, uid: string) returns (found: Option<(nat, nat)>)
    ensures found.Some? ==>
      found.value.0 < |items| && found.value.1 in items[found.value.0].content
      && ListHasUid(items[found.value.0].content[found.value.1], uid)
    ensures found.None? ==> forall i | 0 <= i < |items| :: !HasUid(items[i].content, uid)
  {
    for i := 0 to |items|
      invariant forall j | 0 <= j < i :: !HasUid(items[j].content, uid)
    {
      var todo := items[i].content.Keys;
      while todo != {}
        invariant todo <= items[i].content.Keys
        invariant forall m | m in items[i].content.Keys - todo :: !ListHasUid(items[i].content[m], uid)
        decreases todo
      {
        var m :| m in todo;
        var list := items[i].content[m];
        for k := 0 to |list|
          invariant forall l | 0 <= l < k :: list[l].uid != uid
        {
          if list[k].uid == uid { return Some((i, m)); }
        }
        todo := todo - {m};
      }
    }
    found := None;
  }

  /** `items` are current copies of exactly the live attachments that the filters match. */
  ghost predicate IsCurrentListing(w: World, filters: Filters, items: seq<Copy>) {
    && (forall i | 0 <= i < |items| :: IsLatest(w, items[i].name, items[i].version) && IsCopy(w, items[i]))
    && (forall i | 0 <= i < |items| :: Matches(filters, items[i].spec))
    && forall n | 0 <= n < |w.s3pas| && w.s3pas[n].live && Matches(filters, w.s3pas[n].spec) :: n in NamesOf(items)
  }

  /** On a current listing the search returns the serving pair, and it returns something iff there is one. */
  method GetS3PodAttachment(w: World, nodeId: string, volumeName: string, ctx: ProvideContext, fsGroup: string,
                            items: seq<Copy>, ghost run: Run)
    returns (found: Option<(nat, nat)>)
    requires run.Valid() && run.Last() == w && KeysDistinct(w.used)
    requires StableInputs(w, volumeName, ctx.volumeId, ctx.workloadPodId)
    requires IsCurrentListing(w, NodeFilters(nodeId, volumeName, ctx, fsGroup), items)
    ensures found.Some? ==> Serves(w, nodeId, volumeName, ctx, fsGroup, found.value.0, found.value.1)
    // it is an attachment of this volume and no other
    ensures found.Some? ==>
      w.s3pas[found.value.0].spec.pvName == volumeName && w.s3pas[found.value.0].spec.volumeId == ctx.volumeId
    ensures forall n: nat, m: nat | Serves(w, nodeId, volumeName, ctx, fsGroup, n, m) :: found == Some((n, m))
  {
    var pair := FindMountpointPod(items, ctx.workloadPodId);
    found := if pair.None? then None else Some((items[pair.value.0].name, pair.value.1));
    if found.Some? { NodeFiltersMatchExactly(nodeId, volumeName, ctx, fsGroup, items[pair.value.0].spec); }
    forall n: nat, m: nat | Serves(w, nodeId, volumeName, ctx, fsGroup, n, m) ensures found == Some((n, m)) {
      NodeFiltersMatchExactly(nodeId, volumeName, ctx, fsGroup, w.s3pas[n].spec);
      assert n in NamesOf(items);
      var i :| 0 <= i < |items| && items[i].name == n;
      assert IsLatest(w, items[i].name, items[i].version) && IsCopy(w, items[i]);
      assert items[i].content == w.s3pas[n].Latest();
      assert HasUid(items[i].content, ctx.workloadPodId);
      ServingPairIsUnique(run, nodeId, volumeName, ctx, fsGroup, n, m, found.value.0, found.value.1);
    }
  }
}
