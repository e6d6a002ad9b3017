/** SharingTuple: which workloads may share a Mountpoint Pod. */
module SharingTuple {
  import opened Strings
  import opened Expectations

  const FIELD_NODE_NAME := "spec.nodeName"
  const FIELD_PV_NAME := "spec.persistentVolumeName"
  const FIELD_VOLUME_ID := "spec.volumeID"
  const FIELD_MOUNT_OPTIONS := "spec.mountOptions"
  const FIELD_AUTH_SOURCE := "spec.authenticationSource"
  const FIELD_FS_GROUP := "spec.workloadFSGroup"
  const FIELD_SERVICE_ACCOUNT := "spec.workloadServiceAccountName"
  const FIELD_NAMESPACE := "spec.workloadNamespace"
  const FIELD_ROLE_ARN := "spec.workloadServiceAccountIAMRoleARN"

  const AUTH_DRIVER := "driver"
  const AUTH_POD := "pod"

  datatype Phase = Pending | Running | Succeeded | Failed

  /** What the controller reads of a workload Pod. `fsGroup` is already printed in decimal. */
  datatype Workload = Workload(uid: string, namespace: string, nodeName: string, serviceAccountName: string,
                               fsGroup: Option<string>, phase: Phase, terminating: bool)

  /** What it reads of a PersistentVolume; `authenticationSource` is "" when the attribute is missing. */
  datatype Volume = Volume(name: string, volumeHandle: string, mountOptions: seq<string>,
                           authenticationSource: string)

  /** The sharing fields of a MountpointS3PodAttachment. */
  datatype Spec = Spec(nodeName: string, pvName: string, volumeId: string, mountOptions: string,
                       authSource: string, fsGroup: string,
                       namespace: string, serviceAccount: string, roleArn: string)

  function GetAuthSource(pv: Volume): string {
    if pv.authenticationSource == "" then AUTH_DRIVER else pv.authenticationSource
  }

  function GetFSGroup(w: Workload): string {
    match w.fsGroup case Some(g) => g case None => ""
  }

  function GetServiceAccountName(w: Workload): string {
    if w.serviceAccountName != "" then w.serviceAccountName else "default"
  }

  /** The filters that `List` is called with. */
  function BuildFieldFilters(w: Workload, pv: Volume, roleArn: string): Filters {
    var authSource := GetAuthSource(pv);
    var common: Filters := map[
      FIELD_NODE_NAME := w.nodeName,
      FIELD_PV_NAME := pv.name,
      FIELD_VOLUME_ID := pv.volumeHandle,
      FIELD_MOUNT_OPTIONS := Join(pv.mountOptions, ","),
      FIELD_FS_GROUP := GetFSGroup(w),
      FIELD_AUTH_SOURCE := authSource];
    if authSource == AUTH_POD then
      common[FIELD_NAMESPACE := w.namespace]
            [FIELD_SERVICE_ACCOUNT := GetServiceAccountName(w)]
            [FIELD_ROLE_ARN := roleArn]
    else common
  }

  /** The fields that a new MountpointS3PodAttachment is created with. */
  function NewSpec(w: Workload, pv: Volume, roleArn: string): Spec {
    var authSource := GetAuthSource(pv);
    var base :=
      Spec(w.nodeName, pv.name, pv.volumeHandle, Join(pv.mountOptions, ","), authSource, GetFSGroup(w), "", "", "");
    if authSource == AUTH_POD then
      base.(namespace := w.namespace, serviceAccount := GetServiceAccountName(w), roleArn := roleArn)
    else base
  }

  /******* What a tuple says, field by field *******/

  /** The file system group of a workload, "" if it has none. */
  ghost predicate HasGroup(w: Workload, group: string) {
    (w.fsGroup == None && group == "") || w.fsGroup == Some(group)
  }

  /** `text` is `given`, or `default` if nothing is given. */
  ghost predicate IsOrDefault(text: string, given: string, default: string) {
    text == if given == "" then default else given
  }

  /** The tuple names the node, the volume with its mount options, the file system group, the authentication source and,
      if that is the Pod itself, its namespace, service account and role; otherwise none of these three. */
  ghost predicate Describes(s: Spec, w: Workload, pv: Volume, roleArn: string) {
    && s.nodeName == w.nodeName && s.pvName == pv.name && s.volumeId == pv.volumeHandle
    && s.mountOptions == Join(pv.mountOptions, ",") && HasGroup(w, s.fsGroup)
    && IsOrDefault(s.authSource, pv.authenticationSource, "driver")
    && if pv.authenticationSource == "pod"
       then s.namespace == w.namespace && IsOrDefault(s.serviceAccount, w.serviceAccountName, "default")
         && s.roleArn == roleArn
       else s.namespace == "" && s.serviceAccount == "" && s.roleArn == ""
  }

  lemma NewSpecIsDescribed(s: Spec, w: Workload, pv: Volume, roleArn: string)
    ensures s == NewSpec(w, pv, roleArn) <==> Describes(s, w, pv, roleArn)
  {}

  /** What two workloads, each with a volume, must have in common to share a Mountpoint Pod. */
  ghost predicate MayShare(w: Workload, pv: Volume, roleArn: string, w': Workload, pv': Volume, roleArn': string) {
    && w.nodeName == w'.nodeName && pv.name == pv'.name && pv.volumeHandle == pv'.volumeHandle
    && Join(pv.mountOptions, ",") == Join(pv'.mountOptions, ",")
    && (w.fsGroup == w'.fsGroup || {w.fsGroup, w'.fsGroup} == {None, Some("")})
    && (pv.authenticationSource == pv'.authenticationSource
        || {pv.authenticationSource, pv'.authenticationSource} == {"", "driver"})
    && (pv.authenticationSource == "pod" ==>
          && w.namespace == w'.namespace && roleArn == roleArn'
          && (w.serviceAccountName == w'.serviceAccountName
              || {w.serviceAccountName, w'.serviceAccountName} == {"", "default"}))
  }

  lemma EqualOrDefault(a: string, b: string, default: string)
    ensures (if a == "" then default else a) == (if b == "" then default else b)
      <==> a == b || {a, b} == {"", default}
  {
    if {a, b} == {"", default} { assert a in {"", default} && b in {"", default}; }
    if {a, b} != {"", default} && a != b { assert a == "" && b == default ==> {a, b} == {"", default}; }
  }

  lemma SameGroup(w: Workload, w': Workload)
    ensures GetFSGroup(w) == GetFSGroup(w') <==> w.fsGroup == w'.fsGroup || {w.fsGroup, w'.fsGroup} == {None, Some("")}
  {
    var both: set<Option<string>> := {None, Some("")};
    if {w.fsGroup, w'.fsGroup} == both { assert w.fsGroup in both && w'.fsGroup in both; }
    assert w.fsGroup == None && w'.fsGroup == Some("") ==> {w.fsGroup, w'.fsGroup} == both;
    assert w'.fsGroup == None && w.fsGroup == Some("") ==> {w.fsGroup, w'.fsGroup} == both;
  }

  /** Two workloads get one tuple exactly if they may share. */
  lemma SameTupleExactly(w: Workload, pv: Volume, roleArn: string, w': Workload, pv': Volume, roleArn': string)
    ensures NewSpec(w, pv, roleArn) == NewSpec(w', pv', roleArn') <==> MayShare(w, pv, roleArn, w', pv', roleArn')
  {
    SameGroup(w, w');
    EqualOrDefault(pv.authenticationSource, pv'.authenticationSource, "driver");
    EqualOrDefault(w.serviceAccountName, w'.serviceAccountName, "default");
  }

  /** The index functions of the informer cache. */
  function IndexField(s: Spec, field: string): Option<string> {
    if field == FIELD_NODE_NAME then Some(s.nodeName)
    else if field == FIELD_PV_NAME then Some(s.pvName)
    else if field == FIELD_VOLUME_ID then Some(s.volumeId)
    else if field == FIELD_MOUNT_OPTIONS then Some(s.mountOptions)
    else if field == FIELD_AUTH_SOURCE then Some(s.authSource)
    else if field == FIELD_FS_GROUP then Some(s.fsGroup)
    else if field == FIELD_SERVICE_ACCOUNT then Some(s.serviceAccount)
    else if field == FIELD_NAMESPACE then Some(s.namespace)
    else if field == FIELD_ROLE_ARN then Some(s.roleArn)
    else None
  }

  predicate Matches(filters: Filters, s: Spec) {
    forall f | f in filters :: IndexField(s, f) == Some(filters[f])
  }

  predicate WellFormed(s: Spec) {
    s.authSource == AUTH_POD || (s.namespace == "" && s.serviceAccount == "" && s.roleArn == "")
  }

  /** The filters that a sharing tuple stands for. */
  function FiltersOf(s: Spec): Filters {
    var common: Filters := map[
      FIELD_NODE_NAME := s.nodeName,
      FIELD_PV_NAME := s.pvName,
      FIELD_VOLUME_ID := s.volumeId,
      FIELD_MOUNT_OPTIONS := s.mountOptions,
      FIELD_FS_GROUP := s.fsGroup,
      FIELD_AUTH_SOURCE := s.authSource];
    if s.authSource == AUTH_POD then
      common[FIELD_NAMESPACE := s.namespace][FIELD_SERVICE_ACCOUNT := s.serviceAccount][FIELD_ROLE_ARN := s.roleArn]
    else common
  }

  function KeyOf(s: Spec): string {
    Key(FiltersOf(s))
  }

  lemma OwnFiltersMatch(s: Spec)
    requires WellFormed(s)
    ensures Matches(FiltersOf(s), s)
  {}

  lemma CommonFieldsMatch(s: Spec, t: Spec)
    requires Matches(FiltersOf(s), t)
    ensures s.nodeName == t.nodeName && s.pvName == t.pvName && s.volumeId == t.volumeId
    ensures s.mountOptions == t.mountOptions && s.fsGroup == t.fsGroup && s.authSource == t.authSource
  {
    var f := FiltersOf(s);
    assert IndexField(t, FIELD_NODE_NAME) == Some(f[FIELD_NODE_NAME]);
    assert IndexField(t, FIELD_PV_NAME) == Some(f[FIELD_PV_NAME]);
    assert IndexField(t, FIELD_VOLUME_ID) == Some(f[FIELD_VOLUME_ID]);
    assert IndexField(t, FIELD_MOUNT_OPTIONS) == Some(f[FIELD_MOUNT_OPTIONS]);
    assert IndexField(t, FIELD_FS_GROUP) == Some(f[FIELD_FS_GROUP]);
    assert IndexField(t, FIELD_AUTH_SOURCE) == Some(f[FIELD_AUTH_SOURCE]);
  }

  lemma PodFieldsMatch(s: Spec, t: Spec)
    requires Matches(FiltersOf(s), t) && s.authSource == AUTH_POD
    ensures s.namespace == t.namespace && s.serviceAccount == t.serviceAccount && s.roleArn == t.roleArn
  {
    var f := FiltersOf(s);
    assert IndexField(t, FIELD_NAMESPACE) == Some(f[FIELD_NAMESPACE]);
    assert IndexField(t, FIELD_SERVICE_ACCOUNT) == Some(f[FIELD_SERVICE_ACCOUNT]);
    assert IndexField(t, FIELD_ROLE_ARN) == Some(f[FIELD_ROLE_ARN]);
  }

  /** Filters match exactly the attachment that was, or would be, created for the same tuple. */
  lemma FiltersMatchExactly(s: Spec, t: Spec)
    requires WellFormed(s) && WellFormed(t)
    ensures Matches(FiltersOf(s), t) <==> s == t
    ensures FiltersOf(s) == FiltersOf(t) <==> s == t
  {
    OwnFiltersMatch(t);
    if Matches(FiltersOf(s), t) {
      CommonFieldsMatch(s, t);
      if s.authSource == AUTH_POD { PodFieldsMatch(s, t); }
    }
  }

  /** The two code paths that spell out a tuple, filtering and creating, agree. */
  lemma FreshAttachmentIsMatched(w: Workload, pv: Volume, roleArn: string, w': Workload, pv': Volume, roleArn': string)
    ensures WellFormed(NewSpec(w, pv, roleArn))
    ensures BuildFieldFilters(w, pv, roleArn) == FiltersOf(NewSpec(w, pv, roleArn))
    ensures Matches(BuildFieldFilters(w, pv, roleArn), NewSpec(w', pv', roleArn'))
       <==> BuildFieldFilters(w, pv, roleArn) == BuildFieldFilters(w', pv', roleArn')
  {
    var s, t := NewSpec(w, pv, roleArn), NewSpec(w', pv', roleArn');
    FiltersMatchExactly(s, t);
    assert BuildFieldFilters(w, pv, roleArn) == FiltersOf(s);
    assert BuildFieldFilters(w', pv', roleArn') == FiltersOf(t);
  }

  /** No field contains the separator of expectation keys. */
  predicate CleanSpec(s: Spec) {
    && ';' !in s.nodeName && ';' !in s.pvName && ';' !in s.volumeId && ';' !in s.mountOptions
    && ';' !in s.authSource && ';' !in s.fsGroup && ';' !in s.namespace && ';' !in s.serviceAccount && ';' !in s.roleArn
  }

  predicate PlainName(field: string) {
    forall i | 0 <= i < |field| :: field[i] != '=' && field[i] != ';'
  }

  lemma CommonFieldNamesArePlain()
    ensures PlainName(FIELD_NODE_NAME) && PlainName(FIELD_PV_NAME) && PlainName(FIELD_VOLUME_ID)
    ensures PlainName(FIELD_MOUNT_OPTIONS) && PlainName(FIELD_AUTH_SOURCE) && PlainName(FIELD_FS_GROUP)
  {}

  lemma PodFieldNamesArePlain()
    ensures PlainName(FIELD_SERVICE_ACCOUNT) && PlainName(FIELD_NAMESPACE) && PlainName(FIELD_ROLE_ARN)
  {}

  lemma CleanFilters(s: Spec)
    requires CleanSpec(s)
    ensures Clean(FiltersOf(s))
  {
    CommonFieldNamesArePlain();
    PodFieldNamesArePlain();
    forall k | k in FiltersOf(s) ensures PlainName(k) && ';' !in FiltersOf(s)[k] {}
  }

  lemma KeyDistinguishesCleanTuples(s: Spec, t: Spec)
    requires WellFormed(s) && WellFormed(t) && CleanSpec(s) && CleanSpec(t)
    ensures KeyOf(s) == KeyOf(t) <==> s == t
  {
    CleanFilters(s);
    CleanFilters(t);
    KeyInjective(FiltersOf(s), FiltersOf(t));
    FiltersMatchExactly(s, t);
  }
}
