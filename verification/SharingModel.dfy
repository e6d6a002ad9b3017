/**
 * SharingModel: the cluster that the controller works against, as a transition system.
 *
 * A step is one API call, one change of the controller's memory, or one move of the environment.
 * Reconcile calls run one at a time; the cleaner and the environment interleave with them freely.
 */
module SharingModel {
  import opened Strings
  import opened SharingTuple

  /** `uid` of the workload Pod and the time at which it was attached. */
  datatype Attachment = Attachment(uid: string, time: int)

  /** Mountpoint Pods are named by the order of their creation; generated names are fresh. */
  type Attachments = map<nat, seq<Attachment>>

  type Versions = s: seq<Attachments> | s != [] witness [map[]]

  /** What the informer cache shows of one attachment: nothing yet, some version, or nothing any more. */
  datatype Cached = Unseen | Visible(version: nat) | Gone

  /** A MountpointS3PodAttachment with every content it ever had; the index is its resource version. */
  datatype S3pa = S3pa(spec: Spec, versions: Versions, live: bool, cached: Cached) {
    function Latest(): Attachments { versions[|versions| - 1] }
  }

  /** `shown` tells whether the informer cache of Pods has ever shown it; `accepts` stands for the no-new-workload
      annotation and the driver version label; `home` records the attachment that the Pod was entered in. */
  datatype MpPod = MpPod(live: bool, shown: bool, needsUnmount: bool, accepts: bool, home: Option<nat>)

  /** What the running Reconcile call learnt from its last List, or did since. */
  datatype View =
    | Idle
    | Absent(t: Spec)
    | Present(t: Spec)
    | Duplicated(t: Spec)
    | Made(t: Spec)
    | Deleted(t: Spec)

  /** Workload `uid`, whose own tuple was `tuple`, was attached to Mountpoint Pod `mp`. */
  datatype Record = Record(mp: nat, uid: string, tuple: Spec)

  /** What the cleaner found when it last listed the workload Pods: those that existed, and all that had ever come. */
  datatype Reading = Reading(existing: set<string>, born: set<string>)

  datatype World = World(
    s3pas: seq<S3pa>,
    pods: seq<MpPod>,
    born: set<string>,        // workload UIDs that ever existed
    existing: set<string>,    // those whose Pod still exists
    pending: set<string>,     // keys of pending creations
    view: View,
    held: Option<nat>,        // spawned in this Reconcile call and not yet entered anywhere
    leaked: set<nat>,         // spawned, never entered, and the compensating delete failed
    attached: set<Record>,
    seen: Option<Reading>,    // the cleaner's last listing of workload Pods
    missed: set<nat>,         // Mountpoint Pods that a Get did not find when they were to be annotated
    used: set<Spec>)          // tuples that were ever listed

  const INIT := World([], [], {}, {}, {}, Idle, None, {}, {}, None, {}, {})

  /******* Attachment maps *******/

  predicate HasUid(a: Attachments, uid: string) {
    exists m | m in a :: ListHasUid(a[m], uid)
  }

  predicate ListHasUid(list: seq<Attachment>, uid: string) {
    exists i | 0 <= i < |list| :: list[i].uid == uid
  }

  /** The attachments of all workloads but one, in order. */
  function WithoutUid(list: seq<Attachment>, uid: string): (r: seq<Attachment>) {
    if list == [] then []
    else if list[0].uid == uid then WithoutUid(list[1..], uid)
    else [list[0]] + WithoutUid(list[1..], uid)
  }

  /** The attachments that are not dropped, in order. */
  function Without(list: seq<Attachment>, drop: set<Attachment>): (r: seq<Attachment>) {
    if list == [] then []
    else if list[0] in drop then Without(list[1..], drop)
    else [list[0]] + Without(list[1..], drop)
  }

  /** Drops attachments, and with them the Mountpoint Pods that serve nobody. */
  function CleanMap(a: Attachments, drop: set<Attachment>): Attachments {
    map m | m in a && Without(a[m], drop) != [] :: Without(a[m], drop)
  }

  /******* Steps *******/

  /** How an Update changes the content of an attachment. */
  datatype Change =
    | Assign(m: nat, uid: string, time: int, t: Spec)
    | AddNew(uid: string, time: int, t: Spec)
    | Remove(m: nat, uid: string)
    | DropEmpty(m: nat)
    | Clean(drop: set<Attachment>)

  /** Why an attachment is deleted. */
  datatype Reason = NowEmpty | EmptyDuplicate | AllCleaned(drop: set<Attachment>)

  datatype Actor = TheReconciler | TheCleaner

  datatype Step =
    // environment
    | Show(n: nat, version: nat)
    | Forget(n: nat)
    | Appear(uid: string)
    | Vanish(uid: string)
    | PodGone(m: nat)
    | PodAccepts(m: nat, accepts: bool)
    | ShowPod(m: nat)
    // reconciler
    | List(t: Spec)
    | Spawn
    | Unspawn(deleted: bool)
    | Create(t: Spec, uid: string, time: int)
    | SetPending(t: Spec)
    | Clear(t: Spec)
    // cleaner
    | ReadPods
    // reconciler or cleaner; `k` is the version of attachment `n` that was read before
    | ReadMissing(m: nat, who: Actor)
    | Annotate(n: nat, k: nat, m: nat, who: Actor)
    | Update(n: nat, k: nat, change: Change)
    | Delete(n: nat, k: nat, reason: Reason)

  predicate IsEnvironment(s: Step) {
    s.Show? || s.Forget? || s.Appear? || s.Vanish? || s.PodGone? || s.PodAccepts? || s.ShowPod?
  }

  predicate IsCleaner(s: Step) {
    || s.ReadPods? || (s.ReadMissing? && s.who.TheCleaner?) || (s.Annotate? && s.who.TheCleaner?)
    || (s.Update? && s.change.Clean?) || (s.Delete? && s.reason.AllCleaned?)
  }

  /** Compare-and-swap: version `k` of attachment `n` is the current one. */
  predicate IsLatest(w: World, n: nat, k: nat) {
    n < |w.s3pas| && w.s3pas[n].live && k == |w.s3pas[n].versions| - 1
  }

  /** A Mountpoint Pod that may leave its attachment: it is annotated, or was not found. */
  predicate Released(w: World, m: nat) {
    m < |w.pods| && (w.pods[m].needsUnmount || m in w.missed)
  }

  /** The cleaner did not see workload `uid` among the existing ones. */
  predicate TakenForGone(w: World, uid: string) {
    w.seen.Some? && uid !in w.seen.value.existing
  }

  predicate AllTakenForGone(w: World, list: seq<Attachment>) {
    forall i | 0 <= i < |list| :: TakenForGone(w, list[i].uid)
  }

  /** The cache has shown version `k` of attachment `n`, or a later one. */
  predicate Shown(w: World, n: nat, k: nat) {
    n < |w.s3pas| && (w.s3pas[n].cached.Gone? || (w.s3pas[n].cached.Visible? && k <= w.s3pas[n].cached.version))
  }

  /** The cleaner drops some attachments of `base`, all of workloads that it takes for gone, and lets no Pod leave
      that is not released. */
  predicate CleanAllowed(w: World, base: Attachments, drop: set<Attachment>) {
    && (forall x | x in drop :: TakenForGone(w, x.uid))
    && (exists m, i | m in base && 0 <= i < |base[m]| :: base[m][i] in drop)
    && (forall m | m in base && Without(base[m], drop) == [] :: Released(w, m))
  }

  /** As version `k` of attachment `n` tells, Mountpoint Pod `m` serves nobody; the cleaner has read it from the
      cache. */
  predicate AnnotateAllowed(w: World, n: nat, k: nat, m: nat, who: Actor) {
    && n < |w.s3pas| && k < |w.s3pas[n].versions| && m in w.s3pas[n].versions[k]
    && match who
       case TheReconciler => w.s3pas[n].versions[k][m] == []
       case TheCleaner => Shown(w, n, k) && w.seen.Some? && AllTakenForGone(w, w.s3pas[n].versions[k][m])
  }

  predicate ChangeAllowed(w: World, spec: Spec, base: Attachments, c: Change) {
    match c
    case Assign(m, uid, _, t) => m in base && !HasUid(base, uid) && t == spec && uid in w.born
    case AddNew(uid, _, t) => w.held.Some? && !HasUid(base, uid) && t == spec && uid in w.born
    case Remove(m, uid) => m in base
    case DropEmpty(m) => m in base && base[m] == [] && Released(w, m)
    case Clean(drop) => CleanAllowed(w, base, drop)
  }

  function Changed(held: Option<nat>, base: Attachments, c: Change): Attachments {
    match c
    case Assign(m, uid, time, _) => if m in base then base[m := base[m] + [Attachment(uid, time)]] else base
    case AddNew(uid, time, _) => if held.Some? then base[held.value := [Attachment(uid, time)]] else base
    case Remove(m, uid) => if m in base then base[m := WithoutUid(base[m], uid)] else base
    case DropEmpty(m) => base - {m}
    case Clean(drop) => CleanMap(base, drop)
  }

  predicate DeleteAllowed(w: World, spec: Spec, base: Attachments, r: Reason) {
    match r
    case NowEmpty => base == map[] && (w.view == Present(spec) || w.view == Duplicated(spec))
    case EmptyDuplicate => base == map[] && w.view == Duplicated(spec)
    case AllCleaned(drop) => CleanAllowed(w, base, drop) && CleanMap(base, drop) == map[]
  }

  predicate VisibleFor(w: World, t: Spec, n: nat) {
    n < |w.s3pas| && w.s3pas[n].spec == t && w.s3pas[n].cached.Visible?
  }

  predicate ListReady(w: World) {
    match w.view
    case Made(_) => false
    case Deleted(t) => KeyOf(t) !in w.pending
    case _ => true
  }

  predicate Enabled(w: World, s: Step) {
    match s
    case Show(n, version) =>
      n < |w.s3pas| && version < |w.s3pas[n].versions| &&
      (match w.s3pas[n].cached case Unseen => true case Visible(k) => k <= version case Gone => false)
    case Forget(n) => n < |w.s3pas| && !w.s3pas[n].live
    case Appear(uid) => uid !in w.born
    case Vanish(uid) => uid in w.existing
    case PodGone(m) => m < |w.pods|
    case PodAccepts(m, _) => m < |w.pods|
    case ShowPod(m) => m < |w.pods|
    case List(t) => WellFormed(t) && ListReady(w) && w.held.None?
    case Spawn => w.held.None?
    case Unspawn(_) => w.held.Some? && w.held.value < |w.pods|
    case Create(t, uid, _) =>
      && WellFormed(t) && (w.view == Absent(t) || w.view == Duplicated(t)) && KeyOf(t) !in w.pending
      && w.held.Some? && w.held.value < |w.pods| && uid in w.born
    case SetPending(t) => w.view == Made(t)
    case Clear(t) => w.view == Present(t) || w.view == Duplicated(t) || w.view == Deleted(t)
    case ReadPods => true
    case ReadMissing(m, _) => m < |w.pods| && (!w.pods[m].live || !w.pods[m].shown)
    case Annotate(n, k, m, who) =>
      m < |w.pods| && w.pods[m].live && w.pods[m].shown && AnnotateAllowed(w, n, k, m, who)
    case Update(n, k, c) =>
      && IsLatest(w, n, k) && ChangeAllowed(w, w.s3pas[n].spec, w.s3pas[n].versions[k], c)
      && (c.AddNew? ==> w.held.value < |w.pods|) && (c.Clean? ==> Shown(w, n, k))
    case Delete(n, k, r) =>
      && IsLatest(w, n, k) && DeleteAllowed(w, w.s3pas[n].spec, w.s3pas[n].versions[k], r)
      && (r.AllCleaned? ==> Shown(w, n, k))
  }

  function ViewAfterList(w: World, t: Spec): View {
    if exists n, n' | 0 <= n < n' < |w.s3pas| :: VisibleFor(w, t, n) && VisibleFor(w, t, n') then Duplicated(t)
    else if exists n | 0 <= n < |w.s3pas| :: VisibleFor(w, t, n) then Present(t)
    else Absent(t)
  }

  /** The held Pod finds its home in attachment `n`. */
  function Enter(w: World, n: nat, uid: string, t: Spec): World
    requires w.held.Some? && w.held.value < |w.pods|
  {
    var m := w.held.value;
    w.(pods := w.pods[m := w.pods[m].(home := Some(n))], held := None, attached := w.attached + {Record(m, uid, t)})
  }

  function Put(w: World, n: nat, content: Attachments): World
    requires n < |w.s3pas|
  {
    w.(s3pas := w.s3pas[n := w.s3pas[n].(versions := w.s3pas[n].versions + [content])])
  }

  function ApplyUpdate(w: World, n: nat, k: nat, c: Change): World
    requires Enabled(w, Update(n, k, c))
  {
    var w' := Put(w, n, Changed(w.held, w.s3pas[n].versions[k], c));
    match c
    case Assign(m, uid, _, t) => w'.(attached := w'.attached + {Record(m, uid, t)})
    case AddNew(uid, _, t) => Enter(w', n, uid, t)
    case _ => w'
  }

  function ApplyDelete(w: World, n: nat, r: Reason): World
    requires n < |w.s3pas|
  {
    w.(s3pas := w.s3pas[n := w.s3pas[n].(live := false)],
       view := if r.NowEmpty? then Deleted(w.s3pas[n].spec) else w.view)
  }

  function Apply(w: World, s: Step): World
    requires Enabled(w, s)
  {
    match s
    case Show(n, version) => w.(s3pas := w.s3pas[n := w.s3pas[n].(cached := Visible(version))])
    case Forget(n) => w.(s3pas := w.s3pas[n := w.s3pas[n].(cached := Gone)])
    case Appear(uid) => w.(born := w.born + {uid}, existing := w.existing + {uid})
    case Vanish(uid) => w.(existing := w.existing - {uid})
    case PodGone(m) => w.(pods := w.pods[m := w.pods[m].(live := false)])
    case PodAccepts(m, accepts) => w.(pods := w.pods[m := w.pods[m].(accepts := accepts)])
    case ShowPod(m) => w.(pods := w.pods[m := w.pods[m].(shown := true)])
    case List(t) => w.(view := ViewAfterList(w, t), used := w.used + {t})
    case Spawn => w.(pods := w.pods + [MpPod(true, false, false, true, None)], held := Some(|w.pods|))
    case Unspawn(deleted) =>
      if deleted
      then w.(pods := w.pods[w.held.value := w.pods[w.held.value].(live := false)], held := None)
      else w.(held := None, leaked := w.leaked + {w.held.value})
    case Create(t, uid, time) =>
      var content: Attachments := map[w.held.value := [Attachment(uid, time)]];
      var w' := w.(s3pas := w.s3pas + [S3pa(t, [content], true, Unseen)], view := Made(t));
      Enter(w', |w.s3pas|, uid, t)
    case SetPending(t) => w.(pending := w.pending + {KeyOf(t)}, view := Idle)
    case Clear(t) => w.(pending := w.pending - {KeyOf(t)})
    case ReadPods => w.(seen := Some(Reading(w.existing, w.born)))
    case ReadMissing(m, _) => w.(missed := w.missed + {m})
    case Annotate(_, _, m, _) => w.(pods := w.pods[m := w.pods[m].(needsUnmount := true)])
    case Update(n, k, c) => ApplyUpdate(w, n, k, c)
    case Delete(n, _, r) => ApplyDelete(w, n, r)
  }

  /******* Runs *******/

  /** `hist` starts in the empty cluster and follows `steps`. */
  ghost predicate IsRun(hist: seq<World>, steps: seq<Step>) {
    && |hist| == |steps| + 1 && hist[0] == INIT
    && forall i {:trigger steps[i]} | 0 <= i < |steps| :: IsStep(hist[i], steps[i], hist[i + 1])
  }

  ghost predicate IsStep(w: World, s: Step, w': World) {
    Enabled(w, s) && w' == Apply(w, s)
  }

  lemma RunExtends(hist: seq<World>, steps: seq<Step>, s: Step)
    requires IsRun(hist, steps) && Enabled(hist[|steps|], s)
    ensures IsRun(hist + [Apply(hist[|steps|], s)], steps + [s])
  {
    var hist', steps' := hist + [Apply(hist[|steps|], s)], steps + [s];
    forall i | 0 <= i < |steps'| ensures IsStep(hist'[i], steps'[i], hist'[i + 1]) {
      if i < |steps| { assert IsStep(hist[i], steps[i], hist[i + 1]); }
    }
  }

  /** A run as one value, for building particular runs. */
  datatype Run = Run(hist: seq<World>, steps: seq<Step>) {
    ghost predicate Valid() { IsRun(hist, steps) }
    ghost function Last(): World requires Valid() { hist[|steps|] }
  }

  ghost function Then(r: Run, s: Step): (r': Run)
    requires r.Valid() && Enabled(r.Last(), s)
    ensures r'.Valid() && r'.Last() == Apply(r.Last(), s)
  {
    RunExtends(r.hist, r.steps, s);
    Run(r.hist + [Apply(r.Last(), s)], r.steps + [s])
  }
}
