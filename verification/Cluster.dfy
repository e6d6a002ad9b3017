/**
 * Cluster: the API server, the informer cache and everybody else, as the controller's client sees them.
 *
 * Every API call first lets the others move any number of steps, may fail, and otherwise takes one step of
 * the transition system. The ghost history is therefore a run, whatever the caller does with the client.
 */
module ClusterClient {
  import opened Strings
  import opened Expectations
  import opened SharingTuple
  import opened SharingModel
  import opened SharingInvariants
  import opened NeedsUnmount

  /** An attachment as read: a name, a resource version, and a content the reader may edit. */
  datatype Copy = Copy(name: nat, version: nat, spec: Spec, content: Attachments)

  datatype Outcome = Ok | Conflict | NotFound | Rejected

  datatype PodRead = Found(pod: MpPod) | Missing | ReadFailed

  /******* What others can and cannot change *******/

  /** Contents are kept, and deletions, annotations and births are final. */
  ghost predicate Evolves(w: World, w': World) {
    && |w.s3pas| <= |w'.s3pas| && |w.pods| <= |w'.pods| && w.born <= w'.born && w.attached <= w'.attached
    && w.missed <= w'.missed
    && (forall n | 0 <= n < |w.s3pas| :: S3paEvolves(w.s3pas[n], w'.s3pas[n]))
    && (forall m | 0 <= m < |w.pods| :: PodEvolves(w.pods[m], w'.pods[m]))
  }

  ghost predicate S3paEvolves(a: S3pa, b: S3pa) {
    && a.spec == b.spec && |a.versions| <= |b.versions| && b.versions[..|a.versions|] == a.versions
    && (b.live ==> a.live) && CacheEvolves(a.cached, b.cached)
  }

  /** The cache only moves forward. */
  ghost predicate CacheEvolves(a: Cached, b: Cached) {
    match a
    case Unseen => true
    case Visible(k) => b.Gone? || (b.Visible? && k <= b.version)
    case Gone => b.Gone?
  }

  ghost predicate PodEvolves(a: MpPod, b: MpPod) {
    (a.needsUnmount ==> b.needsUnmount) && (a.shown ==> b.shown) && (b.live ==> a.live)
  }

  /** What the cleaner and the environment leave alone. */
  ghost predicate Others(w: World, w': World) {
    Evolves(w, w') && Aside(w, w')
  }

  /** What only the reconciler changes. */
  ghost predicate Aside(w: World, w': World) {
    && w'.pending == w.pending && w'.view == w.view && w'.held == w.held && w'.used == w.used
    && w'.attached == w.attached
  }

  /** What a whole call of the cleaner does not change either. */
  ghost predicate Calm(w: World, w': World) {
    Aside(w, w') && w'.existing == w.existing && w'.born == w.born
  }

  lemma EvolvesUpdate(w: World, s: Step)
    requires Enabled(w, s) && s.Update?
    ensures Evolves(w, Apply(w, s))
  {}

  lemma EvolvesStep(w: World, s: Step)
    requires Enabled(w, s)
    ensures Evolves(w, Apply(w, s))
  {
    if s.Update? { EvolvesUpdate(w, s); }
  }

  lemma EvolvesTransitive(a: World, b: World, c: World)
    requires Evolves(a, b) && Evolves(b, c)
    ensures Evolves(a, c)
  {
    forall n | 0 <= n < |a.s3pas| ensures S3paEvolves(a.s3pas[n], c.s3pas[n]) {
      var k := |a.s3pas[n].versions|;
      assert S3paEvolves(a.s3pas[n], b.s3pas[n]) && S3paEvolves(b.s3pas[n], c.s3pas[n]);
      assert c.s3pas[n].versions[..k] == c.s3pas[n].versions[..|b.s3pas[n].versions|][..k];
    }
    forall m | 0 <= m < |a.pods| ensures PodEvolves(a.pods[m], c.pods[m]) {
      assert PodEvolves(a.pods[m], b.pods[m]) && PodEvolves(b.pods[m], c.pods[m]);
    }
  }

  predicate MayMove(me: Actor, s: Step) {
    match me
    case TheReconciler => IsEnvironment(s) || IsCleaner(s)
    case TheCleaner => !IsCleaner(s)
  }

  lemma OthersStep(w: World, s: Step)
    requires Enabled(w, s) && MayMove(TheReconciler, s)
    ensures Others(w, Apply(w, s))
  {
    EvolvesStep(w, s);
  }

  lemma OthersAnnotate(w: World, s: Step)
    requires Enabled(w, s) && (s.Annotate? || s.ReadMissing? || s.ShowPod?)
    ensures Others(w, Apply(w, s))
  {
    EvolvesStep(w, s);
  }

  /** A live attachment of tuple `t` whose only content is one Mountpoint Pod with one workload, attached at `time`. */
  ghost predicate IsJust(a: S3pa, t: Spec, m: nat, uid: string, time: int) {
    a.live && a.spec == t && a.versions == [map[m := [Attachment(uid, time)]]]
  }

  /** `c` was read from the cluster and its content was not edited. */
  ghost predicate IsCopy(w: World, c: Copy) {
    IsVersion(w, c) && c.content == w.s3pas[c.name].versions[c.version]
  }

  ghost predicate IsVersion(w: World, c: Copy) {
    c.name < |w.s3pas| && c.version < |w.s3pas[c.name].versions| && c.spec == w.s3pas[c.name].spec
  }

  lemma VersionsStay(w: World, w': World, c: Copy)
    requires Evolves(w, w') && IsVersion(w, c)
    ensures IsVersion(w', c) && w'.s3pas[c.name].versions[c.version] == w.s3pas[c.name].versions[c.version]
  {
    var a, b := w.s3pas[c.name], w'.s3pas[c.name];
    assert S3paEvolves(a, b);
    assert b.versions[c.version] == b.versions[..|a.versions|][c.version];
  }

  lemma ReleasedStays(w: World, w': World, m: nat)
    requires Evolves(w, w') && Released(w, m)
    ensures Released(w', m)
  {
    assert PodEvolves(w.pods[m], w'.pods[m]);
  }

  lemma ShownStays(w: World, w': World, n: nat, k: nat)
    requires Evolves(w, w') && Shown(w, n, k)
    ensures Shown(w', n, k)
  {
    assert S3paEvolves(w.s3pas[n], w'.s3pas[n]);
  }

  lemma AnnotateStaysAllowed(w: World, w': World, s3pa: Copy, m: nat, who: Actor)
    requires Evolves(w, w') && (who.TheCleaner? ==> w'.seen == w.seen)
    requires IsVersion(w, s3pa) && AnnotateAllowed(w, s3pa.name, s3pa.version, m, who)
    ensures AnnotateAllowed(w', s3pa.name, s3pa.version, m, who)
  {
    VersionsStay(w, w', s3pa);
    if who.TheCleaner? { ShownStays(w, w', s3pa.name, s3pa.version); }
  }

  lemma ChangeStaysAllowed(w: World, w': World, spec: Spec, base: Attachments, c: Change)
    requires ChangeAllowed(w, spec, base, c)
    requires Evolves(w, w') && if c.Clean? then w'.seen == w.seen else Others(w, w')
    ensures ChangeAllowed(w', spec, base, c)
  {
    forall m | Released(w, m) ensures Released(w', m) { ReleasedStays(w, w', m); }
  }

  lemma DeleteStaysAllowed(w: World, w': World, spec: Spec, base: Attachments, r: Reason)
    requires DeleteAllowed(w, spec, base, r)
    requires Evolves(w, w') && if r.AllCleaned? then w'.seen == w.seen else Others(w, w')
    ensures DeleteAllowed(w', spec, base, r)
  {
    forall m | Released(w, m) ensures Released(w', m) { ReleasedStays(w, w', m); }
  }

  /** `c` is a version of an attachment of tuple `t` that the cache shows. */
  ghost predicate Read(w: World, t: Spec, c: Copy) {
    IsCopy(w, c) && c.spec == t && w.s3pas[c.name].cached == Visible(c.version)
  }

  /** Why a write on the copy `c` fails: for a conflict there is a newer version, the object is gone, or the call was
      lost. */
  ghost predicate FailsFor(w: World, reliable: bool, o: Outcome, c: Copy) {
    && c.name < |w.s3pas|
    && match o
       case Conflict => c.version < |w.s3pas[c.name].versions| - 1
       case NotFound => !w.s3pas[c.name].live
       case _ => !reliable
  }

  /** Whom an Update attaches, and to which Mountpoint Pod. */
  ghost function Attaching(held: Option<nat>, c: Change): set<Record> {
    match c
    case Assign(m, uid, _, t) => {Record(m, uid, t)}
    case AddNew(uid, _, t) => if held.Some? then {Record(held.value, uid, t)} else {}
    case _ => {}
  }

  ghost function NamesOf(items: seq<Copy>): set<nat> {
    set i | 0 <= i < |items| :: items[i].name
  }

  lemma ListDecidesView(w: World, t: Spec, items: seq<Copy>)
    requires forall i | 0 <= i < |items| :: VisibleFor(w, t, items[i].name)
    requires forall i, j | 0 <= i < j < |items| :: items[i].name != items[j].name
    requires forall n | 0 <= n < |w.s3pas| && VisibleFor(w, t, n) :: n in NamesOf(items)
    ensures ViewAfterList(w, t) ==
      if |items| == 0 then Absent(t) else if |items| == 1 then Present(t) else Duplicated(t)
  {
    if |items| >= 1 { assert VisibleFor(w, t, items[0].name); }
    if |items| >= 2 {
      var a, b := items[0].name, items[1].name;
      assert a != b && VisibleFor(w, t, a) && VisibleFor(w, t, b);
      var lo, hi := if a < b then a else b, if a < b then b else a;
      assert 0 <= lo < hi < |w.s3pas| && VisibleFor(w, t, lo) && VisibleFor(w, t, hi);
    }
  }

  /** The listing, item by item, in whatever order. */
  method ReadVisible(w: World, filters: Filters, t: Spec) returns (items: seq<Copy>)
    requires Safe(w) && WellFormed(t) && filters == FiltersOf(t)
    ensures forall i | 0 <= i < |items| :: Read(w, t, items[i])
    ensures forall i, j | 0 <= i < j < |items| :: items[i].name != items[j].name
    ensures forall n | 0 <= n < |w.s3pas| :: VisibleFor(w, t, n) <==> n in NamesOf(items)
  {
    var names: set<nat> :=
      set n | 0 <= n < |w.s3pas| && w.s3pas[n].cached.Visible? && Matches(filters, w.s3pas[n].spec);
    forall n | 0 <= n < |w.s3pas| ensures VisibleFor(w, t, n) <==> n in names {
      FiltersMatchExactly(t, w.s3pas[n].spec);
    }
    ghost var all := names;
    items := [];
    while names != {}
      invariant names <= all
      invariant forall i | 0 <= i < |items| :: Read(w, t, items[i])
      invariant forall i, j | 0 <= i < j < |items| :: items[i].name != items[j].name
      invariant NamesOf(items) == all - names
      decreases names
    {
      var n :| n in names;
      assert VisibleFor(w, t, n);
      var k := w.s3pas[n].cached.version;
      var item := Copy(n, k, w.s3pas[n].spec, w.s3pas[n].versions[k]);
      assert forall i | 0 <= i < |items| :: items[i].name in NamesOf(items);
      NamesOfMore(items, item);
      items, names := items + [item], names - {n};
    }
  }

  lemma NamesOfMore(items: seq<Copy>, item: Copy)
    ensures NamesOf(items + [item]) == NamesOf(items) + {item.name}
  {
    assert forall i | 0 <= i < |items| :: (items + [item])[i] == items[i];
    assert (items + [item])[|items|] == item;
  }

  /******* The client *******/

  class Cluster {
    /** Nobody else moves during a call, so that calls are whole. */
    const quiet: bool
    /** A call fails only for a conflict or a missing object. */
    const reliable: bool
    var w: World
    /** All states and steps so far. */
    var run: Run

    ghost predicate Valid() reads this {
      run.Valid() && run.Last() == w && (quiet ==> IsWholeRun(run.hist, run.steps))
    }

    constructor (quiet: bool, reliable: bool)
      ensures Valid() && w == INIT && this.quiet == quiet && this.reliable == reliable
    {
      this.quiet, this.reliable, w, run := quiet, reliable, INIT, Run([INIT], []);
    }

    method Take(s: Step)
      requires Valid() && Enabled(w, s) && (quiet ==> Whole(w, s))
      modifies this
      ensures Valid() && w == Apply(old(w), s) && Evolves(old(w), w)
    {
      EvolvesStep(w, s);
      RunExtends(run.hist, run.steps, s);
      var run' := Run(run.hist + [Apply(w, s)], run.steps + [s]);
      if quiet { WholeRunExtends(run, s); }
      w, run := Apply(w, s), run';
    }

    /** The others move, as often as they like. */
    method Interfere(me: Actor)
      requires Valid()
      modifies this
      ensures Valid() && Evolves(old(w), w)
      ensures me == TheReconciler ==> Others(old(w), w)
      ensures me == TheCleaner ==> w.seen == old(w.seen)
      ensures quiet ==> w == old(w)
    {
      if quiet { return; }
      var moves: nat :| true;
      for i := 0 to moves
        invariant Valid() && Evolves(old(w), w)
        invariant me == TheReconciler ==> Others(old(w), w)
        invariant me == TheCleaner ==> w.seen == old(w.seen)
      {
        var s: Step :| true;
        if Enabled(w, s) && MayMove(me, s) {
          if me == TheReconciler { OthersStep(w, s); }
          ghost var before := w;
          Take(s);
          EvolvesTransitive(old(w), before, w);
        }
      }
    }

    /** Whether a call is lost on the way. */
    method Lost() returns (lost: bool)
      ensures reliable ==> !lost
    {
      lost := *;
      lost := lost && !reliable;
    }

    /** `List` with field filters: the visible matching attachments, in any order. */
    method ListMatching(filters: Filters, t: Spec) returns (ok: bool, items: seq<Copy>)
      requires Valid() && WellFormed(t) && filters == FiltersOf(t) && ListReady(w) && w.held.None?
      modifies this
      ensures Valid() && Evolves(old(w), w) && w.held.None? && w.pending == old(w.pending)
      ensures w.attached == old(w.attached) && w.used <= old(w.used) + {t}
      ensures !ok ==> !reliable && Others(old(w), w)
      ensures ok && |items| == 0 ==> w.view == Absent(t)
      ensures ok && |items| == 1 ==> w.view == Present(t)
      ensures ok && |items| >= 2 ==> w.view == Duplicated(t)
      ensures ok ==> forall i | 0 <= i < |items| :: Read(w, t, items[i])
      ensures ok ==> forall i, j | 0 <= i < j < |items| :: items[i].name != items[j].name
      ensures quiet && ok ==> w == Apply(old(w), List(t))
    {
      items := [];
      Interfere(TheReconciler);
      var lost := Lost();
      if lost { return false, []; }
      ok := true;
      RunIsSafe(run.hist, run.steps, |run.steps|);
      items := ReadVisible(w, filters, t);
      ListDecidesView(w, t, items);
      ghost var before := w;
      Take(List(t));
      EvolvesTransitive(old(w), before, w);
    }

    /** The cache of Pods shows some state of Mountpoint Pod `m` in which that lived. */
    ghost predicate WasPod(m: nat, pod: MpPod) reads this {
      exists i | 0 <= i < |run.hist| :: m < |run.hist[i].pods| && run.hist[i].pods[m] == pod && pod.live && pod.shown
    }

    /** `Get` of a Mountpoint Pod from a cache that lags: an old state, or NotFound of a Pod that it does not show
        yet. */
    method GetPod(me: Actor, m: nat) returns (r: PodRead)
      requires Valid()
      modifies this
      ensures Valid() && Evolves(old(w), w)
      ensures me == TheReconciler ==> Others(old(w), w)
      ensures me == TheCleaner ==> w.seen == old(w.seen)
      ensures quiet ==> w == old(w)
      ensures r.Found? && !quiet ==> WasPod(m, r.pod)
      ensures r.Missing? && m < |w.pods| ==> Enabled(w, ReadMissing(m, me))
      ensures quiet && r.Found? ==> m < |w.pods| && w.pods[m].live && r.pod == w.pods[m]
      ensures quiet && r.Missing? && m < |w.pods| ==> !w.pods[m].live
      ensures r.ReadFailed? ==> !reliable
    {
      Interfere(me);
      var lost := Lost();
      if lost { return ReadFailed; }
      if quiet || m >= |w.pods| {
        return if m < |w.pods| && w.pods[m].live then Found(w.pods[m]) else Missing;
      }
      var i: nat :| true;
      if i < |run.hist| && m < |run.hist[i].pods| && run.hist[i].pods[m].live && run.hist[i].pods[m].shown {
        return Found(run.hist[i].pods[m]);
      }
      r := if w.pods[m].live && w.pods[m].shown then Found(w.pods[m]) else Missing;
      assert run.hist[|run.steps|] == w;
    }

    /** `List` of all workload Pods. */
    method ReadPods() returns (ok: bool, existing: set<string>)
      requires Valid()
      modifies this
      ensures Valid() && Evolves(old(w), w)
      ensures reliable ==> ok
      ensures ok ==> w.seen.Some? && w.seen.value.existing == existing
      ensures quiet ==> w.s3pas == old(w.s3pas) && w.pods == old(w.pods) && Calm(old(w), w)
      ensures quiet && ok ==> existing == w.existing && w.seen.value.born == w.born
    {
      Interfere(TheCleaner);
      var lost := Lost();
      if lost { return false, {}; }
      ghost var before := w;
      Take(Step.ReadPods);
      EvolvesTransitive(old(w), before, w);
      ok, existing := true, w.existing;
    }

    /** The cache shows a Pod that was read from it. */
    method CatchUpPod(me: Actor, m: nat)
      requires Valid() && m < |w.pods|
      modifies this
      ensures Valid() && Evolves(old(w), w) && m < |w.pods|
      ensures w == old(w).(pods := old(w.pods)[m := old(w.pods[m]).(shown := true)])
    {
      Take(ShowPod(m));
    }

    /** `Update` of a Mountpoint Pod that sets the needs-unmount annotation, as decided on the copy `s3pa`. */
    method UpdatePodNeedsUnmount(me: Actor, s3pa: Copy, m: nat) returns (o: Outcome)
      requires Valid() && IsVersion(w, s3pa) && m < |w.pods| && AnnotateAllowed(w, s3pa.name, s3pa.version, m, me)
      requires quiet ==> IsLatest(w, s3pa.name, s3pa.version) && (me == TheCleaner ==> w.seen.value.born == w.born)
      modifies this
      ensures Valid() && Evolves(old(w), w)
      ensures me == TheReconciler ==> Others(old(w), w)
      ensures me == TheCleaner ==> w.seen == old(w.seen)
      ensures quiet ==> w.s3pas == old(w.s3pas) && Calm(old(w), w) && w.seen == old(w.seen)
      ensures o.Ok? ==> w.pods[m].needsUnmount
      ensures reliable && quiet && old(w.pods[m].live) ==> o.Ok?
    {
      Interfere(me);
      var lost := Lost();
      if lost { return Rejected; }
      if !w.pods[m].live { return NotFound; }
      var conflict := *;
      if conflict && !quiet { return Conflict; } // what was read is old
      ghost var before := w;
      CatchUpPod(me, m);
      EvolvesTransitive(old(w), before, w);
      AnnotateStaysAllowed(old(w), w, s3pa, m, me);
      before := w;
      var step := Annotate(s3pa.name, s3pa.version, m, me);
      if me == TheReconciler { OthersAnnotate(w, step); }
      Take(step);
      EvolvesTransitive(old(w), before, w);
      o := Ok;
    }

    /** `Create` of a Mountpoint Pod. */
    method CreatePod() returns (r: Option<nat>)
      requires Valid() && w.held.None?
      modifies this
      ensures Valid() && Evolves(old(w), w)
      ensures w.view == old(w.view) && w.pending == old(w.pending)
      ensures r.None? ==> !reliable && w.held.None?
      ensures w.attached == old(w.attached) && w.used == old(w.used)
      ensures r.Some? ==> w.held == r && |old(w).pods| <= r.value < |w.pods|
      ensures quiet && r.Some? ==> w == Apply(old(w), Spawn)
    {
      Interfere(TheReconciler);
      var lost := Lost();
      if lost { return None; }
      ghost var before := w;
      Take(Spawn);
      EvolvesTransitive(old(w), before, w);
      r := w.held;
    }

    /** The compensating `Delete` of a Mountpoint Pod that was just spawned. */
    method DeleteSpawnedPod() returns (o: Outcome)
      requires Valid() && w.held.Some? && w.held.value < |w.pods|
      modifies this
      ensures Valid() && Evolves(old(w), w)
      ensures w.view == old(w.view) && w.pending == old(w.pending) && w.held.None?
      ensures w.attached == old(w.attached) && w.used == old(w.used)
      ensures var m := old(w.held.value);
        m < |w.pods| && if o.Ok? then !w.pods[m].live else m in w.leaked
      ensures reliable ==> o.Ok?
    {
      Interfere(TheReconciler);
      var lost := Lost();
      ghost var before := w;
      Take(Unspawn(!lost));
      EvolvesTransitive(old(w), before, w);
      o := if lost then Rejected else Ok;
    }

    /** `Create` of an attachment, with the spawned Mountpoint Pod as its only entry. */
    method CreateAttachment(t: Spec, uid: string, time: int) returns (o: Outcome)
      requires Valid() && Enabled(w, Create(t, uid, time))
      modifies this
      ensures Valid() && Evolves(old(w), w) && w.pending == old(w.pending) && w.used == old(w.used)
      ensures w.attached == old(w.attached) + if o.Ok? then {Record(old(w.held.value), uid, t)} else {}
      ensures !o.Ok? ==> !reliable && w.held == old(w.held) && w.held.value < |w.pods| && w.view == old(w.view)
      ensures o.Ok? ==> w.held.None? && w.view == Made(t)
      ensures o.Ok? && quiet ==> w == Apply(old(w), Create(t, uid, time))
      ensures o.Ok? ==> |old(w).s3pas| < |w.s3pas| && IsJust(w.s3pas[|w.s3pas| - 1], t, old(w.held.value), uid, time)
    {
      Interfere(TheReconciler);
      var lost := Lost();
      if lost { return Rejected; }
      ghost var before := w;
      Take(Create(t, uid, time));
      EvolvesTransitive(old(w), before, w);
      o := Ok;
    }

    /** `Update` of an attachment: compare-and-swap on the version that `s3pa` carries. */
    method UpdateAttachment(me: Actor, s3pa: Copy, change: Change) returns (o: Outcome, s3pa': Copy)
      requires Valid() && IsVersion(w, s3pa)
      requires ChangeAllowed(w, s3pa.spec, w.s3pas[s3pa.name].versions[s3pa.version], change)
      requires s3pa.content == Changed(w.held, w.s3pas[s3pa.name].versions[s3pa.version], change)
      requires change.AddNew? ==> w.held.value < |w.pods|
      requires me == TheCleaner <==> change.Clean?
      requires change.Clean? ==> Shown(w, s3pa.name, s3pa.version)
      requires quiet && IsLatest(w, s3pa.name, s3pa.version) ==> Whole(w, Update(s3pa.name, s3pa.version, change))
      modifies this
      ensures Valid() && Evolves(old(w), w)
      ensures me == TheReconciler ==> w.pending == old(w.pending) && w.view == old(w.view) && w.used == old(w.used)
      ensures me == TheReconciler ==>
        w.attached == old(w.attached) + if o.Ok? then Attaching(old(w.held), change) else {}
      ensures me == TheReconciler ==>
        w.held == if o.Ok? && change.AddNew? then None else old(w.held)
      ensures me == TheCleaner ==> w.seen == old(w.seen)
      ensures o.Ok? ==>
        IsCopy(w, s3pa') && s3pa' == s3pa.(version := s3pa'.version) && IsLatest(w, s3pa'.name, s3pa'.version)
      ensures o.Ok? && quiet ==>
        && old(IsLatest(w, s3pa.name, s3pa.version))
        && w == Apply(old(w), Update(s3pa.name, s3pa.version, change))
      ensures !o.Ok? ==> FailsFor(w, reliable, o, s3pa)
      ensures !o.Ok? && quiet ==> w == old(w)
      ensures quiet && reliable && old(IsLatest(w, s3pa.name, s3pa.version)) ==> o.Ok?
    {
      s3pa' := s3pa;
      ghost var base := w.s3pas[s3pa.name].versions[s3pa.version];
      Interfere(me);
      VersionsStay(old(w), w, s3pa);
      ChangeStaysAllowed(old(w), w, s3pa.spec, base, change);
      if change.Clean? { ShownStays(old(w), w, s3pa.name, s3pa.version); }
      var lost := Lost();
      if lost { return Rejected, s3pa'; }
      if !w.s3pas[s3pa.name].live { return NotFound, s3pa'; }
      if s3pa.version != |w.s3pas[s3pa.name].versions| - 1 { return Conflict, s3pa'; }
      ghost var before := w;
      Take(Update(s3pa.name, s3pa.version, change));
      EvolvesTransitive(old(w), before, w);
      o, s3pa' := Ok, s3pa.(version := s3pa.version + 1);
    }

    /** `Delete` of an attachment with a resource version precondition. */
    method DeleteAttachment(me: Actor, s3pa: Copy, reason: Reason) returns (o: Outcome)
      requires Valid() && IsVersion(w, s3pa)
      requires DeleteAllowed(w, s3pa.spec, w.s3pas[s3pa.name].versions[s3pa.version], reason)
      requires me == TheCleaner <==> reason.AllCleaned?
      requires reason.AllCleaned? ==> Shown(w, s3pa.name, s3pa.version)
      modifies this
      ensures Valid() && Evolves(old(w), w)
      ensures me == TheReconciler ==> w.pending == old(w.pending) && w.held == old(w.held)
      ensures me == TheReconciler ==> w.attached == old(w.attached) && w.used == old(w.used)
      ensures me == TheReconciler ==>
        w.view == if o.Ok? && reason.NowEmpty? then Deleted(s3pa.spec) else old(w.view)
      ensures me == TheCleaner ==> w.seen == old(w.seen)
      ensures o.Ok? ==> IsVersion(w, s3pa) && !w.s3pas[s3pa.name].live
      ensures o.Ok? && quiet ==>
        && old(IsLatest(w, s3pa.name, s3pa.version))
        && w == Apply(old(w), Delete(s3pa.name, s3pa.version, reason))
      ensures !o.Ok? ==> FailsFor(w, reliable, o, s3pa)
      ensures !o.Ok? && quiet ==> w == old(w)
      ensures quiet && reliable && old(IsLatest(w, s3pa.name, s3pa.version)) ==> o.Ok?
    {
      ghost var base := w.s3pas[s3pa.name].versions[s3pa.version];
      Interfere(me);
      VersionsStay(old(w), w, s3pa);
      DeleteStaysAllowed(old(w), w, s3pa.spec, base, reason);
      if reason.AllCleaned? { ShownStays(old(w), w, s3pa.name, s3pa.version); }
      var lost := Lost();
      if lost { return Rejected; }
      if !w.s3pas[s3pa.name].live { return NotFound; }
      if s3pa.version != |w.s3pas[s3pa.name].versions| - 1 { return Conflict; }
      ghost var before := w;
      Take(Delete(s3pa.name, s3pa.version, reason));
      EvolvesTransitive(old(w), before, w);
      o := Ok;
    }
  }

  lemma WholeRunExtends(run: Run, s: Step)
    requires IsWholeRun(run.hist, run.steps) && Enabled(run.Last(), s) && Whole(run.Last(), s)
    ensures IsWholeRun(run.hist + [Apply(run.Last(), s)], run.steps + [s])
  {
    var hist', steps' := run.hist + [Apply(run.Last(), s)], run.steps + [s];
    RunExtends(run.hist, run.steps, s);
    forall i | 0 <= i < |steps'|
      ensures IsStep(hist'[i], steps'[i], hist'[i + 1]) && Whole(hist'[i], steps'[i])
    {
      if i < |run.steps| {
        assert IsStep(run.hist[i], run.steps[i], run.hist[i + 1]) && Whole(run.hist[i], run.steps[i]);
      }
    }
  }
}
