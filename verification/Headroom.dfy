/** Headroom: reserving room on a node for the Mountpoint Pods of a workload that is not scheduled yet. */
module Headroom {

  const HEADROOM_POD_NAME_PREFIX := "hr-"

  /** The volumes of a Pod: without a claim, with one that is not bound yet, or bound to a PV,
      of another driver or of ours. */
  datatype Claim = NoClaim | Unbound | Foreign | Backed(pv: string)

  datatype Phase = PodPending | PodRunning | PodEnded

  /** A workload Pod, the Headroom Pods of all workloads, by name, and the volumes for which a Mountpoint Pod was seen
      to in `spawnOrDeleteMountpointPodIfNeeded`. */
  datatype State = State(
    claims: seq<Claim>,
    scheduled: bool,
    terminating: bool,
    phase: Phase,
    labelled: bool,
    gated: bool,
    headroom: set<string>,
    seenTo: set<string>)

  /** The hash in the name is taken to be injective, so its input stands for it. */
  function HeadroomPodNameFor(uid: string, pv: string): string {
    HEADROOM_POD_NAME_PREFIX + uid + pv
  }

  predicate IsHeadroomPod(name: string) {
    HEADROOM_POD_NAME_PREFIX <= name
  }

  /** UIDs have one length, so that a name tells workload and volume. */
  lemma NameTellsWorkloadAndVolume(uid: string, pv: string, uid': string, pv': string)
    requires |uid| == |uid'|
    ensures HeadroomPodNameFor(uid, pv) == HeadroomPodNameFor(uid', pv') <==> uid == uid' && pv == pv'
    ensures IsHeadroomPod(HeadroomPodNameFor(uid, pv))
  {
    var n, n' := HeadroomPodNameFor(uid, pv), HeadroomPodNameFor(uid', pv');
    assert n[..3] == HEADROOM_POD_NAME_PREFIX;
    assert n[3..][..|uid|] == uid && n[3..][|uid|..] == pv;
    assert n'[3..][..|uid'|] == uid' && n'[3..][|uid'|..] == pv';
  }

  /** The volumes that the driver provides, in order. */
  function Volumes(claims: seq<Claim>): seq<string> {
    if claims == [] then []
    else (if claims[0].Backed? then [claims[0].pv] else []) + Volumes(claims[1..])
  }

  lemma {:induction false} VolumesOfMore(claims: seq<Claim>, c: Claim)
    ensures Volumes(claims + [c]) == Volumes(claims) + (if c.Backed? then [c.pv] else [])
  {
    if claims == [] {
      assert claims + [c] == [c];
    } else {
      assert (claims + [c])[1..] == claims[1..] + [c];
      VolumesOfMore(claims[1..], c);
    }
  }

  function Names(uid: string, volumes: seq<string>): set<string> {
    set pv | pv in volumes :: HeadroomPodNameFor(uid, pv)
  }

  /** `shouldDeleteHeadroomPodForTheWorkloadPod`. */
  predicate PastNeed(s: State) {
    s.terminating || (s.scheduled && !s.phase.PodPending?)
  }

  predicate AllBound(s: State) { Unbound !in s.claims }

  /** A Headroom Pod exists for every volume. */
  ghost predicate AllReserved(uid: string, s: State) {
    Names(uid, Volumes(s.claims)) <= s.headroom
  }

  ghost predicate NoneReserved(uid: string, s: State) {
    Names(uid, Volumes(s.claims)) !! s.headroom
  }

  /******* One pass, given which calls fail *******/

  /** For a volume: whether spawning, labelling apart, or creating succeeds, and whether deleting does. */
  datatype VolumeCalls = VolumeCalls(main: bool, delete: bool)

  datatype Calls = Calls(read: bool, mark: bool, volumes: seq<VolumeCalls>, ungate: bool, unmark: bool)

  predicate NothingFails(calls: Calls) {
    calls.read && calls.mark && calls.ungate && calls.unmark && forall c | c in calls.volumes :: c.main && c.delete
  }

  /** A failed call ends the work on the volume. */
  function AfterVolume(uid: string, s: State, pv: string, needs: bool, has: bool, c: VolumeCalls): State {
    var name := HeadroomPodNameFor(uid, pv);
    if (s.scheduled || needs) && !c.main then s
    else
      var made :=
        if s.scheduled then s.(seenTo := s.seenTo + {pv})
        else if needs then s.(headroom := s.headroom + {name})
        else s;
      if has && PastNeed(s) && c.delete then made.(headroom := made.headroom - {name}) else made
  }

  function AfterVolumes(uid: string, s: State, volumes: seq<string>, needs: bool, has: bool, cs: seq<VolumeCalls>)
    : State
    requires |cs| == |volumes|
  {
    if volumes == [] then s
    else
      var n := |volumes| - 1;
      AfterVolume(uid, AfterVolumes(uid, s, volumes[..n], needs, has, cs[..n]), volumes[n], needs, has, cs[n])
  }

  predicate VolumeOk(s: State, needs: bool, has: bool, c: VolumeCalls) {
    (s.scheduled || needs ==> c.main) && (has && PastNeed(s) ==> c.delete)
  }

  predicate VolumesOk(s: State, needs: bool, has: bool, cs: seq<VolumeCalls>) {
    forall c | c in cs :: VolumeOk(s, needs, has, c)
  }

  lemma VolumesOkMore(s: State, needs: bool, has: bool, cs: seq<VolumeCalls>, c: VolumeCalls)
    ensures VolumesOk(s, needs, has, cs + [c]) <==> VolumesOk(s, needs, has, cs) && VolumeOk(s, needs, has, c)
  {
    assert forall x | x in cs :: x in cs + [c];
    assert c in cs + [c];
  }

  function Labelled(s: State, needs: bool): State {
    if needs && !s.scheduled then s.(labelled := true) else s
  }

  /** What one Reconcile pass leaves. */
  function Passed(enabled: bool, uid: string, s: State, calls: Calls): State
    requires |calls.volumes| == |Volumes(s.claims)|
  {
    var needs, has, volumes := enabled && s.gated, enabled && s.labelled, Volumes(s.claims);
    if s.claims == [] || (!s.scheduled && !needs && !has) || !calls.read then s
    else if volumes != [] && Labelled(s, needs) != s && !calls.mark then s
    else
      var t := AfterVolumes(uid, if volumes != [] then Labelled(s, needs) else s, volumes, needs, has, calls.volumes);
      var ungates := needs && (s.scheduled ==> volumes == []) && AllBound(s);
      var unlabels := has && (PastNeed(s) || volumes == []);
      if !VolumesOk(s, needs, has, calls.volumes) || (ungates && !calls.ungate) then t
      else
        var u := if ungates then t.(gated := false) else t;
        if unlabels && calls.unmark then u.(labelled := false) else u
  }

  ghost predicate AllTrueFrom(log: seq<bool>, n: nat) {
    forall i | n <= i < |log| :: log[i]
  }

  lemma TrueInBoth(log: seq<bool>, log': seq<bool>, n: nat)
    requires log <= log' && n <= |log|
    ensures AllTrueFrom(log', n) <==> AllTrueFrom(log, n) && AllTrueFrom(log', |log|)
  {
    if AllTrueFrom(log', n) {
      forall i | n <= i < |log| ensures log[i] { assert log[i] == log'[i]; }
    }
  }

  class HeadroomReconciler {
    const enabled: bool
    const reliable: bool
    const uid: string
    var s: State
    /** Which calls have succeeded. */
    ghost var log: seq<bool>

    ghost predicate AllSucceededSince(n: nat) reads this {
      AllTrueFrom(log, n)
    }

    constructor (enabled: bool, reliable: bool, uid: string, s: State)
      ensures this.enabled == enabled && this.reliable == reliable && this.uid == uid && this.s == s
    {
      this.enabled, this.reliable, this.uid, this.s, log := enabled, reliable, uid, s, [];
    }

    /** Whether a call succeeds. */
    method Succeeds() returns (ok: bool)
      modifies this`log
      ensures reliable ==> ok
      ensures log == old(log) + [ok] && log[|log| - 1] == ok
    {
      ok := *;
      ok := ok || reliable;
      log := log + [ok];
    }

    method GetWorkloadVolumes() returns (ok: bool, volumes: seq<string>, hasUnboundPVCs: bool)
      modifies this`log
      ensures volumes == Volumes(s.claims) && (hasUnboundPVCs <==> !AllBound(s))
      ensures reliable ==> ok
      ensures old(log) <= log && (ok <==> AllSucceededSince(|old(log)|))
    {
      ok, volumes, hasUnboundPVCs := true, [], false;
      var claims := s.claims;
      for i := 0 to |claims|
        invariant volumes == Volumes(claims[..i])
        invariant hasUnboundPVCs <==> Unbound in claims[..i]
        invariant reliable ==> ok
        invariant old(log) <= log && (ok <==> AllSucceededSince(|old(log)|))
      {
        assert claims[..i + 1] == claims[..i] + [claims[i]];
        VolumesOfMore(claims[..i], claims[i]);
        if !claims[i].NoClaim? {
          ghost var before := log;
          var read := Succeeds();
          TrueInBoth(before, log, |old(log)|);
          ok := ok && read;
        }
        if claims[i].Backed? {
          volumes := volumes + [claims[i].pv];
        } else if claims[i].Unbound? {
          hasUnboundPVCs := true;
        }
      }
      assert claims[..|claims|] == claims;
    }

    method LabelWorkloadPodForHeadroomPod() returns (ok: bool)
      modifies this
      ensures s == if ok then old(s).(labelled := true) else old(s)
      ensures reliable || old(s).labelled ==> ok
      ensures old(log) <= log && (ok <==> AllSucceededSince(|old(log)|))
    {
      if s.labelled { return true; }
      ok := Succeeds();
      if ok { s := s.(labelled := true); }
    }

    /** Only for a labelled workload: the Headroom Pod finds its node by the label. */
    method CreateHeadroomPodForMountpointPod(pv: string) returns (ok: bool)
      requires s.labelled
      modifies this
      ensures s == if ok then old(s).(headroom := old(s).headroom + {HeadroomPodNameFor(uid, pv)}) else old(s)
      ensures reliable ==> ok
      ensures old(log) <= log && (ok <==> AllSucceededSince(|old(log)|))
    {
      ok := Succeeds();
      if ok { s := s.(headroom := s.headroom + {HeadroomPodNameFor(uid, pv)}); }
    }

    method DeleteHeadroomPodForMountpointPod(pv: string) returns (ok: bool)
      modifies this
      ensures s == if ok then old(s).(headroom := old(s).headroom - {HeadroomPodNameFor(uid, pv)}) else old(s)
      ensures reliable ==> ok
      ensures old(log) <= log && (ok <==> AllSucceededSince(|old(log)|))
    {
      ok := Succeeds();
      if ok { s := s.(headroom := s.headroom - {HeadroomPodNameFor(uid, pv)}); }
    }

    /** One volume; `reserved` and `removed` say what was done for it, and `fatal` that the pass ends here. */
    method ReconcileVolume(pv: string, first: bool, needsHeadroom: bool, hasHeadroomPods: bool)
      returns (ok: bool, fatal: bool, reserved: bool, removed: bool, ghost c: VolumeCalls)
      requires !first && needsHeadroom && !s.scheduled ==> s.labelled
      modifies this
      ensures reliable ==> ok
      ensures old(log) <= log && (ok <==> AllSucceededSince(|old(log)|))
      ensures ok <==> !fatal && c == VolumeCalls(true, true)
      ensures fatal ==> !ok && first && s == old(s) && Labelled(s, needsHeadroom) != s
      ensures !fatal ==>
        var l := if first then Labelled(old(s), needsHeadroom) else old(s);
        && s == AfterVolume(uid, l, pv, needsHeadroom, hasHeadroomPods, c)
        && (ok <==> VolumeOk(old(s), needsHeadroom, hasHeadroomPods, c))
        && (ok ==> (reserved <==> needsHeadroom && !s.scheduled) && (removed <==> hasHeadroomPods && PastNeed(s)))
    {
      ok, fatal, reserved, removed, c := true, false, false, false, VolumeCalls(true, true);
      if s.scheduled {
        // spawnOrDeleteMountpointPodIfNeeded
        ok := Succeeds();
        if ok { s := s.(seenTo := s.seenTo + {pv}); }
      } else if needsHeadroom {
        if first {
          ok := LabelWorkloadPodForHeadroomPod();
          if !ok { return false, true, false, false, c; }
        }
        ok := CreateHeadroomPodForMountpointPod(pv);
        reserved := ok;
      }
      if !ok {
        c := VolumeCalls(false, true);
        return;
      }
      if hasHeadroomPods && PastNeed(s) {
        ok := DeleteHeadroomPodForMountpointPod(pv);
        removed, c := ok, VolumeCalls(true, ok);
      }
    }

    /** The loop over the volumes, with its counts. */
    method ReconcileVolumes(volumes: seq<string>, needsHeadroom: bool, hasHeadroomPods: bool)
      returns (ok: bool, fatal: bool, numHeadroomPods: nat, numRemovedHeadroomPods: nat, ghost cs: seq<VolumeCalls>)
      modifies this
      ensures reliable ==> ok
      ensures old(log) <= log && (ok <==> AllSucceededSince(|old(log)|))
      ensures ok <==> !fatal && forall c | c in cs :: c == VolumeCalls(true, true)
      ensures |cs| == |volumes|
      ensures fatal ==> !ok && s == old(s) && volumes != [] && Labelled(s, needsHeadroom) != s
      ensures !fatal ==>
        var l := if volumes != [] then Labelled(old(s), needsHeadroom) else old(s);
        && s == AfterVolumes(uid, l, volumes, needsHeadroom, hasHeadroomPods, cs)
        && (ok <==> VolumesOk(old(s), needsHeadroom, hasHeadroomPods, cs))
      // the counts are those of all volumes, or none
      ensures ok ==> numHeadroomPods == (if needsHeadroom && !old(s).scheduled then |volumes| else 0)
      ensures ok ==> numRemovedHeadroomPods == (if hasHeadroomPods && PastNeed(old(s)) then |volumes| else 0)
    {
      ok, fatal, numHeadroomPods, numRemovedHeadroomPods, cs := true, false, 0, 0, [];
      ghost var l := if volumes != [] then Labelled(s, needsHeadroom) else s;
      for i := 0 to |volumes|
        invariant |cs| == i && (reliable ==> ok) && old(log) <= log && (ok <==> AllSucceededSince(|old(log)|))
        invariant ok <==> forall c | c in cs :: c == VolumeCalls(true, true)
        invariant s == if i == 0 then old(s) else AfterVolumes(uid, l, volumes[..i], needsHeadroom, hasHeadroomPods, cs)
        invariant ok <==> VolumesOk(old(s), needsHeadroom, hasHeadroomPods, cs)
        invariant ok ==> numHeadroomPods == (if needsHeadroom && !old(s).scheduled then i else 0)
        invariant ok ==> numRemovedHeadroomPods == (if hasHeadroomPods && PastNeed(old(s)) then i else 0)
      {
        OnlyHeadroomChanges(uid, l, volumes[..i], needsHeadroom, hasHeadroomPods, cs);
        ghost var c;
        ghost var before := log;
        var done, reserved, removed;
        done, fatal, reserved, removed, c := ReconcileVolume(volumes[i], i == 0, needsHeadroom, hasHeadroomPods);
        TrueInBoth(before, log, |old(log)|);
        if fatal {
          cs := seq(|volumes|, _ => VolumeCalls(true, true));
          return false, true, 0, 0, cs;
        }
        assert volumes[..i + 1][..i] == volumes[..i] && (cs + [c])[..i] == cs;
        VolumesOkMore(old(s), needsHeadroom, hasHeadroomPods, cs, c);
        ok, cs := ok && done, cs + [c];
        if reserved { numHeadroomPods := numHeadroomPods + 1; }
        if removed { numRemovedHeadroomPods := numRemovedHeadroomPods + 1; }
      }
      assert volumes[..|volumes|] == volumes;
    }

    method UngateHeadroomSchedulingGateForWorkloadPod() returns (ok: bool)
      modifies this
      ensures s == if ok then old(s).(gated := false) else old(s)
      ensures reliable ==> ok
      ensures old(log) <= log && (ok <==> AllSucceededSince(|old(log)|))
    {
      ok := Succeeds();
      if ok { s := s.(gated := false); }
    }

    method UnlabelWorkloadPodForHeadroomPod() returns (ok: bool)
      modifies this
      ensures s == if ok then old(s).(labelled := false) else old(s)
      ensures reliable ==> ok
      ensures old(log) <= log && (ok <==> AllSucceededSince(|old(log)|))
    {
      ok := Succeeds();
      if ok { s := s.(labelled := false); }
    }

    method ReconcileWorkloadPod() returns (ok: bool, ghost calls: Calls)
      modifies this
      ensures |calls.volumes| == |Volumes(old(s).claims)| && s == Passed(enabled, uid, old(s), calls)
      ensures reliable ==> ok
      ensures old(log) <= log && (ok <==> AllSucceededSince(|old(log)|)) && (ok <==> NothingFails(calls))
    {
      ok, calls := true, Calls(true, true, seq(|Volumes(s.claims)|, _ => VolumeCalls(true, true)), true, true);
      var needsHeadroom, hasHeadroomPods := enabled && s.gated, enabled && s.labelled;
      if |s.claims| == 0 || (!s.scheduled && !needsHeadroom && !hasHeadroomPods) { return; }
      var volumes, hasUnboundPVCs;
      ok, volumes, hasUnboundPVCs := GetWorkloadVolumes();
      if !ok { return ok, calls.(read := false); }
      var fatal, numHeadroomPods, numRemovedHeadroomPods;
      ghost var cs;
      ok, fatal, numHeadroomPods, numRemovedHeadroomPods, cs :=
        ReconcileVolumes(volumes, needsHeadroom, hasHeadroomPods);
      calls := calls.(mark := !fatal, volumes := cs);
      if !ok { return; }
      OnlyHeadroomChanges(uid, if volumes != [] then Labelled(old(s), needsHeadroom) else old(s), volumes,
                          needsHeadroom, hasHeadroomPods, cs);
      if needsHeadroom && |volumes| == numHeadroomPods && !hasUnboundPVCs {
        ok := UngateHeadroomSchedulingGateForWorkloadPod();
        if !ok { return ok, calls.(ungate := false); }
      }
      if hasHeadroomPods && |volumes| == numRemovedHeadroomPods {
        ok := UnlabelWorkloadPodForHeadroomPod();
        if !ok { return ok, calls.(unmark := false); }
      }
    }
  }

  /******* What a pass means *******/

  ghost predicate SameOutside(names: set<string>, a: set<string>, b: set<string>) {
    forall n | n !in names :: n in a <==> n in b
  }

  lemma {:induction false} OnlyHeadroomChanges(uid: string, s: State, volumes: seq<string>, needs: bool, has: bool,
                                               cs: seq<VolumeCalls>)
    requires |cs| == |volumes|
    ensures var t := AfterVolumes(uid, s, volumes, needs, has, cs);
      && t == s.(headroom := t.headroom, seenTo := t.seenTo) && SameOutside(Names(uid, volumes), s.headroom, t.headroom)
      && (!(needs && !s.scheduled) ==> t.headroom <= s.headroom)
  {
    if volumes != [] {
      var n := |volumes| - 1;
      OnlyHeadroomChanges(uid, s, volumes[..n], needs, has, cs[..n]);
      NamesOfMore(uid, volumes, n);
      assert volumes[..n + 1] == volumes;
    }
  }

  lemma NamesOfMore(uid: string, volumes: seq<string>, i: nat)
    requires i < |volumes|
    ensures Names(uid, volumes[..i + 1]) == Names(uid, volumes[..i]) + {HeadroomPodNameFor(uid, volumes[i])}
  {
    assert volumes[..i + 1] == volumes[..i] + [volumes[i]];
  }

  /** If nothing fails, the loop leaves no Headroom Pod for a workload past need, and otherwise one for each volume. */
  lemma {:induction false} LoopOutcome(uid: string, s: State, volumes: seq<string>, needs: bool, has: bool,
                                       cs: seq<VolumeCalls>)
    requires |cs| == |volumes| && VolumesOk(s, needs, has, cs)
    ensures var t := AfterVolumes(uid, s, volumes, needs, has, cs);
      if has && PastNeed(s) then Names(uid, volumes) !! t.headroom
      else needs && !s.scheduled ==> Names(uid, volumes) <= t.headroom
  {
    if volumes != [] {
      var n := |volumes| - 1;
      assert VolumeOk(s, needs, has, cs[n]);
      LoopOutcome(uid, s, volumes[..n], needs, has, cs[..n]);
      OnlyHeadroomChanges(uid, s, volumes[..n], needs, has, cs[..n]);
      NamesOfMore(uid, volumes, n);
      assert volumes[..n + 1] == volumes;
    }
  }

  ghost predicate ValidCalls(s: State, calls: Calls) {
    |calls.volumes| == |Volumes(s.claims)|
  }

  /** Whatever fails: a pass touches its own Headroom Pods, label and gate only, makes none without the label, and takes
      the label away only after the last of them. */
  lemma PassIsOrderly(enabled: bool, uid: string, s: State, calls: Calls)
    requires ValidCalls(s, calls)
    ensures var s' := Passed(enabled, uid, s, calls);
      && s' == s.(labelled := s'.labelled, gated := s'.gated, headroom := s'.headroom, seenTo := s'.seenTo)
      && SameOutside(Names(uid, Volumes(s.claims)), s.headroom, s'.headroom)
      && (s'.headroom <= s.headroom || s'.labelled)
      && (s'.labelled && !s.labelled ==> enabled && s.gated && !s.scheduled)
      && (s.labelled && !s'.labelled ==> NoneReserved(uid, s') && (Volumes(s.claims) != [] ==> PastNeed(s)))
      && (s'.gated ==> s.gated)
  {
    var needs, has, volumes := enabled && s.gated, enabled && s.labelled, Volumes(s.claims);
    var l := if volumes != [] then Labelled(s, needs) else s;
    OnlyHeadroomChanges(uid, l, volumes, needs, has, calls.volumes);
    if VolumesOk(s, needs, has, calls.volumes) { LoopOutcome(uid, l, volumes, needs, has, calls.volumes); }
  }

  /** Whatever fails: when the gate goes, every claim is bound, and a Headroom Pod exists for every volume, unless the
      workload is terminating and was labelled already; for such a one none exists. */
  lemma GateGoesReservedUnlessTerminating(enabled: bool, uid: string, s: State, calls: Calls)
    requires ValidCalls(s, calls) && s.gated && !Passed(enabled, uid, s, calls).gated
    ensures AllBound(s) && s.claims != [] && (Volumes(s.claims) != [] ==> !s.scheduled)
    ensures AllReserved(uid, Passed(enabled, uid, s, calls))
      <==> Volumes(s.claims) == [] || !(s.labelled && s.terminating)
    ensures s.labelled && s.terminating ==> NoneReserved(uid, Passed(enabled, uid, s, calls))
  {
    var needs, has, volumes := enabled && s.gated, enabled && s.labelled, Volumes(s.claims);
    var l := if volumes != [] then Labelled(s, needs) else s;
    OnlyHeadroomChanges(uid, l, volumes, needs, has, calls.volumes);
    LoopOutcome(uid, l, volumes, needs, has, calls.volumes);
    if volumes != [] { assert HeadroomPodNameFor(uid, volumes[0]) in Names(uid, volumes); }
  }

  /** If nothing fails, the gate goes exactly when the workload has volumes, all its claims are bound, and it is not
      scheduled; so a workload without volumes keeps its gate for ever. */
  lemma GateGoesExactlyWhenBound(uid: string, s: State, calls: Calls)
    requires ValidCalls(s, calls) && NothingFails(calls) && s.gated
    ensures !Passed(true, uid, s, calls).gated <==>
      s.claims != [] && AllBound(s) && (s.scheduled ==> Volumes(s.claims) == [])
  {
    OnlyHeadroomChanges(uid, if Volumes(s.claims) != [] then Labelled(s, true) else s, Volumes(s.claims),
                        true, s.labelled, calls.volumes);
  }

  /** If nothing fails, a workload past need is left without Headroom Pods and label, and a gated one is reserved. */
  lemma PassAchieves(uid: string, s: State, calls: Calls)
    requires ValidCalls(s, calls) && NothingFails(calls) && s.claims != []
    ensures var s' := Passed(true, uid, s, calls);
      && (s.labelled && PastNeed(s) ==> NoneReserved(uid, s') && !s'.labelled)
      && (s.gated && !s.scheduled && !(s.labelled && s.terminating) ==> AllReserved(uid, s'))
  {
    var volumes := Volumes(s.claims);
    var l := if volumes != [] then Labelled(s, s.gated) else s;
    OnlyHeadroomChanges(uid, l, volumes, s.gated, s.labelled, calls.volumes);
    LoopOutcome(uid, l, volumes, s.gated, s.labelled, calls.volumes);
  }

  /** Who loses Headroom Pods, in so many words: a workload that has volumes and is labelled is left with none exactly
      when it is terminating, or scheduled and Running or ended. In all other cases, and whatever fails, a pass takes no
      Headroom Pod away; a scheduled one makes none either. */
  lemma HeadroomPodsGoExactlyPastNeed(uid: string, s: State, calls: Calls)
    requires ValidCalls(s, calls) && NothingFails(calls) && Volumes(s.claims) != [] && s.labelled
    ensures NoneReserved(uid, Passed(true, uid, s, calls)) && !Passed(true, uid, s, calls).labelled
      <==> s.terminating || (s.scheduled && (s.phase == PodRunning || s.phase == PodEnded))
  {
    assert s.claims != [];
    PassAchieves(uid, s, calls);
    PassIsOrderly(true, uid, s, calls);
  }

  lemma HeadroomPodsStayWhileNeeded(enabled: bool, uid: string, s: State, calls: Calls)
    requires ValidCalls(s, calls) && !s.terminating && (s.scheduled ==> s.phase == PodPending)
    ensures s.headroom <= Passed(enabled, uid, s, calls).headroom
    ensures s.scheduled ==> Passed(enabled, uid, s, calls).headroom == s.headroom
  {
    var needs, has, volumes := enabled && s.gated, enabled && s.labelled, Volumes(s.claims);
    LoopKeeps(uid, if volumes != [] then Labelled(s, needs) else s, volumes, needs, has, calls.volumes);
  }

  lemma PassSeesToAsTheLoop(enabled: bool, uid: string, s: State, calls: Calls)
    requires ValidCalls(s, calls)
    ensures var needs, has, volumes := enabled && s.gated, enabled && s.labelled, Volumes(s.claims);
      var l := if volumes != [] then Labelled(s, needs) else s;
      var t := AfterVolumes(uid, l, volumes, needs, has, calls.volumes);
      && (Passed(enabled, uid, s, calls).seenTo == t.seenTo || Passed(enabled, uid, s, calls).seenTo == s.seenTo)
      && (volumes != [] && s.scheduled && calls.read ==> Passed(enabled, uid, s, calls).seenTo == t.seenTo)
  {}

  /** Whichever calls fail, Mountpoint Pods are seen to for a scheduled workload only, and if none fails for each of its
      volumes. */
  lemma ScheduledIsSeenTo(enabled: bool, uid: string, s: State, calls: Calls, pv: string)
    requires ValidCalls(s, calls)
    ensures var s' := Passed(enabled, uid, s, calls);
      && (pv in s.seenTo ==> pv in s'.seenTo)
      && (pv in s'.seenTo && pv !in s.seenTo ==> s.scheduled && pv in Volumes(s.claims))
      && (s.scheduled && NothingFails(calls) && pv in Volumes(s.claims) ==> pv in s'.seenTo)
  {
    var needs, has, volumes := enabled && s.gated, enabled && s.labelled, Volumes(s.claims);
    PassSeesToAsTheLoop(enabled, uid, s, calls);
    LoopSeesTo(uid, if volumes != [] then Labelled(s, needs) else s, volumes, needs, has, calls.volumes, pv);
  }

  lemma {:induction false} LoopSeesTo(uid: string, s: State, volumes: seq<string>, needs: bool, has: bool,
                                      cs: seq<VolumeCalls>, pv: string)
    requires |cs| == |volumes|
    ensures var t := AfterVolumes(uid, s, volumes, needs, has, cs);
      && (pv in s.seenTo ==> pv in t.seenTo)
      && (pv in t.seenTo && pv !in s.seenTo ==> s.scheduled && pv in volumes)
      && (s.scheduled && (forall c | c in cs :: c.main) && pv in volumes ==> pv in t.seenTo)
  {
    if volumes != [] {
      var n := |volumes| - 1;
      LoopSeesTo(uid, s, volumes[..n], needs, has, cs[..n], pv);
      OnlyHeadroomChanges(uid, s, volumes[..n], needs, has, cs[..n]);
      assert volumes == volumes[..n] + [volumes[n]] && cs[n] in cs;
    }
  }

  lemma {:induction false} LoopKeeps(uid: string, s: State, volumes: seq<string>, needs: bool, has: bool,
                                     cs: seq<VolumeCalls>)
    requires |cs| == |volumes| && !s.terminating && (s.scheduled ==> s.phase == PodPending)
    ensures var t := AfterVolumes(uid, s, volumes, needs, has, cs);
      s.headroom <= t.headroom && (s.scheduled ==> t.headroom == s.headroom)
  {
    if volumes != [] {
      var n := |volumes| - 1;
      LoopKeeps(uid, s, volumes[..n], needs, has, cs[..n]);
      OnlyHeadroomChanges(uid, s, volumes[..n], needs, has, cs[..n]);
    }
  }

  lemma {:induction false} VolumesAre(claims: seq<Claim>, pv: string)
    ensures pv in Volumes(claims) <==> Backed(pv) in claims
  {
    if claims != [] {
      VolumesAre(claims[1..], pv);
      assert claims == [claims[0]] + claims[1..];
    }
  }

  /** A pass leaves the Headroom Pods of other workloads alone. */
  lemma OthersKeepTheirHeadroomPods(enabled: bool, uid: string, s: State, calls: Calls, uid': string, pv: string)
    requires ValidCalls(s, calls) && |uid| == |uid'| && uid != uid'
    ensures HeadroomPodNameFor(uid', pv) in s.headroom
      <==> HeadroomPodNameFor(uid', pv) in Passed(enabled, uid, s, calls).headroom
  {
    PassIsOrderly(enabled, uid, s, calls);
    forall pv' ensures HeadroomPodNameFor(uid, pv') != HeadroomPodNameFor(uid', pv) {
      NameTellsWorkloadAndVolume(uid, pv', uid', pv);
    }
  }

  /******* Runs *******/

  /** Between passes claims get bound, Pods are scheduled unless gated, end, and Headroom Pods are preempted. */
  ghost predicate Environment(uid: string, s: State, s': State) {
    && s'.labelled == s.labelled && (s'.gated ==> s.gated)
    && (s'.scheduled ==> s.scheduled || !s.gated) && (s.terminating ==> s'.terminating)
    && |s'.claims| == |s.claims|
    && (forall i | 0 <= i < |s.claims| :: s.claims[i].Unbound? || s'.claims[i] == s.claims[i])
    && (forall pv | HeadroomPodNameFor(uid, pv) in s'.headroom :: HeadroomPodNameFor(uid, pv) in s.headroom)
  }

  /** A pass in which some calls may fail. */
  ghost predicate IsPass(enabled: bool, uid: string, s: State, s': State) {
    exists calls :: ValidCalls(s, calls) && s' == Passed(enabled, uid, s, calls)
  }

  /** A pass in which none does. */
  ghost predicate IsFlawlessPass(uid: string, s: State, s': State) {
    exists calls :: ValidCalls(s, calls) && NothingFails(calls) && s' == Passed(true, uid, s, calls)
  }

  /** A run of passes and moves of the environment, from a workload without Headroom Pods that is not scheduled while
      it is gated. */
  ghost predicate IsRun(enabled: bool, uid: string, hist: seq<State>) {
    && hist != [] && (forall pv :: HeadroomPodNameFor(uid, pv) !in hist[0].headroom)
    && !(hist[0].gated && hist[0].scheduled)
    && forall i | 0 <= i < |hist| - 1 :: IsStep(enabled, uid, hist[i], hist[i + 1])
  }

  ghost predicate IsStep(enabled: bool, uid: string, s: State, s': State) {
    Environment(uid, s, s') || IsPass(enabled, uid, s, s')
  }

  /** Every Headroom Pod of the workload is for one of its volumes, and the label says that there may be some; and a
      gated workload is not scheduled. */
  ghost predicate Owned(uid: string, s: State) {
    && (forall pv | HeadroomPodNameFor(uid, pv) in s.headroom :: s.labelled && pv in Volumes(s.claims))
    && !(s.gated && s.scheduled)
  }

  lemma OwnedPass(enabled: bool, uid: string, s: State, calls: Calls)
    requires ValidCalls(s, calls) && Owned(uid, s)
    ensures Owned(uid, Passed(enabled, uid, s, calls))
  {
    var s' := Passed(enabled, uid, s, calls);
    PassIsOrderly(enabled, uid, s, calls);
    forall pv | HeadroomPodNameFor(uid, pv) in s'.headroom ensures s'.labelled && pv in Volumes(s'.claims) {
      var name, names := HeadroomPodNameFor(uid, pv), Names(uid, Volumes(s.claims));
      if name in names {
        var pv' :| pv' in Volumes(s.claims) && HeadroomPodNameFor(uid, pv') == name;
        NameTellsWorkloadAndVolume(uid, pv, uid, pv');
      }
    }
  }

  lemma OwnedStep(enabled: bool, uid: string, s: State, s': State)
    requires IsStep(enabled, uid, s, s') && Owned(uid, s)
    ensures Owned(uid, s')
  {
    if IsPass(enabled, uid, s, s') {
      var calls :| ValidCalls(s, calls) && s' == Passed(enabled, uid, s, calls);
      OwnedPass(enabled, uid, s, calls);
    } else {
      forall pv | HeadroomPodNameFor(uid, pv) in s'.headroom ensures pv in Volumes(s'.claims) {
        VolumesAre(s.claims, pv);
        VolumesAre(s'.claims, pv);
        var i :| 0 <= i < |s.claims| && s.claims[i] == Backed(pv);
        assert s'.claims[i] == Backed(pv);
      }
    }
  }

  lemma {:induction false} RunIsOwned(enabled: bool, uid: string, hist: seq<State>, i: nat)
    requires IsRun(enabled, uid, hist) && i < |hist|
    ensures Owned(uid, hist[i])
  {
    if i > 0 {
      RunIsOwned(enabled, uid, hist, i - 1);
      assert IsStep(enabled, uid, hist[i - 1], hist[i - 1 + 1]);
      OwnedStep(enabled, uid, hist[i - 1], hist[i]);
    }
  }

  /** In every run, a flawless pass takes the gate away exactly from a workload that has volumes and no unbound claim.
      */
  lemma GateGoesInRunsExactlyWhenBound(uid: string, hist: seq<State>, i: nat)
    requires IsRun(true, uid, hist) && i + 1 < |hist| && IsFlawlessPass(uid, hist[i], hist[i + 1]) && hist[i].gated
    ensures !hist[i + 1].gated <==> hist[i].claims != [] && AllBound(hist[i])
  {
    RunIsOwned(true, uid, hist, i);
    var calls :| ValidCalls(hist[i], calls) && NothingFails(calls) && hist[i + 1] == Passed(true, uid, hist[i], calls);
    GateGoesExactlyWhenBound(uid, hist[i], calls);
  }

  /** No Headroom Pod is forgotten: in every run, a flawless pass past need leaves none of the workload, except that it
      makes them first for a terminating workload that it finds gated and not labelled yet. */
  lemma HeadroomPodsGoAway(uid: string, hist: seq<State>, i: nat)
    requires IsRun(true, uid, hist) && i + 1 < |hist| && IsFlawlessPass(uid, hist[i], hist[i + 1]) && PastNeed(hist[i])
    ensures (forall pv :: HeadroomPodNameFor(uid, pv) !in hist[i + 1].headroom)
      <==> hist[i].labelled || !hist[i].gated || Volumes(hist[i].claims) == []
  {
    RunIsOwned(true, uid, hist, i);
    var s, s' := hist[i], hist[i + 1];
    var calls :| ValidCalls(s, calls) && NothingFails(calls) && s' == Passed(true, uid, s, calls);
    OwnedPass(true, uid, s, calls);
    PassIsOrderly(true, uid, s, calls);
    if s.claims != [] { PassAchieves(uid, s, calls); }
    if s.labelled || !s.gated || Volumes(s.claims) == [] {
      forall pv ensures HeadroomPodNameFor(uid, pv) !in s'.headroom {
        assert HeadroomPodNameFor(uid, pv) in s'.headroom ==>
          HeadroomPodNameFor(uid, pv) in Names(uid, Volumes(s'.claims));
      }
    } else {
      var pv := Volumes(s.claims)[0];
      assert HeadroomPodNameFor(uid, pv) in Names(uid, Volumes(s.claims));
    }
  }

  /** A run in which the gate goes too early: labelled while a claim was unbound, then bound and told to terminate. */
  lemma GateGoesTooEarly() returns (hist: seq<State>)
    ensures IsRun(true, "u", hist) && |hist| == 4 && hist[2].gated && Volumes(hist[2].claims) == ["p"]
    ensures IsFlawlessPass("u", hist[2], hist[3]) && !hist[3].gated && !AllReserved("u", hist[3])
  {
    var calls := Calls(true, true, [VolumeCalls(true, true)], true, true);
    var start := State([Backed("p"), Unbound], false, false, PodPending, false, true, {}, {});
    assert Volumes([Unbound]) == Volumes([Foreign]) == [] by { assert [Unbound][1..] == [Foreign][1..] == []; }
    assert start.claims[1..] == [Unbound] && start.claims[1] == Unbound;
    var reserved := Passed(true, "u", start, calls);
    PassIsOrderly(true, "u", start, calls);
    PassAchieves("u", start, calls);
    GateGoesExactlyWhenBound("u", start, calls);
    assert HeadroomPodNameFor("u", "p") in Names("u", ["p"]);
    var bound := reserved.(claims := [Backed("p"), Foreign], terminating := true);
    assert bound.claims[1..] == [Foreign];
    var end := Passed(true, "u", bound, calls);
    GateGoesExactlyWhenBound("u", bound, calls);
    GateGoesReservedUnlessTerminating(true, "u", bound, calls);
    hist := [start, reserved, bound, end];
    assert IsStep(true, "u", hist[0], hist[1]) && IsStep(true, "u", hist[1], hist[2]);
    assert IsStep(true, "u", hist[2], hist[3]);
  }
}
