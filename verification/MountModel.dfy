/**
 * MountModel: mounting and unmounting on a node, as a transition system.
 *
 * Threads mount workloads or clean up Mountpoint Pods under the lock of the Mountpoint Pod; target paths are
 * unmounted by anybody at any time, without a lock.
 */
module MountModel {
  import L = MPPodLocks

  /** A FUSE mount is starting until its Mountpoint serves it, and corrupted once that is gone. */
  datatype Health = Starting | Healthy | Corrupted

  datatype Instance = Instance(pod: string, health: Health)

  /** Where a thread that holds a lock stands, and what it has learnt about the source path. */
  datatype Op =
    | Outside
    // Mount
    | MountStart
    | MountBroken        // the source is corrupted and has to be unmounted first
    | MountNeeded        // nothing is mounted at the source
    | MountWait          // mounted, and the Mountpoint Pod is told to serve
    | MountUndo          // that failed
    | MountReady         // the source is a healthy mount
    // cleanUnmount
    | CleanStart
    | CleanHealthy
    | CleanUnused        // healthy, and without references
    | CleanBroken
    // both
    | Finished

  /** `source` maps a Mountpoint Pod to the instance at its source path, and `targets` a target path to the
      instances that are bind mounted there, the last one on top. */
  datatype State = State(
    locks: L.State,
    ops: seq<Op>,
    instances: seq<Instance>,
    source: map<string, nat>,
    targets: map<string, seq<nat>>)

  const INIT := State(L.INIT, [], [], map[], map[])

  datatype Step =
    | Locking(l: L.Step)
    | Serve(i: nat)
    | Crash(i: nat)
    | UnmountTarget(target: string)
    | Begin(t: nat, mount: bool)
    | Check(t: nat)
    | MountSource(t: nat)
    | SeeReady(t: nat)
    | Fail(t: nat)
    | Bind(t: nat, target: string)
    | SeeUnused(t: nat)
    | Unmount(t: nat)
    | Finish(t: nat)

  /** Some bind mount refers to instance `i`. */
  predicate Referenced(targets: map<string, seq<nat>>, i: nat) {
    exists target | target in targets :: i in targets[target]
  }

  predicate Holds(s: State, t: nat) {
    t < |s.locks.threads| && t < |s.ops| && s.locks.threads[t].Holding?
  }

  /** The Mountpoint Pod whose lock thread `t` holds. */
  function PodOf(s: State, t: nat): string
    requires Holds(s, t)
  {
    s.locks.threads[t].pod
  }

  /** The instance at the source path, if there is one. */
  predicate AtSource(s: State, pod: string, i: nat) {
    pod in s.source && s.source[pod] == i && i < |s.instances|
  }

  predicate SourceIs(s: State, pod: string, health: Health) {
    pod in s.source && s.source[pod] < |s.instances| && s.instances[s.source[pod]].health == health
  }

  predicate LockingEnabled(s: State, l: L.Step) {
    L.Enabled(s.locks, l) && (l.Unlock? ==> l.t < |s.ops| && (s.ops[l.t].Finished? || s.ops[l.t].Outside?))
  }

  predicate Enabled(s: State, step: Step) {
    match step
    case Locking(l) => LockingEnabled(s, l)
    case Serve(i) => i < |s.instances| && s.instances[i].health == Starting
    case Crash(i) => i < |s.instances|
    case UnmountTarget(target) => target in s.targets && s.targets[target] != []
    case Begin(t, _) => Holds(s, t) && s.ops[t] == Outside
    case Check(t) => Holds(s, t) && (s.ops[t] == MountStart || s.ops[t] == CleanStart)
    case MountSource(t) => Holds(s, t) && s.ops[t] == MountNeeded
    case SeeReady(t) => Holds(s, t) && s.ops[t] == MountWait && SourceIs(s, PodOf(s, t), Healthy)
    case Fail(t) => Holds(s, t) && s.ops[t] == MountWait
    case Bind(t, _) => Holds(s, t) && s.ops[t] == MountReady && PodOf(s, t) in s.source
    case SeeUnused(t) =>
      && Holds(s, t) && s.ops[t] == CleanHealthy && PodOf(s, t) in s.source
      && !Referenced(s.targets, s.source[PodOf(s, t)])
    case Unmount(t) =>
      && Holds(s, t)
      && (s.ops[t] == MountBroken || s.ops[t] == MountUndo || s.ops[t] == CleanUnused || s.ops[t] == CleanBroken)
    // giving up anywhere; but a mount that has started is undone first
    case Finish(t) => Holds(s, t) && s.ops[t] != Outside && s.ops[t] != MountWait
  }

  /** What a thread goes on to after `CheckMountpoint` of the source; a starting mount does not answer. */
  function Checked(s: State, op: Op, pod: string): Op {
    if pod !in s.source || s.source[pod] >= |s.instances| then (if op == MountStart then MountNeeded else Finished)
    else match s.instances[s.source[pod]].health
      case Starting => Finished
      case Healthy => if op == MountStart then MountReady else CleanHealthy
      case Corrupted => if op == MountStart then MountBroken else CleanBroken
  }

  function Goto(s: State, t: nat, op: Op): State
    requires t < |s.ops|
  {
    s.(ops := s.ops[t := op])
  }

  function ApplyLocking(s: State, l: L.Step): State
    requires LockingEnabled(s, l)
  {
    var s' := s.(locks := L.Apply(s.locks, l));
    match l
    case Start => s'.(ops := s.ops + [Outside])
    case Unlock(t) => Goto(s', t, Outside)
    case _ => s'
  }

  function SetHealth(s: State, i: nat, health: Health): State
    requires i < |s.instances|
  {
    s.(instances := s.instances[i := s.instances[i].(health := health)])
  }

  function Apply(s: State, step: Step): State
    requires Enabled(s, step)
  {
    match step
    case Locking(l) => ApplyLocking(s, l)
    case Serve(i) => SetHealth(s, i, Healthy)
    case Crash(i) => SetHealth(s, i, Corrupted)
    case UnmountTarget(target) =>
      s.(targets := s.targets[target := s.targets[target][..|s.targets[target]| - 1]])
    case Begin(t, mount) => Goto(s, t, if mount then MountStart else CleanStart)
    case Check(t) => Goto(s, t, Checked(s, s.ops[t], PodOf(s, t)))
    case MountSource(t) =>
      var s' := s.(instances := s.instances + [Instance(PodOf(s, t), Starting)],
                   source := s.source[PodOf(s, t) := |s.instances|]);
      Goto(s', t, MountWait)
    case SeeReady(t) => Goto(s, t, MountReady)
    case Fail(t) => Goto(s, t, MountUndo)
    case Bind(t, target) =>
      var under := if target in s.targets then s.targets[target] else [];
      Goto(s.(targets := s.targets[target := under + [s.source[PodOf(s, t)]]]), t, Finished)
    case SeeUnused(t) => Goto(s, t, CleanUnused)
    case Unmount(t) =>
      Goto(s.(source := s.source - {PodOf(s, t)}), t, if s.ops[t] == MountBroken then MountNeeded else Finished)
    case Finish(t) => Goto(s, t, Finished)
  }

  ghost predicate IsRun(hist: seq<State>, steps: seq<Step>) {
    && |hist| == |steps| + 1 && hist[0] == INIT
    && forall i {:trigger steps[i]} | 0 <= i < |steps| :: IsStep(hist[i], steps[i], hist[i + 1])
  }

  ghost predicate IsStep(s: State, step: Step, s': State) {
    Enabled(s, step) && s' == Apply(s, step)
  }

  lemma RunExtends(hist: seq<State>, steps: seq<Step>, step: Step)
    requires IsRun(hist, steps) && Enabled(hist[|steps|], step)
    ensures IsRun(hist + [Apply(hist[|steps|], step)], steps + [step])
  {
    var hist', steps' := hist + [Apply(hist[|steps|], step)], steps + [step];
    forall i | 0 <= i < |steps'| ensures IsStep(hist'[i], steps'[i], hist'[i + 1]) {
      if i < |steps| { assert IsStep(hist[i], steps[i], hist[i + 1]); }
    }
  }

  /******* The invariant *******/

  ghost predicate Shape(s: State) {
    && L.Inv(s.locks) && |s.ops| == |s.locks.threads|
    && (forall p | p in s.source :: s.source[p] < |s.instances| && s.instances[s.source[p]].pod == p)
    && (forall t | 0 <= t < |s.ops| && s.ops[t] != Outside :: Holds(s, t))
  }

  /** What a thread has learnt is still true. */
  ghost predicate Knows(s: State, op: Op, pod: string) {
    match op
    case MountNeeded => pod !in s.source
    case MountWait => pod in s.source && !Referenced(s.targets, s.source[pod])
    case MountUndo => pod in s.source && !Referenced(s.targets, s.source[pod])
    case MountReady => pod in s.source && !SourceIs(s, pod, Starting)
    case CleanHealthy => pod in s.source && !SourceIs(s, pod, Starting)
    case CleanUnused => pod in s.source && !Referenced(s.targets, s.source[pod])
    case MountBroken => SourceIs(s, pod, Corrupted)
    case CleanBroken => SourceIs(s, pod, Corrupted)
    case _ => true
  }

  ghost predicate AllKnow(s: State) {
    forall t | 0 <= t < |s.ops| && Holds(s, t) :: Knows(s, s.ops[t], PodOf(s, t))
  }

  /** A bind mount of a mount that is not corrupted refers to what is healthy at the source path. */
  ghost predicate ReferencesServed(s: State) {
    forall i: nat | Referenced(s.targets, i) ::
      i < |s.instances| && s.instances[i].health != Starting
      && (s.instances[i].health == Healthy ==> AtSource(s, s.instances[i].pod, i))
  }

  ghost predicate Safe(s: State) {
    Shape(s) && AllKnow(s) && ReferencesServed(s)
  }

  /** Threads that hold locks hold those of different Pods. */
  lemma DifferentPods(s: State, t: nat, t': nat)
    requires L.Inv(s.locks) && Holds(s, t) && Holds(s, t') && t != t'
    ensures PodOf(s, t) != PodOf(s, t')
  {
    if PodOf(s, t) == PodOf(s, t') {
      assert L.IsHolder(s.locks, t, PodOf(s, t)) && L.IsHolder(s.locks, t', PodOf(s, t));
    }
  }

  /** A lock step leaves the other threads alone, and only an unlocking thread stops holding. */
  lemma LockingStep(s: State, l: L.Step, t: nat)
    requires LockingEnabled(s, l) && |s.ops| == |s.locks.threads| && Holds(s, t) && l != L.Unlock(t)
    ensures var s' := ApplyLocking(s, l); Holds(s', t) && PodOf(s', t) == PodOf(s, t) && s'.ops[t] == s.ops[t]
  {}

  lemma LockingShape(s: State, l: L.Step)
    requires LockingEnabled(s, l) && Shape(s)
    ensures Shape(ApplyLocking(s, l))
  {
    L.InvStep(s.locks, l);
    var s' := ApplyLocking(s, l);
    forall t | 0 <= t < |s'.ops| && s'.ops[t] != Outside ensures Holds(s', t) {
      LockingStep(s, l, t);
    }
  }

  lemma ShapeStep(s: State, step: Step)
    requires Enabled(s, step) && Safe(s)
    ensures Shape(Apply(s, step))
  {
    if step.Locking? { LockingShape(s, step.l); }
  }

  /** Bind mounts come from Bind only. */
  lemma ReferencesStep(s: State, step: Step, i: nat)
    requires Enabled(s, step) && Referenced(Apply(s, step).targets, i)
    ensures Referenced(s.targets, i) || (step.Bind? && i == s.source[PodOf(s, step.t)])
  {
    var target :| target in Apply(s, step).targets && i in Apply(s, step).targets[target];
    if target in s.targets && i in s.targets[target] {}
  }

  /** The source path of a Pod is the business of the thread that holds its lock. */
  lemma SourceStep(s: State, step: Step, pod: string)
    requires Enabled(s, step) && !(step.Unmount? && PodOf(s, step.t) == pod)
    requires !(step.MountSource? && PodOf(s, step.t) == pod)
    ensures var s' := Apply(s, step);
      (pod in s.source <==> pod in s'.source) && (pod in s.source ==> s'.source[pod] == s.source[pod])
  {}

  /** A mount that serves bind mounts stays where it is: the mount that a thread takes away is corrupted or unused. */
  lemma StaysServed(s: State, step: Step, i: nat)
    requires Enabled(s, step) && Shape(s) && ReferencesServed(s) && Referenced(s.targets, i)
    requires step.Unmount? || step.MountSource? ==> Knows(s, s.ops[step.t], PodOf(s, step.t))
    ensures var s' := Apply(s, step);
      && i < |s'.instances| && s'.instances[i].health != Starting
      && (s'.instances[i].health == Healthy ==> AtSource(s', s'.instances[i].pod, i))
  {}

  lemma ServedStep(s: State, step: Step)
    requires Enabled(s, step) && Safe(s)
    ensures ReferencesServed(Apply(s, step))
  {
    var s' := Apply(s, step);
    forall i: nat | Referenced(s'.targets, i)
      ensures i < |s'.instances| && s'.instances[i].health != Starting
      ensures s'.instances[i].health == Healthy ==> AtSource(s', s'.instances[i].pod, i)
    {
      ReferencesStep(s, step, i);
      if Referenced(s.targets, i) {
        StaysServed(s, step, i);
      } else {
        assert Knows(s, s.ops[step.t], PodOf(s, step.t));
      }
    }
  }

  /** What a thread knows about its Pod, no other thread and no outsider makes untrue. */
  lemma OthersKeepKnowledge(s: State, step: Step, t: nat)
    requires Enabled(s, step) && Safe(s) && Holds(s, t) && Holds(Apply(s, step), t)
    requires Apply(s, step).ops[t] == s.ops[t] && PodOf(Apply(s, step), t) == PodOf(s, t)
    requires step.Unmount? || step.MountSource? || step.Bind? ==> step.t != t
    ensures Knows(Apply(s, step), s.ops[t], PodOf(s, t))
  {
    var s', pod := Apply(s, step), PodOf(s, t);
    if step.Unmount? || step.MountSource? || step.Bind? { DifferentPods(s, step.t, t); }
    SourceStep(s, step, pod);
    assert Knows(s, s.ops[t], pod);
    if pod in s.source && Referenced(s'.targets, s.source[pod]) { ReferencesStep(s, step, s.source[pod]); }
  }

  /** A step of the thread itself teaches it something true. */
  lemma OwnKnowledge(s: State, step: Step)
    requires Enabled(s, step) && Safe(s)
    requires !step.Locking? && !step.Serve? && !step.Crash? && !step.UnmountTarget?
    ensures Knows(Apply(s, step), Apply(s, step).ops[step.t], PodOf(s, step.t))
  {
    var s', pod := Apply(s, step), PodOf(s, step.t);
    assert Knows(s, s.ops[step.t], pod);
    if pod in s'.source && Referenced(s'.targets, s'.source[pod]) { ReferencesStep(s, step, s'.source[pod]); }
  }

  /** The thread that makes a step, if it is one of ours and not about locks. */
  predicate IsBy(step: Step, t: nat) {
    !step.Locking? && !step.Serve? && !step.Crash? && !step.UnmountTarget? && step.t == t
  }

  /** A thread that does not move keeps its lock and its place, except that it may just have got the lock. */
  lemma StaysPut(s: State, step: Step, t: nat)
    requires Enabled(s, step) && Safe(s) && !IsBy(step, t) && t < |Apply(s, step).ops| && Holds(Apply(s, step), t)
    ensures Apply(s, step).ops[t] == Outside
      || (Holds(s, t) && Apply(s, step).ops[t] == s.ops[t] && PodOf(Apply(s, step), t) == PodOf(s, t))
  {
    if step.Locking? && Holds(s, t) && step.l != L.Unlock(t) { LockingStep(s, step.l, t); }
  }

  lemma KnowledgeStep(s: State, step: Step)
    requires Enabled(s, step) && Safe(s)
    ensures AllKnow(Apply(s, step))
  {
    var s' := Apply(s, step);
    forall t | 0 <= t < |s'.ops| && Holds(s', t) ensures Knows(s', s'.ops[t], PodOf(s', t)) {
      if IsBy(step, t) {
        OwnKnowledge(s, step);
      } else {
        StaysPut(s, step, t);
        if s'.ops[t] != Outside { OthersKeepKnowledge(s, step, t); }
      }
    }
  }

  lemma SafeStep(s: State, step: Step)
    requires Enabled(s, step) && Safe(s)
    ensures Safe(Apply(s, step))
  {
    ShapeStep(s, step);
    KnowledgeStep(s, step);
    ServedStep(s, step);
  }

  lemma {:induction false} RunIsSafe(hist: seq<State>, steps: seq<Step>, i: nat)
    requires IsRun(hist, steps) && i <= |steps|
    ensures Safe(hist[i])
  {
    if i > 0 {
      RunIsSafe(hist, steps, i - 1);
      assert IsStep(hist[i - 1], steps[i - 1], hist[i - 1 + 1]);
      SafeStep(hist[i - 1], steps[i - 1]);
    }
  }

  /******* All runs *******/

  /** Instance `i` was at the source path of its Pod, and no longer is. */
  ghost predicate UnmountedAtSource(s: State, s': State, pod: string, i: nat) {
    AtSource(s, pod, i) && !AtSource(s', pod, i)
  }

  /** In every interleaving: a healthy mount that still has bind mounts is never unmounted at its source. */
  lemma NoHealthyMountInUseIsUnmounted(hist: seq<State>, steps: seq<Step>, k: nat, pod: string, i: nat)
    requires IsRun(hist, steps) && k < |steps| && UnmountedAtSource(hist[k], hist[k + 1], pod, i)
    ensures !(hist[k].instances[i].health == Healthy && Referenced(hist[k].targets, i))
  {
    var s, step := hist[k], steps[k];
    assert IsStep(hist[k], steps[k], hist[k + 1]);
    RunIsSafe(hist, steps, k);
    if (step.Unmount? || step.MountSource?) && PodOf(s, step.t) == pod {
      assert Knows(s, s.ops[step.t], PodOf(s, step.t));
    } else {
      SourceStep(s, step, pod);
    }
  }

  /** As long as the Mountpoint of a bind mount is healthy, it is what is mounted at the source of its Pod. */
  lemma BindMountsAreServedBySource(hist: seq<State>, steps: seq<Step>, k: nat, target: string, i: nat)
    requires IsRun(hist, steps) && k <= |steps|
    requires target in hist[k].targets && i in hist[k].targets[target]
    ensures i < |hist[k].instances| && hist[k].instances[i].health != Starting
    ensures hist[k].instances[i].health == Healthy ==> AtSource(hist[k], hist[k].instances[i].pod, i)
  {
    RunIsSafe(hist, steps, k);
    assert Referenced(hist[k].targets, i);
  }

  /** A healthy Pod is never mounted over: no Pod has two mounts that serve workloads. */
  lemma OneServingMountPerPod(hist: seq<State>, steps: seq<Step>, k: nat, i: nat, i': nat)
    requires IsRun(hist, steps) && k <= |steps|
    requires i < |hist[k].instances| && i' < |hist[k].instances|
    requires hist[k].instances[i].pod == hist[k].instances[i'].pod
    requires hist[k].instances[i].health == Healthy && Referenced(hist[k].targets, i)
    requires hist[k].instances[i'].health == Healthy && Referenced(hist[k].targets, i')
    ensures i == i'
  {
    RunIsSafe(hist, steps, k);
  }

  /** A target unmount undoes a bind mount: what was mounted there before is on top again, and no other target has
      changed. */
  lemma UnmountUndoesBind(s: State, t: nat, target: string)
    requires Enabled(s, Bind(t, target))
    ensures var bound := Apply(s, Bind(t, target));
      && Enabled(bound, UnmountTarget(target))
      && var undone := Apply(bound, UnmountTarget(target)).targets;
         && undone.Keys == s.targets.Keys + {target}
         && (forall p | p in s.targets :: undone[p] == s.targets[p])
         && (target !in s.targets ==> undone[target] == [])
  {
    var under, i := if target in s.targets then s.targets[target] else [], s.source[PodOf(s, t)];
    assert (under + [i])[..|under + [i]| - 1] == under;
    var bound := Apply(s, Bind(t, target));
    assert bound.targets == s.targets[target := under + [i]];
    assert Apply(bound, UnmountTarget(target)).targets == s.targets[target := under];
  }

  /******* A mount that crashes and is replaced *******/

  lemma Next(hist: seq<State>, steps: seq<Step>, step: Step) returns (hist': seq<State>, steps': seq<Step>)
    requires IsRun(hist, steps) && Enabled(hist[|steps|], step)
    ensures IsRun(hist', steps') && steps' == steps + [step] && hist <= hist'
    ensures hist'[|steps'|] == Apply(hist[|steps|], step)
  {
    RunExtends(hist, steps, step);
    hist', steps' := hist + [Apply(hist[|steps|], step)], steps + [step];
  }

  /** Thread 0 and all lock objects are free. */
  ghost predicate Free(s: State) {
    s.locks.threads == [L.Idle] && s.locks.table == map[] && s.ops == [Outside]
  }

  /** Thread 0 holds the lock of `pod`, and nobody else any lock. */
  ghost predicate HeldByOne(s: State, pod: string, op: Op) {
    && |s.locks.threads| == 1 && s.locks.threads[0].Holding? && s.locks.threads[0].pod == pod && s.ops == [op]
    && s.locks.table == map[pod := s.locks.threads[0].lock] && s.locks.threads[0].lock < |s.locks.locks|
    && s.locks.locks[s.locks.threads[0].lock] == L.Lock(1, true)
  }

  ghost predicate SameMounts(s: State, s': State) {
    s'.instances == s.instances && s'.source == s.source && s'.targets == s.targets
  }

  lemma Locks(hist: seq<State>, steps: seq<Step>, pod: string) returns (hist': seq<State>, steps': seq<Step>)
    requires IsRun(hist, steps) && Free(hist[|steps|])
    ensures IsRun(hist', steps') && HeldByOne(hist'[|steps'|], pod, MountStart)
    ensures SameMounts(hist[|steps|], hist'[|steps'|])
  {
    hist', steps' := Next(hist, steps, Locking(L.Get(0, pod)));
    hist', steps' := Next(hist', steps', Locking(L.Acquire(0)));
    hist', steps' := Next(hist', steps', Begin(0, true));
  }

  lemma Unlocks(hist: seq<State>, steps: seq<Step>, pod: string) returns (hist': seq<State>, steps': seq<Step>)
    requires IsRun(hist, steps) && HeldByOne(hist[|steps|], pod, Finished)
    ensures IsRun(hist', steps') && Free(hist'[|steps'|]) && SameMounts(hist[|steps|], hist'[|steps'|])
  {
    hist', steps' := Next(hist, steps, Locking(L.Unlock(0)));
    hist', steps' := Next(hist', steps', Locking(L.Release(0)));
  }

  /** A new mount at the source comes to serve, and the target is bound to it. */
  lemma MountsAndBinds(hist: seq<State>, steps: seq<Step>, pod: string, target: string)
    returns (hist': seq<State>, steps': seq<Step>)
    requires IsRun(hist, steps) && HeldByOne(hist[|steps|], pod, MountNeeded)
    ensures IsRun(hist', steps') && HeldByOne(hist'[|steps'|], pod, Finished)
    ensures var s, s' := hist[|steps|], hist'[|steps'|];
      && s'.instances == s.instances + [Instance(pod, Healthy)] && s'.source == s.source[pod := |s.instances|]
      && s'.targets == s.targets[target := (if target in s.targets then s.targets[target] else []) + [|s.instances|]]
  {
    var i := |hist[|steps|].instances|;
    hist', steps' := Next(hist, steps, MountSource(0));
    hist', steps' := Next(hist', steps', Serve(i));
    hist', steps' := Next(hist', steps', SeeReady(0));
    hist', steps' := Next(hist', steps', Bind(0, target));
  }

  /** A run in which the mount of a Pod serves, crashes, and is replaced by the next call of Mount: the target is bound
      to the new mount, on top of the dead one. */
  lemma CrashedMountIsReplaced(pod: string, target: string) returns (hist: seq<State>, steps: seq<Step>)
    ensures IsRun(hist, steps)
    ensures var s := hist[|steps|];
      && s.instances == [Instance(pod, Corrupted), Instance(pod, Healthy)]
      && s.source == map[pod := 1] && s.targets == map[target := [0, 1]]
  {
    hist, steps := [INIT], [];
    hist, steps := Next(hist, steps, Locking(L.Start));
    hist, steps := Locks(hist, steps, pod);
    hist, steps := Next(hist, steps, Check(0));
    hist, steps := MountsAndBinds(hist, steps, pod, target);
    hist, steps := Unlocks(hist, steps, pod);
    hist, steps := Next(hist, steps, Crash(0));
    assert [] + [0] == [0];
    hist, steps := Replaces(hist, steps, pod, target);
  }

  /** A call of Mount that finds the mount at the source corrupted. */
  lemma Replaces(hist: seq<State>, steps: seq<Step>, pod: string, target: string)
    returns (hist': seq<State>, steps': seq<Step>)
    requires IsRun(hist, steps) && Free(hist[|steps|]) && hist[|steps|].source == map[pod := 0]
    requires hist[|steps|].instances == [Instance(pod, Corrupted)] && hist[|steps|].targets == map[target := [0]]
    ensures IsRun(hist', steps')
    ensures var s := hist'[|steps'|];
      && s.instances == [Instance(pod, Corrupted), Instance(pod, Healthy)]
      && s.source == map[pod := 1] && s.targets == map[target := [0, 1]]
  {
    hist', steps' := Locks(hist, steps, pod);
    hist', steps' := Next(hist', steps', Check(0));
    hist', steps' := Next(hist', steps', Unmount(0));
    hist', steps' := MountsAndBinds(hist', steps', pod, target);
    assert [0] + [1] == [0, 1];
  }
}
