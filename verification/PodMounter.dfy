/** PodMounter: Mount, target unmounts and cleanUnmount, step by step among other threads. */
module PodMounters {
  import L = MPPodLocks
  import opened MountModel

  /** A corrupted mount stays corrupted, and one that has served does not start again. */
  ghost predicate Worsens(s: State, s': State) {
    && |s.instances| <= |s'.instances|
    && forall i | 0 <= i < |s.instances| ::
         && (s.instances[i].health == Corrupted ==> s'.instances[i].health == Corrupted)
         && (s'.instances[i].health == Starting ==> s.instances[i].health == Starting)
  }

  /** What other threads leave alone: the place of `me`, its lock, and the source path under that lock. */
  ghost predicate Undisturbed(s: State, s': State, me: nat) {
    && me < |s.ops| == |s.locks.threads| && me < |s'.ops| == |s'.locks.threads|
    && s'.ops[me] == s.ops[me] && s'.locks.threads[me] == s.locks.threads[me]
    && Worsens(s, s')
    && (Holds(s, me) ==>
          var pod := PodOf(s, me);
          (pod in s.source <==> pod in s'.source) && (pod in s.source ==> s'.source[pod] == s.source[pod]))
  }

  lemma UndisturbedTransitive(a: State, b: State, c: State, me: nat)
    requires Undisturbed(a, b, me) && Undisturbed(b, c, me)
    ensures Undisturbed(a, c, me)
  {}

  /** A step of somebody else. */
  predicate IsOthers(step: Step, me: nat) {
    !IsBy(step, me) && !(step.Locking? && !step.l.Start? && step.l.t == me)
  }

  lemma OtherThreadsKeepPlaces(s: State, step: Step, me: nat)
    requires Enabled(s, step) && |s.ops| == |s.locks.threads| && me < |s.ops| && IsOthers(step, me)
    ensures var s' := Apply(s, step);
      && me < |s'.ops| == |s'.locks.threads| && s'.ops[me] == s.ops[me] && s'.locks.threads[me] == s.locks.threads[me]
      && Worsens(s, s')
  {}

  lemma OthersDoNotDisturb(s: State, step: Step, me: nat)
    requires Enabled(s, step) && Shape(s) && me < |s.ops| && IsOthers(step, me)
    ensures Undisturbed(s, Apply(s, step), me)
  {
    OtherThreadsKeepPlaces(s, step, me);
    if Holds(s, me) {
      if step.Unmount? || step.MountSource? { DifferentPods(s, step.t, me); }
      SourceStep(s, step, PodOf(s, me));
    }
  }

  /** The mount at the source path of `pod`, if it is gone, is corrupted or no bind mount refers to it. */
  ghost predicate TakenAway(s: State, s': State, pod: string) {
    pod in s.source && pod !in s'.source ==>
      var i := s.source[pod];
      i < |s'.instances| && (s'.instances[i].health == Corrupted || !Referenced(s'.targets, i))
  }

  /** A source path is left mounted only if bind mounts refer to a mount that is not corrupted, or if the mount is still
      starting. */
  ghost predicate RemovedUnlessInUse(s: State, s': State, pod: string, removed: bool) {
    && (removed <==> pod !in s'.source)
    && (SourceIs(s, pod, Corrupted) ==> removed)
    && (!removed ==> SourceIs(s, pod, Starting) || (pod in s'.source && Referenced(s'.targets, s'.source[pod])))
  }

  class Node {
    /** Every unmount system call succeeds. */
    const unmountsSucceed: bool
    /** So does every other call, but for waiting. */
    const callsSucceed: bool
    var s: State
    ghost var hist: seq<State>
    ghost var steps: seq<Step>
    /** How many calls have failed that are no unmounts. */
    ghost var failures: nat

    ghost predicate Valid() reads this {
      IsRun(hist, steps) && s == hist[|steps|]
    }

    constructor (unmountsSucceed: bool, callsSucceed: bool)
      ensures Valid() && s == INIT && this.unmountsSucceed == unmountsSucceed && this.callsSucceed == callsSucceed
    {
      this.unmountsSucceed, this.callsSucceed := unmountsSucceed, callsSucceed;
      s, hist, steps, failures := INIT, [INIT], [], 0;
    }

    /** Whether a call fails that is not an unmount. */
    method CallFails() returns (failed: bool)
      modifies this`failures
      ensures callsSucceed ==> !failed
      ensures failures == old(failures) + if failed then 1 else 0
    {
      failed := *;
      failed := failed && !callsSucceed;
      if failed { failures := failures + 1; }
    }

    /** What was there stays on record. */
    ghost predicate Grown(hist0: seq<State>, steps0: seq<Step>) reads this {
      hist0 <= hist && steps0 <= steps
    }

    /** After the first `before` steps, the thread binds nothing. */
    ghost predicate BindsNothing(before: nat, me: nat) reads this {
      forall k | before <= k < |steps| :: !(steps[k].Bind? && steps[k].t == me)
    }

    method Take(step: Step)
      requires Valid() && Enabled(s, step)
      modifies this
      ensures Valid() && s == Apply(old(s), step) && Grown(old(hist), old(steps)) && steps == old(steps) + [step]
      ensures failures == old(failures)
    {
      RunExtends(hist, steps, step);
      s := Apply(s, step);
      hist, steps := hist + [s], steps + [step];
    }

    /** The others move, as often as they like. */
    method Interfere(me: nat)
      requires Valid() && me < |s.ops|
      modifies this
      ensures Valid() && Undisturbed(old(s), s, me) && Grown(old(hist), old(steps))
      ensures failures == old(failures)
      ensures BindsNothing(|old(steps)|, me)
    {
      RunIsSafe(hist, steps, |steps|);
      var moves: nat :| true;
      for i := 0 to moves
        invariant Valid() && Undisturbed(old(s), s, me) && Grown(old(hist), old(steps))
        invariant failures == old(failures) && BindsNothing(|old(steps)|, me)
      {
        var step: Step :| true;
        if Enabled(s, step) && IsOthers(step, me) {
          RunIsSafe(hist, steps, |steps|);
          OthersDoNotDisturb(s, step, me);
          ghost var before := s;
          Take(step);
          UndisturbedTransitive(old(s), before, s, me);
        }
      }
    }

    /** Thread `me` holds the lock of `pod` and is at `op`. */
    ghost predicate At(me: nat, pod: string, op: Op) reads this {
      Holds(s, me) && PodOf(s, me) == pod && s.ops[me] == op
    }

    /** What the thread has learnt still holds. */
    lemma Remembers(me: nat)
      requires Valid() && Holds(s, me)
      ensures Knows(s, s.ops[me], PodOf(s, me))
    {
      RunIsSafe(hist, steps, |steps|);
    }

    lemma SourceExists(pod: string)
      requires Valid()
      ensures pod in s.source ==> s.source[pod] < |s.instances|
    {
      RunIsSafe(hist, steps, |steps|);
    }

    /** `mount.Unmount` of the source path. */
    method UnmountSource(me: nat) returns (ok: bool)
      requires Valid() && Enabled(s, Unmount(me))
      modifies this
      ensures Valid() && Grown(old(hist), old(steps))
      ensures ok ==> s == Apply(old(s), Unmount(me))
      ensures !ok ==> s == old(s) && !unmountsSucceed
      ensures failures == old(failures)
      ensures BindsNothing(|old(steps)|, me)
    {
      ok := *;
      ok := ok || unmountsSucceed;
      if ok { Take(Unmount(me)); }
    }

    /** `verifyOrSetupMountTarget` of the source path, after `CheckMountpoint`. */
    method CheckSource(me: nat, pod: string) returns (ok: bool)
      requires Valid() && At(me, pod, MountStart)
      modifies this
      ensures Valid() && Grown(old(hist), old(steps)) && |old(s).instances| <= |s.instances|
      ensures if ok then At(me, pod, MountNeeded) || At(me, pod, MountReady) else At(me, pod, Finished)
      ensures pod in s.source ==> pod in old(s).source && s.source[pod] == old(s).source[pod]
      // only a corrupted mount is taken away
      ensures pod in old(s).source && pod !in s.source ==>
        old(s).source[pod] < |s.instances| && s.instances[old(s).source[pod]].health == Corrupted
      // and if it can be, it is; without a mount there is nothing to do, and only a starting one is in the way
      ensures ok ==> (At(me, pod, MountNeeded) <==> pod !in s.source)
      ensures SourceIs(old(s), pod, Corrupted) && unmountsSucceed ==> ok && pod !in s.source
      ensures pod !in old(s).source ==> ok
      ensures !ok && unmountsSucceed ==> SourceIs(old(s), pod, Starting)
      ensures failures == old(failures)
      ensures BindsNothing(|old(steps)|, me)
    {
      SourceExists(pod);
      Interfere(me);
      Take(Check(me));
      if s.ops[me] == MountBroken {
        Interfere(me);
        Remembers(me);
        ok := UnmountSource(me);
        if !ok { Take(Finish(me)); }
      } else {
        ok := s.ops[me] != Finished;
      }
    }

    /** After `before` steps the thread gave up waiting for a mount that did not serve when it looked. */
    ghost predicate GaveUp(before: nat, me: nat, pod: string)
      requires Valid()
      reads this
    {
      exists k | before <= k < |steps| :: steps[k] == Fail(me) && !SourceIs(hist[k], pod, Healthy)
    }

    /** `mountS3AtSource`: what does not come to serve is unmounted again. */
    method MountS3AtSource(me: nat, pod: string) returns (ok: bool)
      requires Valid() && At(me, pod, MountNeeded)
      modifies this
      ensures Valid() && Grown(old(hist), old(steps)) && |old(s).instances| <= |s.instances|
      ensures if ok then At(me, pod, MountReady) else At(me, pod, Finished)
      ensures !ok && unmountsSucceed ==> pod !in s.source
      ensures ok ==> pod in s.source && |old(s).instances| <= s.source[pod]
      ensures !ok && callsSucceed ==> GaveUp(|old(steps)|, me, pod)
      ensures ok ==> failures == old(failures)
      ensures BindsNothing(|old(steps)|, me)
    {
      Interfere(me);
      Remembers(me);
      var refused := CallFails();
      if refused {
        Take(Finish(me));
        return false;
      }
      Take(MountSource(me));
      ok := WaitOrUndo(me, pod);
    }

    method WaitOrUndo(me: nat, pod: string) returns (ok: bool)
      requires Valid() && At(me, pod, MountWait) && pod in s.source && s.source[pod] < |s.instances|
      modifies this
      ensures Valid() && Grown(old(hist), old(steps)) && |old(s).instances| <= |s.instances|
      ensures if ok then At(me, pod, MountReady) else At(me, pod, Finished)
      ensures !ok && unmountsSucceed ==> pod !in s.source
      ensures ok ==> pod in s.source && s.source[pod] == old(s).source[pod]
      ensures !ok && callsSucceed ==> GaveUp(|old(steps)|, me, pod)
      ensures ok ==> failures == old(failures)
      ensures BindsNothing(|old(steps)|, me)
    {
      ok := WaitForMount(me, pod);
      if !ok { UndoMount(me, pod); }
    }

    /** Sends the mount options, and waits for the mount or for an error. */
    method WaitForMount(me: nat, pod: string) returns (ok: bool)
      requires Valid() && At(me, pod, MountWait) && pod in s.source && s.source[pod] < |s.instances|
      modifies this
      ensures Valid() && Grown(old(hist), old(steps)) && |old(s).instances| <= |s.instances|
      ensures if ok then At(me, pod, MountReady) else At(me, pod, MountUndo)
      ensures pod in s.source && s.source[pod] == old(s).source[pod]
      // without an error, what serves at the last look is enough
      ensures ok ==> SourceIs(s, pod, Healthy)
      ensures !ok && callsSucceed ==> GaveUp(|old(steps)|, me, pod)
      ensures ok ==> failures == old(failures)
      ensures BindsNothing(|old(steps)|, me)
    {
      Interfere(me);
      var failed := CallFails();
      ok := !failed && s.instances[s.source[pod]].health == Healthy;
      ghost var k := |steps|;
      assert hist[k] == s;
      if ok { Take(SeeReady(me)); } else { Take(Fail(me)); }
      assert !ok ==> steps[k] == Fail(me);
    }

    /** The deferred unmount. */
    method UndoMount(me: nat, pod: string)
      requires Valid() && At(me, pod, MountUndo)
      modifies this
      ensures Valid() && Grown(old(hist), old(steps)) && At(me, pod, Finished) && |old(s).instances| <= |s.instances|
      ensures unmountsSucceed ==> pod !in s.source
      ensures failures == old(failures)
      ensures BindsNothing(|old(steps)|, me)
    {
      Interfere(me);
      var undone := UnmountSource(me);
      if !undone { Take(Finish(me)); }
    }

    /** `Mount`, from acquiring the lock of the Mountpoint Pod to releasing it. */
    method MountLocked(me: nat, pod: string, target: string, isTargetMountPoint: bool) returns (ok: bool)
      requires Valid() && At(me, pod, Outside)
      modifies this
      ensures Valid() && Grown(old(hist), old(steps)) && At(me, pod, Finished)
      // on success the target is bound to what is served at the source
      ensures ok ==> pod in s.source && !SourceIs(s, pod, Starting)
      ensures ok && !isTargetMountPoint ==> Bound(s, pod, target)
      // on failure no mount of this call is left that nobody serves
      ensures !ok && unmountsSucceed && pod in s.source ==>
        s.source[pod] < |old(s).instances| || !SourceIs(s, pod, Starting)
      // and a failure means that calls fail, or that a mount does not come to serve
      ensures !ok && unmountsSucceed && callsSucceed ==>
        SourceIs(old(s), pod, Starting) || GaveUp(|old(steps)|, me, pod)
      ensures ok ==> failures == old(failures)
      // where something is mounted already, nothing is bound
      ensures isTargetMountPoint ==> BindsNothing(|old(steps)|, me)
    {
      ok := ServeSource(me, pod);
      if !ok { return; }
      ok := BindTarget(me, pod, target, isTargetMountPoint);
    }

    /** The part of `Mount` up to a source path that serves. */
    method ServeSource(me: nat, pod: string) returns (ok: bool)
      requires Valid() && At(me, pod, Outside)
      modifies this
      ensures Valid() && Grown(old(hist), old(steps)) && At(me, pod, if ok then MountReady else Finished)
      ensures !ok && unmountsSucceed && pod in s.source ==>
        s.source[pod] < |old(s).instances| || !SourceIs(s, pod, Starting)
      ensures !ok && unmountsSucceed && callsSucceed ==>
        SourceIs(old(s), pod, Starting) || GaveUp(|old(steps)|, me, pod)
      ensures ok ==> failures == old(failures)
      ensures BindsNothing(|old(steps)|, me)
    {
      SourceExists(pod);
      Take(Begin(me, true));
      ok := CheckSource(me, pod);
      if ok { ok := PrepareSource(me, pod); }
    }

    /** Provides the credentials, and mounts at the source path if nothing is mounted there. */
    method PrepareSource(me: nat, pod: string) returns (ok: bool)
      requires Valid() && (At(me, pod, MountNeeded) || At(me, pod, MountReady))
      modifies this
      ensures Valid() && Grown(old(hist), old(steps)) && |old(s).instances| <= |s.instances|
      ensures At(me, pod, if ok then MountReady else Finished)
      ensures !ok && unmountsSucceed && pod in s.source ==> pod in old(s).source && s.source[pod] == old(s).source[pod]
      // what is mounted is left alone
      ensures old(s).ops[me] == MountReady && callsSucceed ==> ok
      ensures !ok && callsSucceed ==> GaveUp(|old(steps)|, me, pod)
      ensures old(s).ops[me] == MountReady && pod in old(s).source ==>
        pod in s.source && s.source[pod] == old(s).source[pod]
      ensures ok ==> failures == old(failures)
      ensures BindsNothing(|old(steps)|, me)
    {
      Interfere(me);
      var noCredentials := CallFails();
      if noCredentials {
        Take(Finish(me));
        return false;
      }
      ok := true;
      if s.ops[me] == MountNeeded {
        ok := MountS3AtSource(me, pod);
      }
    }

    method BindTarget(me: nat, pod: string, target: string, isTargetMountPoint: bool) returns (ok: bool)
      requires Valid() && At(me, pod, MountReady)
      modifies this
      ensures |old(steps)| < |steps|
      ensures Valid() && Grown(old(hist), old(steps))
      ensures At(me, pod, Finished) && pod in s.source && !SourceIs(s, pod, Starting)
      ensures ok && !isTargetMountPoint ==> Bound(s, pod, target) && steps[|steps| - 1] == Bind(me, target)
      ensures callsSucceed ==> ok
      ensures ok ==> failures == old(failures)
      // where something is mounted already, nothing is bound
      ensures isTargetMountPoint ==> BindsNothing(|old(steps)|, me)
    {
      Interfere(me);
      Remembers(me);
      if isTargetMountPoint {
        Take(Finish(me));
        return true;
      }
      var failed := CallFails();
      ok := !failed;
      if ok { Take(Bind(me, target)); } else { Take(Finish(me)); }
    }

    /** `cleanUnmount` of a Mountpoint Pod that is marked for it. */
    method CleanUnmount(me: nat, pod: string) returns (removed: bool)
      requires Valid() && At(me, pod, Outside)
      modifies this
      ensures Valid() && Grown(old(hist), old(steps)) && At(me, pod, Finished)
      ensures removed ==> pod !in s.source
      ensures TakenAway(old(s), s, pod)
      ensures unmountsSucceed && callsSucceed ==> RemovedUnlessInUse(old(s), s, pod, removed)
      ensures removed ==> failures == old(failures)
    {
      SourceExists(pod);
      Interfere(me);
      Take(Begin(me, false));
      Interfere(me);
      var notWritten := CallFails();
      if notWritten {
        Take(Finish(me));
        return false;
      }
      removed := UnmountAndRemoveMountpointSource(me, pod);
    }

    method UnmountAndRemoveMountpointSource(me: nat, pod: string) returns (removed: bool)
      requires Valid() && At(me, pod, CleanStart)
      modifies this
      ensures Valid() && Grown(old(hist), old(steps)) && At(me, pod, Finished)
      ensures removed ==> pod !in s.source
      // what is taken away is corrupted, or no bind mount refers to it
      ensures TakenAway(old(s), s, pod)
      ensures unmountsSucceed ==> RemovedUnlessInUse(old(s), s, pod, removed)
      ensures failures == old(failures)
    {
      SourceExists(pod);
      Take(Check(me));
      if s.ops[me] == Finished { return pod !in s.source; }
      if s.ops[me] == CleanHealthy {
        var unused := WaitUntilMountpointIsUnused(me, pod);
        if !unused { return false; }
      }
      removed := UnmountUnserved(me, pod);
    }

    /** Unmounts a source that is corrupted or was seen to have no bind mounts. */
    method UnmountUnserved(me: nat, pod: string) returns (removed: bool)
      requires Valid() && (At(me, pod, CleanUnused) || At(me, pod, CleanBroken))
      modifies this
      ensures Valid() && Grown(old(hist), old(steps)) && At(me, pod, Finished)
      ensures removed ==> pod !in s.source
      ensures TakenAway(old(s), s, pod)
      ensures unmountsSucceed ==> removed
      ensures failures == old(failures)
    {
      SourceExists(pod);
      Interfere(me);
      Remembers(me);
      removed := UnmountSource(me);
      if !removed { Take(Finish(me)); }
    }

    /** The last look before the timeout. */
    method WaitUntilMountpointIsUnused(me: nat, pod: string) returns (unused: bool)
      requires Valid() && At(me, pod, CleanHealthy)
      modifies this
      ensures Valid() && Grown(old(hist), old(steps)) && At(me, pod, if unused then CleanUnused else Finished)
      // it says what the last look shows
      ensures pod in s.source && (unused <==> !Referenced(s.targets, s.source[pod]))
      ensures pod in s.source && pod in old(s).source && s.source[pod] == old(s).source[pod] && Worsens(old(s), s)
      ensures failures == old(failures)
    {
      Interfere(me);
      Remembers(me);
      unused := !Referenced(s.targets, s.source[pod]);
      if unused { Take(SeeUnused(me)); } else { Take(Finish(me)); }
    }

    ghost predicate IsIdle(me: nat) reads this {
      me < |s.ops| && me < |s.locks.threads| && s.ops[me] == Outside && s.locks.threads[me] == L.Idle
    }

    /** Who waits for a locked mutex waits for a thread that holds it. */
    lemma WaitsForAHolder(me: nat)
      requires Valid() && me < |s.locks.threads| && s.locks.threads[me].Waiting?
      ensures s.locks.threads[me].lock < |s.locks.locks|
      ensures s.locks.locks[s.locks.threads[me].lock].locked ==>
        exists t :: L.IsHolder(s.locks, t, s.locks.threads[me].pod)
    {
      RunIsSafe(hist, steps, |steps|);
      assert L.Inv(s.locks);
    }

    /** `lockMountpointPod`; a thread that has not acquired the lock waits for it. */
    method LockMountpointPod(me: nat, pod: string) returns (acquired: bool)
      requires Valid() && IsIdle(me)
      modifies this
      ensures Valid() && (acquired ==> At(me, pod, Outside)) && Grown(old(hist), old(steps))
      ensures acquired ==> |old(steps)| < |steps| && steps[|steps| - 1] == Locking(L.Acquire(me))
      ensures !acquired ==> exists t :: L.IsHolder(s.locks, t, pod)
      ensures failures == old(failures)
      ensures BindsNothing(|old(steps)|, me)
    {
      Interfere(me);
      Take(Locking(L.Get(me, pod)));
      Interfere(me);
      WaitsForAHolder(me);
      acquired := s.locks.threads[me].lock < |s.locks.locks| && !s.locks.locks[s.locks.threads[me].lock].locked;
      if acquired { Take(Locking(L.Acquire(me))); }
    }

    lemma CanGiveBack(me: nat)
      requires Valid() && me < |s.locks.threads|
      ensures Holds(s, me) && s.ops[me] == Finished ==> Enabled(s, Locking(L.Unlock(me)))
      ensures s.locks.threads[me].Unlocked? ==> Enabled(s, Locking(L.Release(me)))
    {
      RunIsSafe(hist, steps, |steps|);
      assert L.Inv(s.locks);
    }

    method UnlockMountpointPod(me: nat, pod: string)
      requires Valid() && At(me, pod, Finished)
      modifies this
      ensures Valid() && IsIdle(me) && Grown(old(hist), old(steps))
      ensures |old(steps)| < |steps| && steps[|old(steps)|] == Locking(L.Unlock(me))
      ensures failures == old(failures)
      ensures BindsNothing(|old(steps)|, me)
    {
      CanGiveBack(me);
      Take(Locking(L.Unlock(me)));
      Interfere(me);
      CanGiveBack(me);
      Take(Locking(L.Release(me)));
    }

    /** After `before` steps, thread `me` acquires the lock of `pod`, which leads to state `start`, and gives it back
        in state `end`. */
    ghost predicate HeldBetween(before: nat, start: nat, end: nat, me: nat, pod: string)
      requires Valid()
      reads this
    {
      && before < start <= end < |steps|
      && steps[start - 1] == Locking(L.Acquire(me)) && steps[end] == Locking(L.Unlock(me))
      && Holds(hist[start], me) && PodOf(hist[start], me) == pod
      && Holds(hist[end], me) && PodOf(hist[end], me) == pod
    }

    /** `target` is bound to what is mounted at the source path of `pod`. */
    ghost predicate Bound(s: State, pod: string, target: string) {
      && pod in s.source && target in s.targets
      && s.targets[target] != [] && s.targets[target][|s.targets[target]| - 1] == s.source[pod]
    }

    /** `Mount`; this call holds the lock from state `start` to state `end`. */
    method Mount(me: nat, pod: string, target: string, isTargetMountPoint: bool)
      returns (returned: bool, ok: bool, ghost start: nat, ghost end: nat)
      requires Valid() && IsIdle(me)
      modifies this
      ensures Valid() && Grown(old(hist), old(steps))
      ensures returned ==> IsIdle(me) && HeldBetween(|old(steps)|, start, end, me, pod)
      ensures ok ==> returned && pod in hist[end].source && !SourceIs(hist[end], pod, Starting)
      ensures ok && !isTargetMountPoint ==> Bound(hist[end], pod, target)
      // on failure no mount of this call is left that nobody serves
      ensures returned && !ok && unmountsSucceed && pod in hist[end].source ==>
        hist[end].source[pod] < |hist[start].instances| || !SourceIs(hist[end], pod, Starting)
      ensures returned && !ok && unmountsSucceed && callsSucceed ==>
        SourceIs(hist[start], pod, Starting) || GaveUp(|old(steps)|, me, pod)
      ensures ok ==> failures == old(failures)
      ensures isTargetMountPoint ==> BindsNothing(|old(steps)|, me)
    {
      returned := LockMountpointPod(me, pod);
      ok, start, end := false, |steps|, |steps|;
      if returned {
        assert hist[start] == s;
        ok := MountLocked(me, pod, target, isTargetMountPoint);
        end := |steps|;
        assert hist[end] == s;
        UnlockMountpointPod(me, pod);
      }
    }

    /** `start` and `end` as for Mount. */
    method UnmountMountpointPodIfNeeded(me: nat, pod: string, needsUnmount: bool)
      returns (returned: bool, removed: bool, ghost start: nat, ghost end: nat)
      requires Valid() && IsIdle(me)
      modifies this
      ensures Valid() && Grown(old(hist), old(steps))
      ensures !needsUnmount ==> returned && !removed && s == old(s)
      ensures returned && needsUnmount ==> IsIdle(me) && HeldBetween(|old(steps)|, start, end, me, pod)
      ensures returned && needsUnmount ==> TakenAway(hist[start], hist[end], pod)
      ensures returned && needsUnmount && unmountsSucceed && callsSucceed ==>
        RemovedUnlessInUse(hist[start], hist[end], pod, removed)
      ensures removed ==> returned && needsUnmount && pod !in hist[end].source
      ensures removed ==> failures == old(failures)
    {
      removed, start, end := false, |steps|, |steps|;
      if !needsUnmount { return true, removed, start, end; }
      returned := LockMountpointPod(me, pod);
      start, end := |steps|, |steps|;
      if returned {
        assert hist[start] == s;
        removed := CleanUnmount(me, pod);
        end := |steps|;
        assert hist[end] == s;
        UnlockMountpointPod(me, pod);
      }
    }

    /** `Unmount` of a target path, without a lock. */
    method UnmountTarget(target: string) returns (ok: bool)
      requires Valid()
      modifies this
      ensures Valid() && s.source == old(s.source) && s.instances == old(s.instances)
      ensures ok <==> target in old(s).targets && old(s).targets[target] != []
      ensures ok ==> target in s.targets && s.targets[target] == old(s).targets[target][..|old(s).targets[target]| - 1]
      ensures s.targets - {target} == old(s).targets - {target}
    {
      ok := target in s.targets && |s.targets[target]| > 0;
      if ok { Take(Step.UnmountTarget(target)); }
    }
  }
}
