/** MPPodLock: the reference-counted locks of Mountpoint Pods, over all interleavings of any number of threads. */
module MPPodLocks {

  /** Where a thread stands in `lockMountpointPod`: after getting the lock object it waits for the mutex,
      and after unlocking the mutex it still has to release the reference. */
  datatype Pc =
    | Idle
    | Waiting(pod: string, lock: nat)
    | Holding(pod: string, lock: nat)
    | Unlocked(pod: string, lock: nat)

  datatype Lock = Lock(refCount: int, locked: bool)

  /** `locks` holds every lock object ever made, `table` the current one of each Pod name.
      `lostReleases` counts the releases that found no lock. */
  datatype State = State(threads: seq<Pc>, table: map<string, nat>, locks: seq<Lock>, lostReleases: nat)

  const INIT := State([], map[], [], 0)

  /** The steps; Get and Release run under the mutex of the table. */
  datatype Step = Start | Get(t: nat, pod: string) | Acquire(t: nat) | Unlock(t: nat) | Release(t: nat)

  predicate Enabled(s: State, step: Step) {
    match step
    case Start => true
    case Get(t, _) => t < |s.threads| && s.threads[t].Idle?
    case Acquire(t) =>
      t < |s.threads| && s.threads[t].Waiting? && s.threads[t].lock < |s.locks| && !s.locks[s.threads[t].lock].locked
    case Unlock(t) => t < |s.threads| && s.threads[t].Holding? && s.threads[t].lock < |s.locks|
    case Release(t) => t < |s.threads| && s.threads[t].Unlocked? && (forall p | p in s.table :: s.table[p] < |s.locks|)
  }

  function ApplyGet(s: State, t: nat, pod: string): State
    requires t < |s.threads|
  {
    if pod in s.table && s.table[pod] < |s.locks| then
      var o := s.table[pod];
      s.(locks := s.locks[o := s.locks[o].(refCount := s.locks[o].refCount + 1)],
         threads := s.threads[t := Waiting(pod, o)])
    else
      var o := |s.locks|;
      s.(locks := s.locks + [Lock(1, false)], table := s.table[pod := o], threads := s.threads[t := Waiting(pod, o)])
  }

  /** The lock is looked up by name again: it is whatever the table holds by now. */
  function ApplyRelease(s: State, t: nat): State
    requires Enabled(s, Release(t))
  {
    var pod := s.threads[t].pod;
    var s' := s.(threads := s.threads[t := Idle]);
    if pod !in s.table then s'.(lostReleases := s.lostReleases + 1)
    else
      var o := s.table[pod];
      var left := s.locks[o].refCount - 1;
      s'.(locks := s.locks[o := s.locks[o].(refCount := left)], table := if left <= 0 then s.table - {pod} else s.table)
  }

  function Apply(s: State, step: Step): State
    requires Enabled(s, step)
  {
    match step
    case Start => s.(threads := s.threads + [Idle])
    case Get(t, pod) => ApplyGet(s, t, pod)
    case Acquire(t) =>
      var o := s.threads[t].lock;
      s.(locks := s.locks[o := s.locks[o].(locked := true)], threads := s.threads[t := Holding(s.threads[t].pod, o)])
    case Unlock(t) =>
      var o := s.threads[t].lock;
      s.(locks := s.locks[o := s.locks[o].(locked := false)], threads := s.threads[t := Unlocked(s.threads[t].pod, o)])
    case Release(t) => ApplyRelease(s, t)
  }

  ghost predicate IsRun(hist: seq<State>, steps: seq<Step>) {
    && |hist| == |steps| + 1 && hist[0] == INIT
    && forall i {:trigger steps[i]} | 0 <= i < |steps| :: IsStep(hist[i], steps[i], hist[i + 1])
  }

  ghost predicate IsStep(s: State, step: Step, s': State) {
    Enabled(s, step) && s' == Apply(s, step)
  }

  /******* How many threads use a Pod's lock *******/

  /** Between getting the lock object and releasing it. */
  predicate Uses(pc: Pc, pod: string) {
    !pc.Idle? && pc.pod == pod
  }

  function One(b: bool): nat { if b then 1 else 0 }

  function Users(threads: seq<Pc>, pod: string): nat {
    if threads == [] then 0 else One(Uses(threads[0], pod)) + Users(threads[1..], pod)
  }

  lemma {:induction false} UsersAfter(threads: seq<Pc>, t: nat, pc: Pc, pod: string)
    requires t < |threads|
    ensures Users(threads[t := pc], pod) == Users(threads, pod) - One(Uses(threads[t], pod)) + One(Uses(pc, pod))
  {
    if t == 0 {
      assert threads[t := pc][1..] == threads[1..];
    } else {
      assert threads[t := pc][1..] == threads[1..][t - 1 := pc];
      UsersAfter(threads[1..], t - 1, pc, pod);
    }
  }

  lemma {:induction false} UsersOfMore(threads: seq<Pc>, pod: string)
    ensures Users(threads + [Idle], pod) == Users(threads, pod)
  {
    if threads == [] {
      assert threads + [Idle] == [Idle];
    } else {
      assert (threads + [Idle])[1..] == threads[1..] + [Idle];
      UsersOfMore(threads[1..], pod);
    }
  }

  lemma {:induction false} SomeUser(threads: seq<Pc>, t: nat, pod: string)
    requires t < |threads| && Uses(threads[t], pod)
    ensures Users(threads, pod) > 0
  {
    if t > 0 { SomeUser(threads[1..], t - 1, pod); }
  }

  lemma {:induction false} TwoUsers(threads: seq<Pc>, t: nat, t': nat, pod: string)
    requires t < t' < |threads| && Uses(threads[t], pod) && Uses(threads[t'], pod)
    ensures Users(threads, pod) > 1
  {
    if t > 0 { TwoUsers(threads[1..], t - 1, t' - 1, pod); } else { SomeUser(threads[1..], t' - 1, pod); }
  }

  lemma {:induction false} UserExists(threads: seq<Pc>, pod: string) returns (t: nat)
    requires Users(threads, pod) > 0
    ensures t < |threads| && Uses(threads[t], pod)
  {
    if Uses(threads[0], pod) {
      t := 0;
    } else {
      t := UserExists(threads[1..], pod);
      t := t + 1;
    }
  }

  /******* The invariant *******/

  /** Entries count their users, and differ. */
  ghost predicate TableOk(s: State) {
    && (forall p | p in s.table ::
          s.table[p] < |s.locks| && s.locks[s.table[p]].refCount == Users(s.threads, p) && Users(s.threads, p) > 0)
    && (forall p, q | p in s.table && q in s.table && s.table[p] == s.table[q] :: p == q)
  }

  /** Whoever uses a Pod's lock uses the object that the table holds. */
  ghost predicate SameObject(s: State) {
    forall t | 0 <= t < |s.threads| && !s.threads[t].Idle? ::
      s.threads[t].pod in s.table && s.table[s.threads[t].pod] == s.threads[t].lock
  }

  ghost predicate IsHolder(s: State, t: nat, pod: string) {
    t < |s.threads| && s.threads[t].Holding? && s.threads[t].pod == pod
  }

  /** A mutex is locked iff some thread holds it, and then just one. */
  ghost predicate MutexOk(s: State) {
    && (forall t, t', p | IsHolder(s, t, p) && IsHolder(s, t', p) :: t == t')
    && (forall t, p | IsHolder(s, t, p) && p in s.table && s.table[p] < |s.locks| :: s.locks[s.table[p]].locked)
    && (forall p | p in s.table && s.table[p] < |s.locks| && s.locks[s.table[p]].locked ::
          exists t :: IsHolder(s, t, p))
  }

  ghost predicate Inv(s: State) {
    TableOk(s) && SameObject(s) && MutexOk(s) && s.lostReleases == 0
  }

  /** Get adds a user of its Pod, and Release takes one away. */
  lemma UsersStep(s: State, step: Step, p: string)
    requires Enabled(s, step)
    ensures Users(Apply(s, step).threads, p) == Users(s.threads, p)
      + One(step.Get? && step.pod == p) - One(step.Release? && s.threads[step.t].pod == p)
  {
    if step.Start? {
      UsersOfMore(s.threads, p);
    } else {
      UsersAfter(s.threads, step.t, Apply(s, step).threads[step.t], p);
    }
  }

  lemma EntryStep(s: State, step: Step, p: string)
    requires Inv(s) && Enabled(s, step) && p in Apply(s, step).table
    ensures var s' := Apply(s, step);
      s'.table[p] < |s'.locks| && s'.locks[s'.table[p]].refCount == Users(s'.threads, p) && Users(s'.threads, p) > 0
  {
    UsersStep(s, step, p);
    if step.Get? && step.pod == p && p !in s.table && Users(s.threads, p) > 0 {
      var t := UserExists(s.threads, p);
    }
  }

  lemma TableStep(s: State, step: Step)
    requires Inv(s) && Enabled(s, step)
    ensures TableOk(Apply(s, step))
  {
    forall p | p in Apply(s, step).table
      ensures var s' := Apply(s, step);
        s'.table[p] < |s'.locks| && s'.locks[s'.table[p]].refCount == Users(s'.threads, p) && Users(s'.threads, p) > 0
    {
      EntryStep(s, step, p);
    }
  }

  lemma ObjectStep(s: State, step: Step)
    requires Inv(s) && Enabled(s, step)
    ensures SameObject(Apply(s, step))
  {
    var s' := Apply(s, step);
    if step.Release? {
      var p := s.threads[step.t].pod;
      assert Uses(s.threads[step.t], p);
      forall t | 0 <= t < |s.threads| && t != step.t && Uses(s.threads[t], p) ensures p in s'.table {
        TwoUsers(s.threads, if t < step.t then t else step.t, if t < step.t then step.t else t, p);
      }
    }
  }

  /** Only the thread of the step may start or stop holding. */
  lemma HoldersStep(s: State, step: Step, t: nat, p: string)
    requires Enabled(s, step)
    ensures IsHolder(Apply(s, step), t, p)
      <==> (IsHolder(s, t, p) && step != Unlock(t)) || (step == Acquire(t) && s.threads[t].pod == p)
  {}

  /** A mutex changes only for the Pod of the step, and a new one is free. */
  lemma LocksStep(s: State, step: Step, p: string)
    requires Inv(s) && Enabled(s, step) && p in Apply(s, step).table
    ensures var s' := Apply(s, step);
      s'.table[p] < |s'.locks| &&
      (s'.locks[s'.table[p]].locked <==>
        (step.Acquire? && s.threads[step.t].pod == p)
        || (p in s.table && s.locks[s.table[p]].locked && !(step.Unlock? && s.threads[step.t].pod == p)))
  {}

  lemma MutexStep(s: State, step: Step)
    requires Inv(s) && Enabled(s, step)
    ensures MutexOk(Apply(s, step))
  {
    var s' := Apply(s, step);
    assert step.Unlock? ==> IsHolder(s, step.t, s.threads[step.t].pod);
    forall t, t', p | IsHolder(s', t, p) && IsHolder(s', t', p) ensures t == t' {
      HoldersStep(s, step, t, p);
      HoldersStep(s, step, t', p);
    }
    forall t, p | IsHolder(s', t, p) && p in s'.table && s'.table[p] < |s'.locks| ensures s'.locks[s'.table[p]].locked {
      HoldersStep(s, step, t, p);
      LocksStep(s, step, p);
    }
    forall p | p in s'.table && s'.table[p] < |s'.locks| && s'.locks[s'.table[p]].locked
      ensures exists t :: IsHolder(s', t, p)
    {
      LocksStep(s, step, p);
      if step.Acquire? && s.threads[step.t].pod == p {
        assert IsHolder(s', step.t, p);
      } else {
        var t :| IsHolder(s, t, p);
        HoldersStep(s, step, t, p);
      }
    }
  }

  lemma InvStep(s: State, step: Step)
    requires Inv(s) && Enabled(s, step)
    ensures Inv(Apply(s, step))
  {
    TableStep(s, step);
    ObjectStep(s, step);
    MutexStep(s, step);
  }

  lemma {:induction false} RunKeepsInv(hist: seq<State>, steps: seq<Step>, i: nat)
    requires IsRun(hist, steps) && i <= |steps|
    ensures Inv(hist[i])
  {
    if i > 0 {
      RunKeepsInv(hist, steps, i - 1);
      assert IsStep(hist[i - 1], steps[i - 1], hist[i - 1 + 1]);
      InvStep(hist[i - 1], steps[i - 1]);
    }
  }

  /******* All runs *******/

  /** Mutual exclusion per Pod name, although lock objects come and go. */
  lemma OneHolderPerPod(hist: seq<State>, steps: seq<Step>, i: nat, t: nat, t': nat)
    requires IsRun(hist, steps) && i <= |steps|
    requires t < |hist[i].threads| && hist[i].threads[t].Holding?
    requires t' < |hist[i].threads| && hist[i].threads[t'].Holding?
    requires hist[i].threads[t].pod == hist[i].threads[t'].pod
    ensures t == t'
  {
    RunKeepsInv(hist, steps, i);
    assert IsHolder(hist[i], t, hist[i].threads[t].pod) && IsHolder(hist[i], t', hist[i].threads[t].pod);
  }

  /** An entry exists iff some thread is between getting and releasing, and counts exactly those threads. */
  lemma EntriesCountUsers(hist: seq<State>, steps: seq<Step>, i: nat, pod: string)
    requires IsRun(hist, steps) && i <= |steps|
    ensures var s := hist[i];
      && (pod in s.table <==> exists t :: 0 <= t < |s.threads| && Uses(s.threads[t], pod))
      && (pod in s.table ==> s.table[pod] < |s.locks| && s.locks[s.table[pod]].refCount == Users(s.threads, pod))
  {
    RunKeepsInv(hist, steps, i);
    if pod in hist[i].table { var t := UserExists(hist[i].threads, pod); }
  }

  /** All users of a Pod's lock use one and the same object. */
  lemma UsersShareTheLock(hist: seq<State>, steps: seq<Step>, i: nat, t: nat, t': nat)
    requires IsRun(hist, steps) && i <= |steps|
    requires t < |hist[i].threads| && !hist[i].threads[t].Idle? && t' < |hist[i].threads| && !hist[i].threads[t'].Idle?
    ensures hist[i].threads[t].pod == hist[i].threads[t'].pod <==> hist[i].threads[t].lock == hist[i].threads[t'].lock
  {
    RunKeepsInv(hist, steps, i);
  }

  /** The branch that should never happen never does. */
  lemma NoLostRelease(hist: seq<State>, steps: seq<Step>, i: nat)
    requires IsRun(hist, steps) && i <= |steps|
    ensures hist[i].lostReleases == 0
  {
    RunKeepsInv(hist, steps, i);
  }

  /** Nobody waits for nothing: a waiting thread can go on, or another one holds the lock and can unlock it. */
  lemma WaitingIsForAHolder(hist: seq<State>, steps: seq<Step>, i: nat, t: nat)
    requires IsRun(hist, steps) && i <= |steps| && t < |hist[i].threads| && hist[i].threads[t].Waiting?
    ensures Enabled(hist[i], Acquire(t))
      || exists t' :: IsHolder(hist[i], t', hist[i].threads[t].pod) && Enabled(hist[i], Unlock(t'))
  {
    RunKeepsInv(hist, steps, i);
    var s, pod := hist[i], hist[i].threads[t].pod;
    if s.locks[s.table[pod]].locked {
      var t' :| IsHolder(s, t', pod);
      assert Enabled(s, Unlock(t'));
    }
  }

  /** Every user can always get as far as giving its reference back. */
  lemma UnlockedCanRelease(hist: seq<State>, steps: seq<Step>, i: nat, t: nat)
    requires IsRun(hist, steps) && i <= |steps| && t < |hist[i].threads|
    ensures hist[i].threads[t].Holding? ==> Enabled(hist[i], Unlock(t))
    ensures hist[i].threads[t].Unlocked? ==> Enabled(hist[i], Release(t))
  {
    RunKeepsInv(hist, steps, i);
  }

  lemma RunExtends(hist: seq<State>, steps: seq<Step>, step: Step)
    requires IsRun(hist, steps) && Enabled(hist[|steps|], step)
    ensures IsRun(hist + [Apply(hist[|steps|], step)], steps + [step])
  {
    var hist', steps' := hist + [Apply(hist[|steps|], step)], steps + [step];
    forall i | 0 <= i < |steps'| ensures IsStep(hist'[i], steps'[i], hist'[i + 1]) {
      if i < |steps| { assert IsStep(hist[i], steps[i], hist[i + 1]); }
    }
  }

  lemma HoldsAlone(hist: seq<State>, steps: seq<Step>, t: nat)
    requires IsRun(hist, steps) && t < |hist[|steps|].threads| && hist[|steps|].threads[t].Holding?
    ensures forall t' | IsHolder(hist[|steps|], t', hist[|steps|].threads[t].pod) :: t' == t
  {
    forall t' | IsHolder(hist[|steps|], t', hist[|steps|].threads[t].pod) ensures t' == t {
      OneHolderPerPod(hist, steps, |steps|, t, t');
    }
  }

  /** The releasing thread finds the lock, and the table names different objects for different Pods. */
  lemma ReleaseFinds(hist: seq<State>, steps: seq<Step>, t: nat)
    requires IsRun(hist, steps) && t < |hist[|steps|].threads| && !hist[|steps|].threads[t].Idle?
    ensures var s := hist[|steps|];
      s.threads[t].pod in s.table && forall p, q | p in s.table && q in s.table && s.table[p] == s.table[q] :: p == q
  {
    RunKeepsInv(hist, steps, |steps|);
  }

  /******* The lock table *******/

  class MPPodLock {
    var refCount: int
    var locked: bool

    constructor (refCount: int)
      ensures this.refCount == refCount && !locked
    {
      this.refCount, locked := refCount, false;
    }
  }

  /** The global map and its lock objects; every change is a step of the machine. */
  class LockTable {
    var mpPodLocks: map<string, MPPodLock>
    /** Every lock object ever made, and the state that the machine is in. */
    var made: seq<MPPodLock>
    var s: State
    ghost var Repr: set<object>
    ghost var hist: seq<State>
    ghost var steps: seq<Step>

    ghost predicate Valid() reads this, Repr {
      && this in Repr && (forall i | 0 <= i < |made| :: made[i] in Repr)
      && IsRun(hist, steps) && s == hist[|steps|]
      && |made| == |s.locks| && (forall i, j | 0 <= i < j < |made| :: made[i] != made[j])
      && (forall i | 0 <= i < |made| :: made[i].refCount == s.locks[i].refCount && made[i].locked == s.locks[i].locked)
      && mpPodLocks.Keys == s.table.Keys
      && (forall p | p in mpPodLocks :: s.table[p] < |made| && mpPodLocks[p] == made[s.table[p]])
    }

    /** Thread `me` uses the lock of that Pod, by way of the object `lock`. */
    ghost predicate UsesLock(me: nat, mpPodName: string, lock: MPPodLock) reads this {
      && me < |s.threads| && Uses(s.threads[me], mpPodName)
      && s.threads[me].lock < |made| && lock == made[s.threads[me].lock]
    }

    constructor ()
      ensures Valid() && s == INIT && fresh(Repr)
    {
      mpPodLocks, made, s, Repr, hist, steps := map[], [], INIT, {this}, [INIT], [];
    }

    method GetMPPodLock(t: nat, mpPodName: string) returns (lock: MPPodLock)
      requires Valid() && Enabled(s, Get(t, mpPodName))
      modifies Repr
      ensures Valid() && s == Apply(old(s), Get(t, mpPodName))
      ensures old(made) <= made && fresh(Repr - old(Repr))
      ensures lock == made[s.threads[t].lock]
    {
      if mpPodName !in mpPodLocks {
        lock := new MPPodLock(1);
        AddLock(t, mpPodName, lock);
      } else {
        lock := mpPodLocks[mpPodName];
        AddUser(t, mpPodName, lock);
      }
    }

    method AddLock(t: nat, mpPodName: string, lock: MPPodLock)
      requires Valid() && Enabled(s, Get(t, mpPodName)) && mpPodName !in mpPodLocks
      requires lock !in Repr && lock.refCount == 1 && !lock.locked
      modifies this
      ensures Valid() && s == Apply(old(s), Get(t, mpPodName))
      ensures made == old(made) + [lock] && Repr == old(Repr) + {lock}
      ensures lock == made[s.threads[t].lock]
    {
      RunExtends(hist, steps, Get(t, mpPodName));
      mpPodLocks := mpPodLocks[mpPodName := lock];
      made, Repr := made + [lock], Repr + {lock};
      s := Apply(s, Get(t, mpPodName));
      hist, steps := hist + [s], steps + [Get(t, mpPodName)];
    }

    method AddUser(t: nat, mpPodName: string, lock: MPPodLock)
      requires Valid() && Enabled(s, Get(t, mpPodName)) && mpPodName in mpPodLocks && lock == mpPodLocks[mpPodName]
      modifies Repr
      ensures Valid() && s == Apply(old(s), Get(t, mpPodName)) && made == old(made) && Repr == old(Repr)
      ensures lock == made[s.threads[t].lock]
    {
      RunExtends(hist, steps, Get(t, mpPodName));
      lock.refCount := lock.refCount + 1;
      s := Apply(s, Get(t, mpPodName));
      hist, steps := hist + [s], steps + [Get(t, mpPodName)];
    }

    method ReleaseMPPodLock(t: nat, mpPodName: string)
      requires Valid() && Enabled(s, Release(t)) && s.threads[t].pod == mpPodName
      modifies Repr
      ensures Valid() && s == Apply(old(s), Release(t)) && made == old(made) && Repr == old(Repr)
    {
      ReleaseFinds(hist, steps, t);
      RunExtends(hist, steps, Release(t));
      if mpPodName !in mpPodLocks {
        assert false; // never happens
      } else {
        var lock := mpPodLocks[mpPodName];
        lock.refCount := lock.refCount - 1;
        if lock.refCount <= 0 {
          mpPodLocks := mpPodLocks - {mpPodName};
        }
      }
      s := Apply(s, Release(t));
      hist, steps := hist + [s], steps + [Release(t)];
    }

    /** `mutex.Lock()`, at a moment when it does not block. */
    method LockMutex(t: nat, lock: MPPodLock)
      requires Valid() && Enabled(s, Acquire(t)) && lock == made[s.threads[t].lock]
      modifies Repr
      ensures Valid() && s == Apply(old(s), Acquire(t)) && made == old(made) && Repr == old(Repr)
    {
      RunExtends(hist, steps, Acquire(t));
      lock.locked := true;
      s := Apply(s, Acquire(t));
      hist, steps := hist + [s], steps + [Acquire(t)];
    }

    method UnlockMutex(t: nat, lock: MPPodLock)
      requires Valid() && Enabled(s, Unlock(t)) && lock == made[s.threads[t].lock]
      modifies Repr
      ensures Valid() && s == Apply(old(s), Unlock(t)) && made == old(made) && Repr == old(Repr)
    {
      RunExtends(hist, steps, Unlock(t));
      lock.locked := false;
      s := Apply(s, Unlock(t));
      hist, steps := hist + [s], steps + [Unlock(t)];
    }

    method StartThread() returns (t: nat)
      requires Valid()
      modifies this
      ensures Valid() && s == Apply(old(s), Start) && made == old(made) && Repr == old(Repr) && t == |old(s).threads|
    {
      RunExtends(hist, steps, Start);
      t := |s.threads|;
      s := Apply(s, Start);
      hist, steps := hist + [s], steps + [Start];
    }

    /** Another thread makes a step. */
    method OtherStep(me: nat, step: Step)
      requires Valid() && Enabled(s, step) && (step.Start? || step.t != me) && me < |s.threads|
      modifies Repr
      ensures Valid() && s == Apply(old(s), step)
      ensures old(made) <= made && fresh(Repr - old(Repr))
    {
      match step
      case Start => var _ := StartThread();
      case Get(t, pod) => var _ := GetMPPodLock(t, pod);
      case Acquire(t) => LockMutex(t, made[s.threads[t].lock]);
      case Unlock(t) => UnlockMutex(t, made[s.threads[t].lock]);
      case Release(t) => ReleaseMPPodLock(t, s.threads[t].pod);
    }

    /** The other threads run, as long as they like. */
    method Interfere(me: nat)
      requires Valid() && me < |s.threads|
      modifies Repr
      ensures Valid() && me < |s.threads| && s.threads[me] == old(s.threads[me])
      ensures old(made) <= made && fresh(Repr - old(Repr))
    {
      var moves: nat :| true;
      for i := 0 to moves
        invariant Valid() && me < |s.threads| && s.threads[me] == old(s.threads[me])
        invariant old(made) <= made && fresh(Repr - old(Repr))
      {
        var step: Step :| true;
        if Enabled(s, step) && (step.Start? || step.t != me) {
          OtherStep(me, step);
        }
      }
    }

    /** Waits for the mutex; the call has returned once `acquired` holds, and until then the thread waits. */
    method AwaitMutex(me: nat, mpPodName: string, lock: MPPodLock) returns (acquired: bool)
      requires Valid() && UsesLock(me, mpPodName, lock) && s.threads[me].Waiting?
      modifies Repr
      ensures Valid() && UsesLock(me, mpPodName, lock) && fresh(Repr - old(Repr))
      ensures if acquired then s.threads[me].Holding? else s.threads[me].Waiting?
      ensures !acquired ==> exists t :: IsHolder(s, t, mpPodName)
    {
      Interfere(me);
      acquired := !lock.locked;
      if acquired {
        LockMutex(me, lock);
      } else {
        RunKeepsInv(hist, steps, |steps|);
      }
    }

    /** `lockMountpointPod`. */
    method LockMountpointPod(me: nat, mpPodName: string) returns (lock: MPPodLock, acquired: bool)
      requires Valid() && me < |s.threads| && s.threads[me].Idle?
      modifies Repr
      ensures Valid() && UsesLock(me, mpPodName, lock) && fresh(Repr - old(Repr))
      ensures if acquired then s.threads[me].Holding? else s.threads[me].Waiting?
      // nobody else holds the lock of that Pod then, and somebody does as long as the thread waits
      ensures acquired ==> forall t | IsHolder(s, t, mpPodName) :: t == me
      ensures !acquired ==> exists t :: IsHolder(s, t, mpPodName)
    {
      Interfere(me);
      lock := GetMPPodLock(me, mpPodName);
      acquired := AwaitMutex(me, mpPodName, lock);
      if acquired { HoldsAlone(hist, steps, me); }
    }

    /** The function that `lockMountpointPod` returns. */
    method UnlockMountpointPod(me: nat, mpPodName: string, lock: MPPodLock)
      requires Valid() && UsesLock(me, mpPodName, lock) && s.threads[me].Holding?
      modifies Repr
      ensures Valid() && me < |s.threads| && s.threads[me].Idle? && fresh(Repr - old(Repr))
    {
      Interfere(me);
      UnlockMutex(me, lock);
      Interfere(me);
      ReleaseMPPodLock(me, mpPodName);
    }
  }
}
