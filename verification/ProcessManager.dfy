/** ProcessManager: Mountpoint child processes, with Launch calls, waiter goroutines and Shutdown interleaved. */
module ProcessManagers {
  import opened Strings

  /** A waiter goroutine is spawned after its process; it waits, deletes the handle, writes an error file if needed. */
  datatype Waiter = Unborn | Waiting | Exited | Forgotten | Ended

  datatype Process = Process(mountId: string, exit: Option<int>, waiter: Waiter, signalled: bool, errorFiles: nat)

  datatype Pc = Opened | Rejected | Tracked(h: nat) | Returned

  /** A Launch call; `valid` says whether its descriptor is one, and `closes` how often it was closed. */
  datatype Launch = Launch(mountId: string, valid: bool, pc: Pc, closes: nat)

  datatype Phase = Running | Signalled | Down

  datatype State = State(
    calls: seq<Launch>,
    procs: seq<Process>,
    processes: map<string, nat>,
    waitGroup: int,
    phase: Phase)

  const INIT := State([], [], map[], 0, Running)

  datatype Step =
    | Call(mountId: string, valid: bool)
    | Start(c: nat, ok: bool)      // under the mutex
    | Close(c: nat)
    | Spawn(c: nat)
    | Exit(h: nat, code: int)
    | Wait(h: nat)
    | Forget(h: nat)               // under the mutex
    | Report(h: nat)
    | Signal                       // under the mutex
    | Return

  predicate Enabled(s: State, step: Step) {
    match step
    case Call(_, _) => true
    case Start(c, _) => c < |s.calls| && s.calls[c].pc == Opened
    case Close(c) => c < |s.calls| && s.calls[c].pc == Rejected
    case Spawn(c) => c < |s.calls| && s.calls[c].pc.Tracked? && s.calls[c].pc.h < |s.procs|
    case Exit(h, _) => h < |s.procs| && s.procs[h].exit.None?
    case Wait(h) => h < |s.procs| && s.procs[h].waiter == Waiting && s.procs[h].exit.Some?
    case Forget(h) => h < |s.procs| && s.procs[h].waiter == Exited
    case Report(h) => h < |s.procs| && s.procs[h].waiter == Forgotten && s.procs[h].exit.Some?
    case Signal => s.phase == Running
    case Return => s.phase == Signalled && s.waitGroup == 0
  }

  function SetCall(s: State, c: nat, call: Launch): State
    requires c < |s.calls|
  {
    s.(calls := s.calls[c := call])
  }

  function SetProcess(s: State, h: nat, p: Process): State
    requires h < |s.procs|
  {
    s.(procs := s.procs[h := p])
  }

  function ApplyStart(s: State, c: nat, ok: bool): State
    requires c < |s.calls|
  {
    var call := s.calls[c];
    if call.mountId in s.processes || !ok then SetCall(s, c, call.(pc := Rejected))
    else
      var h := |s.procs|;
      var s' := s.(procs := s.procs + [Process(call.mountId, None, Unborn, false, 0)],
                   processes := s.processes[call.mountId := h]);
      SetCall(s', c, call.(pc := Tracked(h), closes := call.closes + 1))
  }

  function Signal1(p: Process, tracked: bool): Process {
    if tracked then p.(signalled := true) else p
  }

  function Apply(s: State, step: Step): State
    requires Enabled(s, step)
  {
    match step
    case Call(mountId, valid) => s.(calls := s.calls + [Launch(mountId, valid, if valid then Opened else Returned, 0)])
    case Start(c, ok) => ApplyStart(s, c, ok)
    case Close(c) => SetCall(s, c, s.calls[c].(pc := Returned, closes := s.calls[c].closes + 1))
    case Spawn(c) =>
      var h := s.calls[c].pc.h;
      SetCall(SetProcess(s.(waitGroup := s.waitGroup + 1), h, s.procs[h].(waiter := Waiting)),
              c, s.calls[c].(pc := Returned))
    case Exit(h, code) => SetProcess(s, h, s.procs[h].(exit := Some(code)))
    case Wait(h) => SetProcess(s, h, s.procs[h].(waiter := Exited))
    case Forget(h) =>
      SetProcess(s.(processes := s.processes - {s.procs[h].mountId}), h, s.procs[h].(waiter := Forgotten))
    case Report(h) =>
      var p := s.procs[h];
      SetProcess(s.(waitGroup := s.waitGroup - 1), h,
                 p.(waiter := Ended, errorFiles := if p.exit.value != 0 then p.errorFiles + 1 else p.errorFiles))
    case Signal =>
      s.(phase := Signalled,
         procs := seq(|s.procs|, h requires 0 <= h < |s.procs| => Signal1(s.procs[h], h in s.processes.Values)))
    case Return => s.(phase := Down)
  }

  ghost predicate IsRun(hist: seq<State>, steps: seq<Step>) {
    && |hist| == |steps| + 1 && hist[0] == INIT
    && forall i {:trigger steps[i]} | 0 <= i < |steps| :: IsStep(hist[i], steps[i], hist[i + 1])
  }

  ghost predicate IsStep(s: State, step: Step, s': State) {
    Enabled(s, step) && s' == Apply(s, step)
  }

  /** No Launch call is on its way to a process that nobody waits for yet; a refused one has only a descriptor to
      close. */
  predicate Settled(s: State) {
    forall c | 0 <= c < |s.calls| :: s.calls[c].pc.Rejected? || s.calls[c].pc.Returned?
  }

  /** No Launch is called once Shutdown has begun, and then those called before are settled. */
  predicate InOrder(s: State, step: Step) {
    (step.Call? ==> s.phase == Running) && (step.Signal? ==> Settled(s))
  }

  ghost predicate IsOrderedRun(hist: seq<State>, steps: seq<Step>) {
    IsRun(hist, steps) && forall i {:trigger steps[i]} | 0 <= i < |steps| :: InOrder(hist[i], steps[i])
  }

  /******* The invariant *******/

  /** A process whose handle is still tracked. */
  predicate IsTracked(p: Process) {
    p.waiter.Unborn? || p.waiter.Waiting? || p.waiter.Exited?
  }

  /** A waiter that the wait group counts. */
  predicate IsCounted(p: Process) {
    p.waiter.Waiting? || p.waiter.Exited? || p.waiter.Forgotten?
  }

  function Counted(procs: seq<Process>): nat {
    if procs == [] then 0 else (if IsCounted(procs[0]) then 1 else 0) + Counted(procs[1..])
  }

  /** Exactly the tracked processes are in the map, under their own mount ID. */
  ghost predicate MapOk(s: State) {
    && (forall id | id in s.processes ::
          s.processes[id] < |s.procs| && s.procs[s.processes[id]].mountId == id && IsTracked(s.procs[s.processes[id]]))
    && (forall h | 0 <= h < |s.procs| && IsTracked(s.procs[h]) ::
          s.procs[h].mountId in s.processes && s.processes[s.procs[h].mountId] == h)
  }

  ghost predicate ProcessOk(p: Process) {
    && (p.exit.None? ==> p.waiter.Unborn? || p.waiter.Waiting?)
    && p.errorFiles == if p.waiter.Ended? && p.exit != Some(0) then 1 else 0
  }

  ghost predicate ProcessesOk(s: State) {
    forall h | 0 <= h < |s.procs| :: ProcessOk(s.procs[h])
  }

  ghost predicate CallOk(s: State, call: Launch) {
    && (call.pc.Tracked? ==> call.pc.h < |s.procs| && s.procs[call.pc.h].waiter.Unborn?)
    && call.closes == (if call.pc.Tracked? || (call.pc.Returned? && call.valid) then 1 else 0)
    && (!call.valid ==> call.pc.Returned?)
  }

  /** Every process without a waiter is being launched, by one call. */
  ghost predicate CallsOk(s: State) {
    && (forall c | 0 <= c < |s.calls| :: CallOk(s, s.calls[c]))
    && (forall c, c' | 0 <= c < c' < |s.calls| && s.calls[c].pc.Tracked? && s.calls[c'].pc.Tracked? ::
          s.calls[c].pc.h != s.calls[c'].pc.h)
    && (forall h | 0 <= h < |s.procs| && s.procs[h].waiter.Unborn? :: exists c :: Launches(s, c, h))
  }

  ghost predicate Launches(s: State, c: nat, h: nat) {
    c < |s.calls| && s.calls[c].pc == Tracked(h)
  }

  ghost predicate Inv(s: State) {
    MapOk(s) && ProcessesOk(s) && CallsOk(s) && s.waitGroup == Counted(s.procs)
  }

  ghost predicate ShutdownOk(s: State) {
    (s.phase != Running ==> Settled(s)) && (s.phase == Down ==> s.waitGroup == 0)
  }

  lemma {:induction false} CountedAfter(procs: seq<Process>, h: nat, p: Process)
    requires h < |procs|
    ensures Counted(procs[h := p])
      == Counted(procs) - (if IsCounted(procs[h]) then 1 else 0) + (if IsCounted(p) then 1 else 0)
  {
    if h == 0 {
      assert procs[h := p][1..] == procs[1..];
    } else {
      assert procs[h := p][1..] == procs[1..][h - 1 := p];
      CountedAfter(procs[1..], h - 1, p);
    }
  }

  lemma {:induction false} CountedOfMore(procs: seq<Process>, p: Process)
    ensures Counted(procs + [p]) == Counted(procs) + (if IsCounted(p) then 1 else 0)
  {
    if procs == [] {
      assert procs + [p] == [p];
    } else {
      assert (procs + [p])[1..] == procs[1..] + [p];
      CountedOfMore(procs[1..], p);
    }
  }

  lemma {:induction false} CountedAlike(procs: seq<Process>, procs': seq<Process>)
    requires |procs| == |procs'| && forall h | 0 <= h < |procs| :: procs[h].waiter == procs'[h].waiter
    ensures Counted(procs) == Counted(procs')
  {
    if procs != [] { CountedAlike(procs[1..], procs'[1..]); }
  }

  lemma {:induction false} NoneCounted(procs: seq<Process>, h: nat)
    requires h < |procs| && Counted(procs) == 0
    ensures !IsCounted(procs[h])
  {
    if h > 0 { NoneCounted(procs[1..], h - 1); }
  }

  lemma CountStep(s: State, step: Step)
    requires Enabled(s, step) && Inv(s)
    ensures Apply(s, step).waitGroup == Counted(Apply(s, step).procs)
  {
    var s' := Apply(s, step);
    match step
    case Start(c, ok) =>
      if s'.procs != s.procs { CountedOfMore(s.procs, s'.procs[|s.procs|]); }
    case Spawn(c) =>
      assert CallOk(s, s.calls[c]);
      CountedAfter(s.procs, s.calls[c].pc.h, s'.procs[s.calls[c].pc.h]);
    case Exit(h, _) => CountedAfter(s.procs, h, s'.procs[h]);
    case Wait(h) => CountedAfter(s.procs, h, s'.procs[h]);
    case Forget(h) => CountedAfter(s.procs, h, s'.procs[h]);
    case Report(h) => CountedAfter(s.procs, h, s'.procs[h]);
    case Signal => CountedAlike(s.procs, s'.procs);
    case _ =>
  }

  /** A process keeps its mount ID, and stays tracked until its waiter forgets it. */
  lemma TrackedStep(s: State, step: Step, h: nat)
    requires Enabled(s, step) && CallsOk(s) && h < |s.procs|
    ensures var s' := Apply(s, step);
      && h < |s'.procs| && s'.procs[h].mountId == s.procs[h].mountId
      && (IsTracked(s'.procs[h]) <==> IsTracked(s.procs[h]) && step != Forget(h))
  {
    if step.Spawn? { assert CallOk(s, s.calls[step.c]); }
  }

  /** The map changes with the start of a process and with the end of its waiter only. */
  lemma TableStep(s: State, step: Step)
    requires Enabled(s, step)
    ensures var s' := Apply(s, step);
      if |s'.procs| > |s.procs| then
        && |s'.procs| == |s.procs| + 1 && IsTracked(s'.procs[|s.procs|]) && s'.procs[|s.procs|].mountId !in s.processes
        && s'.processes == s.processes[s'.procs[|s.procs|].mountId := |s.procs|]
      else s'.processes == if step.Forget? then s.processes - {s.procs[step.h].mountId} else s.processes
  {}

  lemma MapStep(s: State, step: Step)
    requires Enabled(s, step) && Inv(s)
    ensures MapOk(Apply(s, step))
  {
    TableStep(s, step);
    var s' := Apply(s, step);
    forall h | 0 <= h < |s.procs|
      ensures h < |s'.procs| && s'.procs[h].mountId == s.procs[h].mountId
      ensures IsTracked(s'.procs[h]) <==> IsTracked(s.procs[h]) && step != Forget(h)
    {
      TrackedStep(s, step, h);
    }
  }

  lemma ProcessStep(s: State, step: Step)
    requires Enabled(s, step) && Inv(s)
    ensures ProcessesOk(Apply(s, step))
  {
    if step.Spawn? { assert CallOk(s, s.calls[step.c]) && ProcessOk(s.procs[s.calls[step.c].pc.h]); }
  }

  lemma CallKept(s: State, step: Step, c: nat)
    requires Enabled(s, step) && Inv(s) && c < |Apply(s, step).calls|
    ensures CallOk(Apply(s, step), Apply(s, step).calls[c])
  {
    if c < |s.calls| { assert CallOk(s, s.calls[c]); }
  }

  /** A call launches what it launched before, or what it has just started. */
  lemma LaunchesStep(s: State, step: Step, c: nat, h: nat)
    requires Enabled(s, step) && CallsOk(s)
    ensures Launches(Apply(s, step), c, h)
      <==> ((Launches(s, c, h) && step != Spawn(c))
            || (h == |s.procs| < |Apply(s, step).procs| && step.Start? && step.c == c))
  {
    if c < |s.calls| { assert CallOk(s, s.calls[c]); }
  }

  /** Only a spawned waiter is born. */
  lemma UnbornStep(s: State, step: Step, h: nat)
    requires Enabled(s, step) && Inv(s) && h < |s.procs|
    ensures h < |Apply(s, step).procs|
    ensures Apply(s, step).procs[h].waiter.Unborn?
      <==> s.procs[h].waiter.Unborn? && !(step.Spawn? && Launches(s, step.c, h))
  {}

  lemma NewIsLaunched(s: State, step: Step)
    requires Enabled(s, step) && |s.procs| < |Apply(s, step).procs|
    ensures step.Start? && |Apply(s, step).procs| == |s.procs| + 1
  {}

  lemma CallStep(s: State, step: Step)
    requires Enabled(s, step) && Inv(s)
    ensures CallsOk(Apply(s, step))
  {
    var s' := Apply(s, step);
    forall c | 0 <= c < |s'.calls| ensures CallOk(s', s'.calls[c]) { CallKept(s, step, c); }
    forall c, c' | 0 <= c < c' < |s'.calls| && s'.calls[c].pc.Tracked? && s'.calls[c'].pc.Tracked?
      ensures s'.calls[c].pc.h != s'.calls[c'].pc.h
    {
      LaunchesStep(s, step, c, s'.calls[c].pc.h);
      LaunchesStep(s, step, c', s'.calls[c'].pc.h);
      if c < |s.calls| { assert CallOk(s, s.calls[c]); }
      if c' < |s.calls| { assert CallOk(s, s.calls[c']); }
    }
    forall h | 0 <= h < |s'.procs| && s'.procs[h].waiter.Unborn? ensures exists c :: Launches(s', c, h) {
      if h < |s.procs| {
        UnbornStep(s, step, h);
        var c :| Launches(s, c, h);
        LaunchesStep(s, step, c, h);
      } else {
        NewIsLaunched(s, step);
        LaunchesStep(s, step, step.c, h);
      }
    }
  }

  lemma InvStep(s: State, step: Step)
    requires Enabled(s, step) && Inv(s)
    ensures Inv(Apply(s, step))
  {
    CountStep(s, step);
    MapStep(s, step);
    ProcessStep(s, step);
    CallStep(s, step);
  }

  lemma {:induction false} RunKeepsInv(hist: seq<State>, steps: seq<Step>, i: nat)
    requires IsRun(hist, steps) && i <= |steps|
    ensures Inv(hist[i])
  {
    if i > 0 {
      RunKeepsInv(hist, steps, i - 1);
      assert IsStep(hist[i - 1], steps[i - 1], hist[i - 1 + 1]);
      InvStep(hist[i - 1], steps[i - 1]);
    }
  }

  lemma ShutdownStep(s: State, step: Step)
    requires Enabled(s, step) && Inv(s) && ShutdownOk(s) && InOrder(s, step)
    ensures ShutdownOk(Apply(s, step))
  {
    if step.Report? && s.waitGroup == 0 { NoneCounted(s.procs, step.h); }
  }

  lemma {:induction false} RunShutsDown(hist: seq<State>, steps: seq<Step>, i: nat)
    requires IsOrderedRun(hist, steps) && i <= |steps|
    ensures ShutdownOk(hist[i])
  {
    if i > 0 {
      RunShutsDown(hist, steps, i - 1);
      RunKeepsInv(hist, steps, i - 1);
      assert IsStep(hist[i - 1], steps[i - 1], hist[i - 1 + 1]) && InOrder(hist[i - 1], steps[i - 1]);
      ShutdownStep(hist[i - 1], steps[i - 1]);
    }
  }

  /******* All runs *******/

  /** At most one process per mount ID runs, or is tracked, at any time. */
  lemma OneProcessPerMountId(hist: seq<State>, steps: seq<Step>, i: nat, h: nat, h': nat)
    requires IsRun(hist, steps) && i <= |steps|
    requires h < |hist[i].procs| && (hist[i].procs[h].exit.None? || IsTracked(hist[i].procs[h]))
    requires h' < |hist[i].procs| && (hist[i].procs[h'].exit.None? || IsTracked(hist[i].procs[h']))
    requires hist[i].procs[h].mountId == hist[i].procs[h'].mountId
    ensures h == h' && hist[i].procs[h].mountId in hist[i].processes && hist[i].processes[hist[i].procs[h].mountId] == h
  {
    RunKeepsInv(hist, steps, i);
    assert ProcessOk(hist[i].procs[h]) && ProcessOk(hist[i].procs[h']);
  }

  /** A waiter deletes the handle of its own process, although it goes by the mount ID. */
  lemma WaitersDeleteTheirOwn(hist: seq<State>, steps: seq<Step>, i: nat, h: nat)
    requires IsRun(hist, steps) && i < |steps| && steps[i] == Forget(h)
    ensures h < |hist[i].procs| && hist[i].procs[h].mountId in hist[i].processes
    ensures hist[i].processes[hist[i].procs[h].mountId] == h && hist[i].procs[h].exit.Some?
    ensures hist[i + 1].processes == hist[i].processes - {hist[i].procs[h].mountId}
  {
    RunKeepsInv(hist, steps, i);
    assert IsStep(hist[i], steps[i], hist[i + 1]);
    assert ProcessOk(hist[i].procs[h]);
  }

  /** An error file is attempted once for a process that failed, and never for another. */
  lemma ErrorFileIffFailed(hist: seq<State>, steps: seq<Step>, i: nat, h: nat)
    requires IsRun(hist, steps) && i <= |steps| && h < |hist[i].procs|
    ensures hist[i].procs[h].errorFiles <= 1
    ensures hist[i].procs[h].waiter.Ended? ==>
      hist[i].procs[h].exit.Some? && (hist[i].procs[h].errorFiles == 1 <==> hist[i].procs[h].exit.value != 0)
    ensures hist[i].procs[h].errorFiles == 1 ==> hist[i].procs[h].waiter.Ended?
  {
    RunKeepsInv(hist, steps, i);
    assert ProcessOk(hist[i].procs[h]);
  }

  /** Launch closes a valid descriptor exactly once, and an invalid one never. */
  lemma DescriptorsAreClosedOnce(hist: seq<State>, steps: seq<Step>, i: nat, c: nat)
    requires IsRun(hist, steps) && i <= |steps| && c < |hist[i].calls|
    ensures hist[i].calls[c].closes <= 1
    ensures hist[i].calls[c].pc.Returned? ==> hist[i].calls[c].closes == if hist[i].calls[c].valid then 1 else 0
  {
    RunKeepsInv(hist, steps, i);
    assert CallOk(hist[i], hist[i].calls[c]);
  }

  /** Every process that runs when Shutdown begins is sent SIGTERM. */
  lemma EveryRunningProcessIsSignalled(hist: seq<State>, steps: seq<Step>, i: nat, h: nat)
    requires IsRun(hist, steps) && i < |steps| && steps[i].Signal?
    requires h < |hist[i].procs| && hist[i].procs[h].exit.None?
    ensures h < |hist[i + 1].procs| && hist[i + 1].procs[h].signalled
  {
    RunKeepsInv(hist, steps, i);
    assert IsStep(hist[i], steps[i], hist[i + 1]);
    assert ProcessOk(hist[i].procs[h]);
    assert hist[i].processes[hist[i].procs[h].mountId] == h;
  }

  lemma NotSignalledStep(s: State, step: Step)
    requires Enabled(s, step) && Apply(s, step).phase == Running
    requires forall h | 0 <= h < |s.procs| :: !s.procs[h].signalled
    ensures s.phase == Running && forall h | 0 <= h < |Apply(s, step).procs| :: !Apply(s, step).procs[h].signalled
  {}

  lemma RunningStep(s: State, step: Step)
    requires Enabled(s, step) && Apply(s, step).phase == Running
    ensures s.phase == Running
  {}

  lemma {:induction false} NoneSignalledBefore(hist: seq<State>, steps: seq<Step>, i: nat)
    requires IsRun(hist, steps) && i <= |steps| && hist[i].phase == Running
    ensures forall h | 0 <= h < |hist[i].procs| :: !hist[i].procs[h].signalled
  {
    if i > 0 {
      var k := i - 1;
      assert IsStep(hist[k], steps[k], hist[k + 1]);
      RunningStep(hist[k], steps[k]);
      NoneSignalledBefore(hist, steps, k);
      NotSignalledStep(hist[k], steps[k]);
    }
  }

  /** And no process is that is not tracked then. */
  lemma OnlyTrackedAreSignalled(hist: seq<State>, steps: seq<Step>, i: nat, h: nat)
    requires IsRun(hist, steps) && i < |steps| && steps[i].Signal? && h < |hist[i].procs|
    ensures h < |hist[i + 1].procs|
    ensures hist[i + 1].procs[h].signalled <==> exists id :: id in hist[i].processes && hist[i].processes[id] == h
  {
    assert IsStep(hist[i], steps[i], hist[i + 1]);
    NoneSignalledBefore(hist, steps, i);
    if h in hist[i].processes.Values {
      var id :| id in hist[i].processes && hist[i].processes[id] == h;
    }
  }

  /** Once Shutdown has returned in such a run, no process runs and nothing is tracked. */
  lemma NothingIsTrackedAfterShutdown(hist: seq<State>, steps: seq<Step>, i: nat)
    requires IsOrderedRun(hist, steps) && i <= |steps| && hist[i].phase == Down
    ensures hist[i].processes == map[]
    ensures forall h | 0 <= h < |hist[i].procs| :: hist[i].procs[h].waiter.Ended? && hist[i].procs[h].exit.Some?
  {
    RunKeepsInv(hist, steps, i);
    RunShutsDown(hist, steps, i);
    DownIsClean(hist[i]);
  }

  lemma RunExtends(hist: seq<State>, steps: seq<Step>, step: Step)
    requires IsRun(hist, steps) && Enabled(hist[|steps|], step)
    ensures IsRun(hist + [Apply(hist[|steps|], step)], steps + [step])
    ensures IsOrderedRun(hist, steps) && InOrder(hist[|steps|], step) ==>
      IsOrderedRun(hist + [Apply(hist[|steps|], step)], steps + [step])
  {
    var hist', steps' := hist + [Apply(hist[|steps|], step)], steps + [step];
    forall i | 0 <= i < |steps'| ensures IsStep(hist'[i], steps'[i], hist'[i + 1]) {
      if i < |steps| { assert IsStep(hist[i], steps[i], hist[i + 1]); }
    }
  }

  /******* What happens to a Launch that Shutdown overtakes *******/

  /** A way from `s` on which Launch is not called again. */
  ghost predicate IsPath(s: State, hist: seq<State>, steps: seq<Step>) {
    && |hist| == |steps| + 1 && hist[0] == s
    && forall i {:trigger steps[i]} | 0 <= i < |steps| :: IsStep(hist[i], steps[i], hist[i + 1]) && !steps[i].Call?
  }

  ghost predicate Reaches(s: State, s': State) {
    exists hist: seq<State>, steps: seq<Step> :: IsPath(s, hist, steps) && hist[|steps|] == s'
  }

  /** Whenever Shutdown returns, on whatever way, nothing is tracked. */
  ghost predicate EndsClean(s: State) {
    forall s' | Reaches(s, s') && s'.phase == Down :: s'.processes == map[]
  }

  lemma ReachesItself(s: State)
    ensures Reaches(s, s)
  {
    assert IsPath(s, [s], []);
  }

  lemma ReachesNext(s: State, s': State, step: Step)
    requires Reaches(s, s') && Enabled(s', step) && !step.Call?
    ensures Reaches(s, Apply(s', step))
  {
    var hist: seq<State>, steps: seq<Step> :| IsPath(s, hist, steps) && hist[|steps|] == s';
    var hist', steps' := hist + [Apply(s', step)], steps + [step];
    forall i | 0 <= i < |steps'| ensures IsStep(hist'[i], steps'[i], hist'[i + 1]) && !steps'[i].Call? {
      if i < |steps| { assert IsStep(hist[i], steps[i], hist[i + 1]) && !steps[i].Call?; }
    }
    assert IsPath(s, hist', steps');
  }

  lemma {:induction false} PathStaysSettled(s: State, hist: seq<State>, steps: seq<Step>, i: nat)
    requires IsPath(s, hist, steps) && i <= |steps| && Inv(s) && ShutdownOk(s) && s.phase != Running
    ensures Inv(hist[i]) && ShutdownOk(hist[i]) && hist[i].phase != Running
  {
    if i > 0 {
      PathStaysSettled(s, hist, steps, i - 1);
      assert IsStep(hist[i - 1], steps[i - 1], hist[i - 1 + 1]) && !steps[i - 1].Call?;
      InvStep(hist[i - 1], steps[i - 1]);
      ShutdownStep(hist[i - 1], steps[i - 1]);
    }
  }

  lemma DownIsClean(s: State)
    requires Inv(s) && ShutdownOk(s) && s.phase == Down
    ensures s.processes == map[]
    ensures forall h | 0 <= h < |s.procs| :: s.procs[h].waiter.Ended? && s.procs[h].exit.Some?
  {
    forall h | 0 <= h < |s.procs| ensures s.procs[h].waiter.Ended? && s.procs[h].exit.Some? {
      NoneCounted(s.procs, h);
      assert ProcessOk(s.procs[h]);
      assert forall c :: !Launches(s, c, h);
    }
  }

  /** What the end of waiters leaves as it is: the calls, and the processes that have no waiter yet. */
  ghost predicate OnlyWaitersEnd(s: State, s': State) {
    && s'.calls == s.calls && s'.phase == s.phase && |s'.procs| == |s.procs|
    && forall h | 0 <= h < |s.procs| && s.procs[h].waiter.Unborn? :: s'.procs[h] == s.procs[h]
  }

  lemma CountedExists(procs: seq<Process>) returns (h: nat)
    requires Counted(procs) > 0
    ensures h < |procs| && IsCounted(procs[h])
  {
    if IsCounted(procs[0]) {
      h := 0;
    } else {
      h := CountedExists(procs[1..]);
      h := h + 1;
    }
  }

  lemma TakeOnWay(s: State, s1: State, step: Step) returns (s2: State)
    requires Inv(s1) && Reaches(s, s1) && Enabled(s1, step) && !step.Call?
    ensures s2 == Apply(s1, step) && Inv(s2) && Reaches(s, s2)
  {
    s2 := Apply(s1, step);
    InvStep(s1, step);
    ReachesNext(s, s1, step);
  }

  /** A process exits and its waiter gets as far as having forgotten it. */
  lemma WaiterForgets(s: State, s1: State, h: nat) returns (s2: State)
    requires Inv(s1) && Reaches(s, s1) && h < |s1.procs| && IsCounted(s1.procs[h])
    ensures Inv(s2) && Reaches(s, s2) && OnlyWaitersEnd(s1, s2) && s2.waitGroup == s1.waitGroup
    ensures s2.procs[h].waiter.Forgotten? && s2.procs[h].exit.Some?
  {
    s2 := s1;
    assert ProcessOk(s1.procs[h]);
    if s2.procs[h].exit.None? { s2 := TakeOnWay(s, s2, Exit(h, 0)); }
    if s2.procs[h].waiter.Waiting? { s2 := TakeOnWay(s, s2, Wait(h)); }
    if s2.procs[h].waiter.Exited? { s2 := TakeOnWay(s, s2, Forget(h)); }
  }

  lemma {:induction false} WaitersEnd(s: State, s1: State) returns (s2: State)
    requires Inv(s1) && Reaches(s, s1)
    ensures Inv(s2) && Reaches(s, s2) && OnlyWaitersEnd(s1, s2) && s2.waitGroup == 0
    decreases s1.waitGroup
  {
    s2 := s1;
    if s1.waitGroup > 0 {
      var h := CountedExists(s1.procs);
      s2 := WaiterForgets(s, s1, h);
      s2 := TakeOnWay(s, s2, Report(h));
      s2 := WaitersEnd(s, s2);
    }
  }

  /** A call that is not settled gets a process tracked after Shutdown has returned. */
  lemma UnsettledEndsUnclean(s: State, c: nat) returns (s': State)
    requires Inv(s) && s.phase == Signalled && c < |s.calls| && (s.calls[c].pc.Opened? || s.calls[c].pc.Tracked?)
    ensures Reaches(s, s') && s'.phase == Down && s'.processes != map[]
  {
    ReachesItself(s);
    assert CallOk(s, s.calls[c]);
    s' := WaitersEnd(s, s);
    s' := TakeOnWay(s, s', Return);
    if s.calls[c].pc.Tracked? {
      assert IsTracked(s'.procs[s.calls[c].pc.h]);
    } else if s'.processes == map[] {
      s' := TakeOnWay(s, s', Start(c, true));
      assert s.calls[c].mountId in s'.processes;
    }
  }

  /** When Shutdown begins: if Launch is not called again, nothing is tracked once Shutdown has returned, on whatever
      way, if and only if every call is settled by then. */
  lemma ShutdownIsCleanExactlyWhenSettled(hist: seq<State>, steps: seq<Step>, i: nat)
    requires IsRun(hist, steps) && i < |steps| && steps[i].Signal?
    ensures EndsClean(hist[i + 1]) <==> Settled(hist[i])
  {
    var s := hist[i + 1];
    RunKeepsInv(hist, steps, i + 1);
    assert IsStep(hist[i], steps[i], hist[i + 1]);
    if Settled(s) {
      forall s' | Reaches(s, s') && s'.phase == Down ensures s'.processes == map[] {
        var hist': seq<State>, steps': seq<Step> :| IsPath(s, hist', steps') && hist'[|steps'|] == s';
        PathStaysSettled(s, hist', steps', |steps'|);
        DownIsClean(s');
      }
    } else {
      var c :| 0 <= c < |s.calls| && !(s.calls[c].pc.Rejected? || s.calls[c].pc.Returned?);
      var s' := UnsettledEndsUnclean(s, c);
    }
  }

  /******* The class *******/

  /** Who runs: a Launch call, a waiter goroutine, or Shutdown. */
  datatype Mover = TheCall(c: nat) | TheWaiter(h: nat) | TheShutdown

  /** A step of somebody else; Shutdown does not overlap Launch calls. */
  predicate IsOthers(me: Mover, step: Step) {
    match step
    case Start(c, _) => me != TheCall(c)
    case Close(c) => me != TheCall(c)
    case Spawn(c) => me != TheCall(c)
    case Wait(h) => me != TheWaiter(h)
    case Forget(h) => me != TheWaiter(h)
    case Report(h) => me != TheWaiter(h)
    case Signal => me.TheWaiter?
    case Return => me.TheWaiter?
    case _ => true
  }

  /** What a waiter relies on: its process is gone, and only it writes down what it does. */
  ghost predicate SameForWaiter(p: Process, p': Process) {
    p.exit.Some? && !p.waiter.Unborn? ==> p'.(signalled := p.signalled) == p
  }

  /** What the others leave alone. */
  ghost predicate LeftAlone(s: State, s': State, me: Mover) {
    && |s.procs| <= |s'.procs| && |s.calls| <= |s'.calls| && (!me.TheWaiter? ==> s'.phase == s.phase)
    && (me.TheCall? && me.c < |s.calls| ==> s'.calls[me.c] == s.calls[me.c])
    && (me.TheWaiter? && me.h < |s.procs| ==> SameForWaiter(s.procs[me.h], s'.procs[me.h]))
    && (forall h | 0 <= h < |s.procs| :: s'.procs[h].mountId == s.procs[h].mountId)
  }

  lemma OthersLeaveAlone(s: State, step: Step, me: Mover)
    requires Enabled(s, step) && CallsOk(s) && IsOthers(me, step)
    ensures LeftAlone(s, Apply(s, step), me)
  {
    if step.Spawn? { assert CallOk(s, s.calls[step.c]); }
  }

  lemma LeftAloneTransitive(a: State, b: State, c: State, me: Mover)
    requires LeftAlone(a, b, me) && LeftAlone(b, c, me)
    ensures LeftAlone(a, c, me)
  {}

  class ProcessManager {
    var s: State
    ghost var hist: seq<State>
    ghost var steps: seq<Step>

    ghost predicate Valid() reads this {
      IsOrderedRun(hist, steps) && s == hist[|steps|]
    }

    constructor ()
      ensures Valid() && s == INIT
    {
      s, hist, steps := INIT, [INIT], [];
    }

    method Take(step: Step)
      requires Valid() && Enabled(s, step) && InOrder(s, step)
      modifies this
      ensures Valid() && s == Apply(old(s), step) && old(hist) <= hist && steps == old(steps) + [step]
    {
      RunExtends(hist, steps, step);
      s := Apply(s, step);
      hist, steps := hist + [s], steps + [step];
    }

    /** The others move, as often as they like. */
    method Interfere(me: Mover)
      requires Valid()
      modifies this
      ensures Valid() && LeftAlone(old(s), s, me) && old(hist) <= hist && old(steps) <= steps
    {
      var moves: nat :| true;
      for i := 0 to moves
        invariant Valid() && LeftAlone(old(s), s, me) && old(hist) <= hist && old(steps) <= steps
      {
        var step: Step :| true;
        if Enabled(s, step) && InOrder(s, step) && IsOthers(me, step) {
          RunKeepsInv(hist, steps, |steps|);
          OthersLeaveAlone(s, step, me);
          ghost var before := s;
          Take(step);
          LeftAloneTransitive(old(s), before, s, me);
        }
      }
    }

    /** The call must come before Shutdown; `starts` is the answer of the runner, `h` the process launched, and `k` the
        step of this call at which it has the mutex. */
    method LaunchMountpoint(mountId: string, validFd: bool, starts: bool)
      returns (c: nat, h: Option<nat>, ghost k: nat)
      requires Valid() && s.phase == Running
      modifies this
      ensures Valid() && s.phase == Running && old(hist) <= hist && old(steps) <= steps
      ensures c < |s.calls| && s.calls[c].pc == Returned && s.calls[c].mountId == mountId
      ensures s.calls[c].valid == validFd && s.calls[c].closes == if validFd then 1 else 0
      ensures validFd ==> |old(steps)| < k < |steps| && steps[k] == Start(c, starts)
      // a process is launched unless the descriptor is bad, the start fails, or the mount has one already at that step
      ensures h.None? <==> !validFd || !starts || mountId in hist[k].processes
      ensures h.Some? ==> IsProcess(h.value, mountId) && |old(s).procs| <= h.value == |hist[k].procs|
      ensures h.Some? ==> !s.procs[h.value].waiter.Unborn?
    {
      c, h, k := |s.calls|, None, 0;
      Take(Call(mountId, validFd));
      if validFd {
        Interfere(TheCall(c));
        k := |steps|;
        assert hist[k] == s;
        Take(Start(c, starts));
        if s.calls[c].pc.Rejected? {
          Interfere(TheCall(c));
          Take(Close(c));
        } else {
          h := Some(s.calls[c].pc.h);
          Interfere(TheCall(c));
          Take(Spawn(c));
        }
      }
    }

    ghost predicate IsProcess(h: nat, mountId: string) reads this {
      h < |s.procs| && s.procs[h].mountId == mountId
    }

    /** The waiter goroutine of process `h`, once that has exited. */
    method AwaitExit(h: nat)
      requires Valid() && h < |s.procs| && s.procs[h].waiter.Waiting? && s.procs[h].exit.Some?
      modifies this
      ensures Valid() && h < |s.procs| && s.procs[h].waiter.Ended?
      ensures s.procs[h].exit == old(s).procs[h].exit
      ensures s.procs[h].errorFiles == if s.procs[h].exit != Some(0) then 1 else 0
    {
      RunKeepsInv(hist, steps, |steps|);
      assert ProcessOk(s.procs[h]);
      Take(Wait(h));
      Interfere(TheWaiter(h));
      Take(Forget(h));
      Interfere(TheWaiter(h));
      Take(Report(h));
    }

    /** Sends SIGTERM to all, and waits; it has returned once `returned` holds. */
    method Shutdown() returns (returned: bool)
      requires Valid() && s.phase == Running && Settled(s)
      modifies this
      ensures Valid() && s.phase == if returned then Down else Signalled
      ensures returned ==> s.processes == map[]
      ensures returned ==> forall h | 0 <= h < |s.procs| :: s.procs[h].exit.Some?
      // it waits for a waiter only
      ensures !returned ==> exists h: nat :: h < |s.procs| && IsCounted(s.procs[h])
    {
      Take(Signal);
      Interfere(TheShutdown);
      returned := s.waitGroup == 0;
      if returned {
        Take(Return);
        NothingIsTrackedAfterShutdown(hist, steps, |steps|);
      } else {
        RunKeepsInv(hist, steps, |steps|);
        ghost var h := CountedExists(s.procs);
      }
    }
  }
}
