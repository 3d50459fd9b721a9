/** What every run of the publisher guarantees, whatever the schedule. */
module PublishTheorems {
  import opened Prelude
  import opened PublishLocks
  import opened DependencyCheck
  import opened PublishRun
  import opened PublishProofs

  ghost predicate Reachable(cfg: Config, o: Oracle, s: State) {
    exists schedule :: Exec(cfg, o, schedule) == Some(s)
  }

  lemma ReachableIsInvariant(cfg: Config, o: Oracle, s: State)
    requires ValidConfig(cfg) && Reachable(cfg, o, s)
    ensures Invariant(cfg, o, s)
  {
    var schedule :| Exec(cfg, o, schedule) == Some(s);
    ReachableInvariant(cfg, o, schedule);
  }

  // ----------------------------------------------------------------- resources

  /** At most `limit` sections hold a slot; somebody queues only while all are taken; grants are FIFO. */
  lemma SlotDiscipline(cfg: Config, o: Oracle, s: State)
    requires ValidConfig(cfg) && Reachable(cfg, o, s)
    ensures |Holders(s.phase)| <= cfg.limit
    ensures (exists n :: n in s.phase && Queued(s.phase[n])) ==> |Holders(s.phase)| == cfg.limit
    ensures s.slots.asked == s.slots.granted + s.slots.waiting
  {
    ReachableIsInvariant(cfg, o, s);
    if n :| n in s.phase && Queued(s.phase[n]) {
      assert n in s.slots.waiting;
    }
  }

  /** Two jobs that share a pack lock are never both inside it. */
  lemma PackExclusion(cfg: Config, o: Oracle, s: State, n: string, m: string)
    requires ValidConfig(cfg) && Reachable(cfg, o, s)
    requires n in s.phase && m in s.phase && n != m && n in cfg.jobs && m in cfg.jobs
    requires s.phase[n].KeyHeld? && s.phase[m].KeyHeld?
    ensures cfg.jobs[n].packLock != cfg.jobs[m].packLock
  {
    ReachableIsInvariant(cfg, o, s);
    assert KeyAgrees(cfg, s, n) && KeyAgrees(cfg, s, m);
    MutualExclusion(s.keys, KeyHolders(s.phase), n, m);
  }

  // ------------------------------------------------------------------ progress

  /** A pack with a lock does not end before it has had the lock. */
  predicate Patient(cfg: Config, s: State, step: Step)
    requires Shaped(cfg, s)
  {
    step.FinishPack? && step.n in cfg.jobs && cfg.jobs[step.n].packLock.Some? ==> s.phase[step.n].PackClosing?
  }

  lemma KeyQueueMoves(cfg: Config, o: Oracle, s: State, n: string) returns (step: Step)
    requires Invariant(cfg, o, s) && s.begun == |cfg.order|
    requires n in s.phase && s.phase[n].KeyQueued?
    ensures Enabled(cfg, s, step) && Patient(cfg, s, step)
  {
    assert KeyAgrees(cfg, s, n);
    var t := OldestUnreleasedIsRunnable(s.keys, KeyHolders(s.phase), n);
    assert KeyAgrees(cfg, s, t);
    if s.phase[t].KeyHeld? {
      assert t in Holders(s.phase);
      step := LeaveKey(t);
    } else {
      step := TakeKey(t);
    }
  }

  lemma HolderMoves(cfg: Config, o: Oracle, s: State, n: string) returns (step: Step)
    requires Invariant(cfg, o, s) && s.begun == |cfg.order|
    requires n in s.phase && HoldsSlot(s.phase[n])
    ensures Enabled(cfg, s, step) && Patient(cfg, s, step)
  {
    assert n in Holders(s.phase);
    match s.phase[n] {
      case Packing => step := if cfg.jobs[n].packLock.Some? then EnterKey(n) else FinishPack(n);
      case PackClosing => step := FinishPack(n);
      case KeyHeld => step := LeaveKey(n);
      case Publishing => step := FinishPublish(n);
      case KeyQueued => step := KeyQueueMoves(cfg, o, s, n);
    }
  }

  /** Among jobs that all only wait for prerequisites, the first in topological order can go on. */
  lemma {:induction false} WaiterMoves(cfg: Config, s: State, order: seq<string>, i: nat) returns (step: Step)
    requires Shaped(cfg, s) && s.begun == |cfg.order|
    requires Topological(GraphOf(cfg), order) && ToSet(order) == GraphOf(cfg).Keys && i < |order|
    requires order[i] in s.phase && s.phase[order[i]].AwaitDeps?
    requires forall n :: n in s.phase ==> s.phase[n].AwaitDeps? || s.phase[n].Done?
    ensures Enabled(cfg, s, step)
    decreases i
  {
    var n := order[i];
    if d :| d in cfg.jobs && Prerequisite(cfg, n, d) && !s.phase[d].Done? {
      assert Edge(GraphOf(cfg), order[i], d);
      var j :| 0 <= j < i && order[j] == d;
      step := WaiterMoves(cfg, s, order, j);
    } else {
      step := DepsSettled(n);
    }
  }

  /** No deadlock: while some job is unsettled, some step is enabled, even if every pack takes its lock. */
  lemma NoDeadlock(cfg: Config, o: Oracle, s: State) returns (step: Step)
    requires ValidConfig(cfg) && Reachable(cfg, o, s) && !AllSettled(s)
    ensures Shaped(cfg, s) && Enabled(cfg, s, step) && Patient(cfg, s, step)
  {
    ReachableIsInvariant(cfg, o, s);
    if s.begun < |cfg.order| {
      return Begin;
    }
    if n :| n in s.phase && HoldsSlot(s.phase[n]) {
      step := HolderMoves(cfg, o, s, n);
      return;
    }
    if n :| n in s.phase && s.phase[n].Discarding? {
      return FinishDiscard(n);
    }
    assert Holders(s.phase) == {};
    assert s.slots.waiting == [];
    forall n | n in s.phase
      ensures s.phase[n].AwaitDeps? || s.phase[n].Done?
    {
      assert n in ToSet(cfg.order);
      var i :| 0 <= i < |cfg.order| && cfg.order[i] == n;
      assert !Queued(s.phase[n]) && !HoldsSlot(s.phase[n]) && !s.phase[n].Discarding?;
    }
    var n :| n in s.phase && !s.phase[n].Done?;
    var order :| Topological(GraphOf(cfg), order) && NoDuplicates(order) && ToSet(order) == GraphOf(cfg).Keys;
    assert n in ToSet(order);
    var i :| 0 <= i < |order| && order[i] == n;
    step := WaiterMoves(cfg, s, order, i);
  }

  // --------------------------------------------------------------- termination

  function Work(order: seq<string>, phase: map<string, Phase>): nat {
    if order == [] then 0
    else
      var last := order[|order| - 1];
      Work(order[..|order| - 1], phase) + (if last in phase then Weight(phase[last]) else 0)
  }

  lemma {:induction false} WorkShrinks(order: seq<string>, phase: map<string, Phase>, phase': map<string, Phase>, n: string)
    requires phase.Keys == phase'.Keys
    requires forall m :: m in phase ==> Weight(phase'[m]) <= Weight(phase[m])
    requires n in phase && Weight(phase'[n]) < Weight(phase[n])
    ensures Work(order, phase') <= Work(order, phase)
    ensures n in order ==> Work(order, phase') < Work(order, phase)
  {
    if order != [] {
      WorkShrinks(order[..|order| - 1], phase, phase', n);
    }
  }

  lemma StepDoesWork(cfg: Config, o: Oracle, s: State, step: Step)
    requires Steady(cfg, s) && Enabled(cfg, s, step) && ToSet(cfg.order) == cfg.jobs.Keys
    ensures Work(cfg.order, Apply(cfg, o, s, step).phase) < Work(cfg.order, s.phase)
  {
    hide Apply;
    var n := Actor(cfg, s, step);
    assert n in ToSet(cfg.order);
    var p, woken := StepMoves(cfg, o, s, step);
    WorkShrinks(cfg.order, s.phase, Apply(cfg, o, s, step).phase, n);
  }

  lemma {:induction false} InitialWork(cfg: Config, order: seq<string>)
    ensures Work(order, InitialState(cfg).phase) <= 9 * |order|
  {
    if order != [] {
      InitialWork(cfg, order[..|order| - 1]);
    }
  }

  /** Every run is finite: a schedule has at most nine steps per job. */
  lemma {:induction false} RunsAreFinite(cfg: Config, o: Oracle, schedule: seq<Step>)
    requires ValidConfig(cfg) && Exec(cfg, o, schedule).Some?
    ensures |schedule| + Work(cfg.order, Exec(cfg, o, schedule).value.phase) <= 9 * |cfg.order|
  {
    if schedule == [] {
      InitialWork(cfg, cfg.order);
    } else {
      var earlier := schedule[..|schedule| - 1];
      RunsAreFinite(cfg, o, earlier);
      ReachableInvariant(cfg, o, earlier);
      InvariantIsSteady(cfg, o, Exec(cfg, o, earlier).value);
      StepDoesWork(cfg, o, Exec(cfg, o, earlier).value, Last(schedule));
    }
  }

  lemma RunExtends(cfg: Config, o: Oracle, schedule: seq<Step>) returns (step: Step)
    requires ValidConfig(cfg) && Exec(cfg, o, schedule).Some? && !AllSettled(Exec(cfg, o, schedule).value)
    ensures Exec(cfg, o, schedule + [step]).Some?
  {
    step := NoDeadlock(cfg, o, Exec(cfg, o, schedule).value);
    var longer := schedule + [step];
    assert longer[..|longer| - 1] == schedule && Last(longer) == step;
  }

  ghost predicate Runs(cfg: Config, o: Oracle, schedule: seq<Step>) {
    Exec(cfg, o, schedule).Some?
  }

  ghost predicate RunsToEnd(cfg: Config, o: Oracle, schedule: seq<Step>) {
    Exec(cfg, o, schedule).Some? && AllSettled(Exec(cfg, o, schedule).value)
  }

  /** Every run can be completed, and only a run that settled every job cannot be extended. */
  lemma {:induction false} RunsComplete(cfg: Config, o: Oracle, schedule: seq<Step>) returns (rest: seq<Step>)
    requires ValidConfig(cfg) && Runs(cfg, o, schedule)
    ensures RunsToEnd(cfg, o, schedule + rest)
    decreases 9 * |cfg.order| - |schedule|
  {
    hide Exec;
    RunsAreFinite(cfg, o, schedule);
    if RunsToEnd(cfg, o, schedule) {
      assert schedule + [] == schedule;
      return [];
    }
    var step := RunExtends(cfg, o, schedule);
    RunsAreFinite(cfg, o, schedule + [step]);
    var tail := RunsComplete(cfg, o, schedule + [step]);
    rest := [step] + tail;
    assert schedule + rest == schedule + [step] + tail;
  }

  // ------------------------------------------------------------------- results

  /** The part of the invariant that fixes the outcome of a settled run. */
  ghost predicate SoundlySettled(cfg: Config, o: Oracle, s: State) {
    s.phase.Keys == cfg.jobs.Keys && AllSound(cfg, o, s.phase) && AllSettled(s)
  }

  lemma BlockedBy(cfg: Config, o: Oracle, s: State, n: string, d: string)
    requires SoundlySettled(cfg, o, s) && Edge(GraphOf(cfg), n, d) && s.phase[d] == Done(false)
    ensures s.phase[n] == Done(false)
  {
    assert Sound(cfg, o, s.phase, n);
    assert n != d ==> Prerequisite(cfg, n, d);
  }

  lemma {:induction false} DoomBlocks(cfg: Config, o: Oracle, s: State, w: seq<string>)
    requires SoundlySettled(cfg, o, s)
    requires w != [] && IsWalk(GraphOf(cfg), w) && FailsItself(cfg, o, Last(w))
    ensures w[0] in s.phase && s.phase[w[0]] == Done(false)
  {
    if |w| == 1 {
      assert Sound(cfg, o, s.phase, w[0]);
    } else {
      var v := w[1..];
      forall i | 0 <= i < |v| - 1
        ensures Edge(GraphOf(cfg), v[i], v[i + 1])
      {
        assert Edge(GraphOf(cfg), w[i + 1], w[i + 2]);
      }
      DoomBlocks(cfg, o, s, v);
      BlockedBy(cfg, o, s, w[0], w[1]);
    }
  }

  lemma SettledExactly(cfg: Config, o: Oracle, s: State, n: string)
    requires SoundlySettled(cfg, o, s) && n in s.phase
    ensures s.phase[n] == Done(false) <==> Doomed(cfg, o, n)
  {
    assert Sound(cfg, o, s.phase, n);
    if Doomed(cfg, o, n) {
      var w :| w != [] && w[0] == n && IsWalk(GraphOf(cfg), w) && FailsItself(cfg, o, Last(w));
      DoomBlocks(cfg, o, s, w);
    }
  }

  lemma {:induction false} FailuresAreDoomed(cfg: Config, o: Oracle, s: State, order: seq<string>)
    requires SoundlySettled(cfg, o, s)
    requires forall n :: n in order ==> n in s.phase
    ensures Failures(order, s) == DoomedNames(cfg, o, order)
  {
    if order != [] {
      FailuresAreDoomed(cfg, o, s, order[..|order| - 1]);
      SettledExactly(cfg, o, s, Last(order));
    }
  }

  /**
   In every schedule the returned list is, in input order, exactly the jobs
   that fail themselves or transitively depend on one that does.
  */
  lemma ResultIsDoomedJobs(cfg: Config, o: Oracle, s: State)
    requires ValidConfig(cfg) && Reachable(cfg, o, s) && AllSettled(s)
    ensures Failures(cfg.order, s) == DoomedNames(cfg, o, cfg.order)
  {
    ReachableIsInvariant(cfg, o, s);
    FailuresAreDoomed(cfg, o, s, cfg.order);
  }

  /** The result does not depend on the schedule. */
  lemma ScheduleIndependence(cfg: Config, o: Oracle, s: State, t: State)
    requires ValidConfig(cfg) && Reachable(cfg, o, s) && Reachable(cfg, o, t) && AllSettled(s) && AllSettled(t)
    ensures s.phase == t.phase && Failures(cfg.order, s) == Failures(cfg.order, t)
  {
    ResultIsDoomedJobs(cfg, o, s);
    ResultIsDoomedJobs(cfg, o, t);
    ReachableSettled(cfg, o, s);
    ReachableSettled(cfg, o, t);
    SamePhases(cfg, o, s, t);
  }

  lemma ReachableSettled(cfg: Config, o: Oracle, s: State)
    requires ValidConfig(cfg) && Reachable(cfg, o, s) && AllSettled(s)
    ensures SoundlySettled(cfg, o, s)
  {
    hide Exec;
    ReachableIsInvariant(cfg, o, s);
  }

  lemma SamePhases(cfg: Config, o: Oracle, s: State, t: State)
    requires SoundlySettled(cfg, o, s) && SoundlySettled(cfg, o, t)
    ensures s.phase == t.phase
  {
    forall n | n in s.phase
      ensures s.phase[n] == t.phase[n]
    {
      SettledExactly(cfg, o, s, n);
      SettledExactly(cfg, o, t, n);
    }
  }

  /** A publish starts only after every prerequisite published, and never beside a discard. */
  lemma PublishAfterPrerequisites(cfg: Config, o: Oracle, s: State, i: nat)
    requires ValidConfig(cfg) && Reachable(cfg, o, s) && i < |s.log| && s.log[i].Publish?
    ensures s.log[i].name in cfg.jobs
    ensures forall d :: d in cfg.jobs && Prerequisite(cfg, s.log[i].name, d) ==> Settle(d, true) in s.log[..i]
    ensures Discard(s.log[i].name) !in s.log
  {
    ReachableIsInvariant(cfg, o, s);
    assert PublishInOrder(cfg, s.log, i);
    assert Logged(s.log, s.phase[s.log[i].name], s.log[i].name);
  }
}
