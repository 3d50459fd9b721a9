/**
 Concurrent runs of the publisher (`runPublishJobs` and `publishTargetJob.pack`
 in scripts/ci-release-publish.ts) as a transition system.

 Each job packs under a slot (and, inside it, under its pack lock), waits for
 its prerequisites holding no slot, and publishes under a slot. Which of the
 enabled steps comes next is the schedule; which packs and publishes fail is
 the oracle.
*/
module PublishRun {
  import opened Prelude
  import opened PublishLocks
  import opened DependencyCheck

  datatype Job = Job(name: string, dependsOn: seq<string>, packs: bool, packLock: Option<string>, discards: bool)

  /** `order` is the input order of the job names. */
  datatype Config = Config(jobs: map<string, Job>, order: seq<string>, limit: nat)

  datatype Oracle = Oracle(packFails: set<string>, publishFails: set<string>)

  function GraphOf(cfg: Config): Graph {
    map n | n in cfg.jobs :: cfg.jobs[n].dependsOn
  }

  ghost predicate ValidConfig(cfg: Config) {
    NoDuplicates(cfg.order) && ToSet(cfg.order) == cfg.jobs.Keys && cfg.limit >= 1 && Ranked(GraphOf(cfg))
  }

  /** The prerequisites a job waits for: known names other than its own. */
  predicate Prerequisite(cfg: Config, n: string, d: string)
    requires n in cfg.jobs
  {
    d in cfg.jobs[n].dependsOn && d != n && d in cfg.jobs
  }

  datatype Phase =
    | Idle
    | PackQueued
    | Packing
    | KeyQueued
    | KeyHeld
    | PackClosing
    | AwaitDeps
    | Discarding
    | PublishQueued
    | Publishing
    | Done(ok: bool)

  predicate HoldsSlot(p: Phase) {
    p.Packing? || p.KeyQueued? || p.KeyHeld? || p.PackClosing? || p.Publishing?
  }

  predicate Queued(p: Phase) {
    p.PackQueued? || p.PublishQueued?
  }

  datatype Event = Publish(name: string) | Discard(name: string) | Settle(name: string, ok: bool)

  datatype State = State(begun: nat, phase: map<string, Phase>, slots: Slots, keys: Keys, log: seq<Event>)

  function InitialState(cfg: Config): State {
    State(0, map n | n in cfg.jobs :: Idle, NO_SLOTS, NO_KEYS, [])
  }

  // -------------------------------------------------------------------- steps

  datatype Step =
    | Begin
    | EnterKey(n: string)
    | TakeKey(n: string)
    | LeaveKey(n: string)
    | FinishPack(n: string)
    | DepsSettled(n: string)
    | FinishDiscard(n: string)
    | FinishPublish(n: string)

  predicate Shaped(cfg: Config, s: State) {
    s.phase.Keys == cfg.jobs.Keys && (forall t :: t in s.slots.waiting ==> t in cfg.jobs) && s.begun <= |cfg.order|
    && (forall t :: t in cfg.order ==> t in cfg.jobs)
  }

  /** All jobs are started synchronously, in input order, before anything else happens. */
  predicate Enabled(cfg: Config, s: State, step: Step)
    requires Shaped(cfg, s)
  {
    if step.Begin? then s.begun < |cfg.order|
    else
      && s.begun == |cfg.order|
      && step.n in cfg.jobs
      && var p := s.phase[step.n];
         match step
         case EnterKey(n) => p.Packing? && cfg.jobs[n].packLock.Some?
         case TakeKey(n) => p.KeyQueued? && Runnable(s.keys, n)
         case LeaveKey(n) => p.KeyHeld? && s.slots.active > 0
         case FinishPack(n) => (p.Packing? || p.PackClosing?) && s.slots.active > 0
         case DepsSettled(n) => p.AwaitDeps? && forall d :: d in cfg.jobs && Prerequisite(cfg, n, d) ==> s.phase[d].Done?
         case FinishDiscard(n) => p.Discarding?
         case FinishPublish(n) => p.Publishing? && s.slots.active > 0
  }

  function Put(s: State, n: string, p: Phase): State {
    s.(phase := s.phase[n := p])
  }

  function Finish(s: State, n: string, ok: bool): State {
    Put(s, n, Done(ok)).(log := s.log + [Settle(n, ok)])
  }

  /** A queued section that has been given a slot starts running. */
  function Start(s: State, n: string): State
    requires n in s.phase
  {
    if s.phase[n].PublishQueued? then Put(s, n, Publishing).(log := s.log + [Publish(n)]) else Put(s, n, Packing)
  }

  /** `slot(fn)`: runs at once if a slot is free, otherwise queues. */
  function EnterSection(cfg: Config, s: State, n: string, queued: Phase): State {
    var filed := Put(s, n, queued).(slots := Request(s.slots, cfg.limit, n));
    if s.slots.active >= cfg.limit then filed else Start(filed, n)
  }

  /** The end of a section: the slot goes to the oldest waiter, if any. */
  function LeaveSection(s: State): State
    requires s.slots.active > 0
    requires s.slots.waiting != [] ==> s.slots.waiting[0] in s.phase
  {
    var left := s.(slots := Yield(s.slots));
    if s.slots.waiting != [] then Start(left, s.slots.waiting[0]) else left
  }

  function Apply(cfg: Config, o: Oracle, s: State, step: Step): State
    requires Shaped(cfg, s) && Enabled(cfg, s, step)
  {
    match step
    case Begin =>
      var n := cfg.order[s.begun];
      var s1 := s.(begun := s.begun + 1);
      if cfg.jobs[n].packs then EnterSection(cfg, s1, n, PackQueued) else Put(s1, n, AwaitDeps)
    case EnterKey(n) =>
      Put(s, n, KeyQueued).(keys := Join(s.keys, cfg.jobs[n].packLock.value, n))
    case TakeKey(n) =>
      Put(s, n, KeyHeld)
    case LeaveKey(n) =>
      Put(s, n, PackClosing).(keys := Resolve(s.keys, n))
    case FinishPack(n) =>
      LeaveSection(if n in o.packFails then Finish(s, n, false) else Put(s, n, AwaitDeps))
    case DepsSettled(n) =>
      if forall d :: d in cfg.jobs && Prerequisite(cfg, n, d) ==> s.phase[d].ok then
        EnterSection(cfg, s, n, PublishQueued)
      else if cfg.jobs[n].discards then
        Put(s, n, Discarding).(log := s.log + [Discard(n)])
      else
        Finish(s, n, false)
    case FinishDiscard(n) =>
      Finish(s, n, false)
    case FinishPublish(n) =>
      LeaveSection(Finish(s, n, n !in o.publishFails))
  }

  /** The state after a schedule, or `None` if one of its steps was not enabled. */
  function Exec(cfg: Config, o: Oracle, schedule: seq<Step>): Option<State> {
    if schedule == [] then Some(InitialState(cfg))
    else
      match Exec(cfg, o, schedule[..|schedule| - 1])
      case None => None
      case Some(s) =>
        if Shaped(cfg, s) && Enabled(cfg, s, Last(schedule)) then Some(Apply(cfg, o, s, Last(schedule))) else None
  }

  predicate AllSettled(s: State) {
    forall n :: n in s.phase ==> s.phase[n].Done?
  }

  /** The returned list: failed jobs in input order. */
  function Failures(order: seq<string>, s: State): seq<string> {
    if order == [] then []
    else
      var earlier := Failures(order[..|order| - 1], s);
      if Last(order) in s.phase && s.phase[Last(order)] == Done(false) then earlier + [Last(order)] else earlier
  }

  // ------------------------------------------------------- what ought to fail

  predicate FailsItself(cfg: Config, o: Oracle, n: string) {
    n in cfg.jobs && ((cfg.jobs[n].packs && n in o.packFails) || n in o.publishFails)
  }

  /** A dependency walk from `n` reaches a job whose own pack or publish fails. */
  ghost predicate Doomed(cfg: Config, o: Oracle, n: string) {
    exists w :: w != [] && w[0] == n && IsWalk(GraphOf(cfg), w) && FailsItself(cfg, o, Last(w))
  }

  ghost function DoomedNames(cfg: Config, o: Oracle, order: seq<string>): seq<string> {
    if order == [] then []
    else
      var earlier := DoomedNames(cfg, o, order[..|order| - 1]);
      if Doomed(cfg, o, Last(order)) then earlier + [Last(order)] else earlier
  }
}
