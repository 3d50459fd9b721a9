/** Invariants of the publisher's runs, and what they give for every schedule. */
module PublishProofs {
  import opened Prelude
  import opened PublishLocks
  import opened DependencyCheck
  import opened PublishRun

  // --------------------------------------------------------------- invariants

  ghost predicate BegunInOrder(cfg: Config, s: State)
    requires s.phase.Keys == cfg.jobs.Keys == ToSet(cfg.order)
  {
    forall i :: 0 <= i < |cfg.order| ==> (s.phase[cfg.order[i]].Idle? <==> i >= s.begun)
  }

  ghost function Holders(phase: map<string, Phase>): set<string> {
    set n | n in phase && HoldsSlot(phase[n])
  }

  /** The semaphore's counters agree with the phases. */
  ghost predicate SlotsAgree(cfg: Config, s: State) {
    && SlotsOk(s.slots, cfg.limit)
    && s.slots.active == |Holders(s.phase)|
    && NoDuplicates(s.slots.waiting)
    && (forall n :: n in s.slots.waiting <==> n in s.phase && Queued(s.phase[n]))
  }

  ghost function KeyHolders(phase: map<string, Phase>): set<string> {
    set n | n in phase && phase[n].KeyHeld?
  }

  ghost predicate BeforeKey(p: Phase) {
    p.Idle? || p.PackQueued? || p.Packing?
  }

  /** The mutex's promises agree with the phases. */
  ghost predicate KeyAgrees(cfg: Config, s: State, n: string)
    requires n in s.phase && n in cfg.jobs
  {
    && (BeforeKey(s.phase[n]) ==> n !in s.keys.previous)
    && (s.phase[n].KeyQueued? || s.phase[n].KeyHeld? ==>
          n in s.keys.previous && n !in s.keys.released && n in s.keys.keyOf &&
          cfg.jobs[n].packLock == Some(s.keys.keyOf[n]))
    && (n in s.keys.previous && n !in s.keys.released ==> s.phase[n].KeyQueued? || s.phase[n].KeyHeld?)
  }

  ghost predicate KeysAgree(cfg: Config, s: State)
    requires s.phase.Keys == cfg.jobs.Keys
  {
    && KeysOk(s.keys, KeyHolders(s.phase))
    && s.keys.previous.Keys <= s.phase.Keys
    && (forall n :: n in s.phase ==> KeyAgrees(cfg, s, n))
  }

  ghost predicate PackSucceeds(cfg: Config, o: Oracle, n: string)
    requires n in cfg.jobs
  {
    cfg.jobs[n].packs ==> n !in o.packFails
  }

  ghost predicate PrerequisitesPublished(cfg: Config, phase: map<string, Phase>, n: string)
    requires n in cfg.jobs && phase.Keys == cfg.jobs.Keys
  {
    forall d :: d in cfg.jobs && Prerequisite(cfg, n, d) ==> phase[d] == Done(true)
  }

  /** What the phase of a job says about the oracle and about its prerequisites. */
  ghost predicate Sound(cfg: Config, o: Oracle, phase: map<string, Phase>, n: string)
    requires n in cfg.jobs && phase.Keys == cfg.jobs.Keys
  {
    match phase[n]
    case AwaitDeps => PackSucceeds(cfg, o, n)
    case Discarding => Doomed(cfg, o, n)
    case PublishQueued => PackSucceeds(cfg, o, n) && PrerequisitesPublished(cfg, phase, n)
    case Publishing => PackSucceeds(cfg, o, n) && PrerequisitesPublished(cfg, phase, n)
    case Done(true) => !FailsItself(cfg, o, n) && PrerequisitesPublished(cfg, phase, n)
    case Done(false) => Doomed(cfg, o, n)
    case Idle => true
    case _ => cfg.jobs[n].packs
  }

  ghost predicate AllSound(cfg: Config, o: Oracle, phase: map<string, Phase>)
    requires phase.Keys == cfg.jobs.Keys
  {
    forall n :: n in phase ==> Sound(cfg, o, phase, n)
  }

  /** What the phase of a job says about the log. */
  ghost predicate Logged(log: seq<Event>, p: Phase, n: string) {
    match p
    case Discarding => Discard(n) in log && Publish(n) !in log && forall ok :: Settle(n, ok) !in log
    case Publishing => Publish(n) in log && Discard(n) !in log && forall ok :: Settle(n, ok) !in log
    case Done(ok) =>
      && Settle(n, ok) in log && Settle(n, !ok) !in log
      && (ok ==> Publish(n) in log)
      && !(Publish(n) in log && Discard(n) in log)
    case _ => Publish(n) !in log && Discard(n) !in log && forall ok :: Settle(n, ok) !in log
  }

  /** A publish is logged only behind the success of every prerequisite. */
  ghost predicate PublishesInOrder(cfg: Config, log: seq<Event>) {
    forall i :: 0 <= i < |log| && log[i].Publish? ==> PublishInOrder(cfg, log, i)
  }

  ghost predicate PublishInOrder(cfg: Config, log: seq<Event>, i: nat)
    requires i < |log| && log[i].Publish?
  {
    log[i].name in cfg.jobs &&
    forall d :: d in cfg.jobs && Prerequisite(cfg, log[i].name, d) ==> Settle(d, true) in log[..i]
  }

  ghost predicate LogAgrees(cfg: Config, s: State) {
    PublishesInOrder(cfg, s.log) && forall n :: n in s.phase ==> Logged(s.log, s.phase[n], n)
  }

  /** The part of the invariant that a change of one phase keeps on its own. */
  ghost predicate Core(cfg: Config, o: Oracle, s: State) {
    && s.phase.Keys == cfg.jobs.Keys
    && KeysAgree(cfg, s)
    && AllSound(cfg, o, s.phase)
    && LogAgrees(cfg, s)
  }

  ghost predicate Invariant(cfg: Config, o: Oracle, s: State) {
    && ValidConfig(cfg)
    && Shaped(cfg, s)
    && Core(cfg, o, s)
    && SlotsAgree(cfg, s)
    && BegunInOrder(cfg, s)
  }

  // ------------------------------------------------------------ single phases

  lemma PutKeepsSound(cfg: Config, o: Oracle, phase: map<string, Phase>, n: string, p: Phase)
    requires phase.Keys == cfg.jobs.Keys && n in phase && !phase[n].Done?
    requires AllSound(cfg, o, phase) && Sound(cfg, o, phase[n := p], n)
    ensures AllSound(cfg, o, phase[n := p])
  {
    forall m | m in phase
      ensures Sound(cfg, o, phase[n := p], m)
    {
      assert Sound(cfg, o, phase, m);
      assert PrerequisitesPublished(cfg, phase, m) ==> PrerequisitesPublished(cfg, phase[n := p], m);
    }
  }

  lemma AppendKeepsPublishes(cfg: Config, log: seq<Event>, e: Event)
    requires PublishesInOrder(cfg, log)
    requires e.Publish? ==> e.name in cfg.jobs
    requires e.Publish? ==> forall d :: d in cfg.jobs && Prerequisite(cfg, e.name, d) ==> Settle(d, true) in log
    ensures PublishesInOrder(cfg, log + [e])
  {
    var log' := log + [e];
    forall i | 0 <= i < |log'| && log'[i].Publish?
      ensures PublishInOrder(cfg, log', i)
    {
      if i < |log| {
        assert PublishInOrder(cfg, log, i);
        assert log'[..i] == log[..i];
      } else {
        assert log'[..i] == log;
      }
    }
  }

  /** A phase change that leaves the job's place in the key protocol alone. */
  lemma PutKeepsKeys(cfg: Config, s: State, n: string, p: Phase)
    requires s.phase.Keys == cfg.jobs.Keys && n in s.phase && KeysAgree(cfg, s)
    requires !s.phase[n].KeyQueued? && !s.phase[n].KeyHeld? && !p.KeyQueued? && !p.KeyHeld?
    requires BeforeKey(p) ==> BeforeKey(s.phase[n])
    ensures KeysAgree(cfg, Put(s, n, p))
  {
    var s' := Put(s, n, p);
    assert KeyHolders(s'.phase) == KeyHolders(s.phase);
    forall m | m in s'.phase
      ensures KeyAgrees(cfg, s', m)
    {
      assert KeyAgrees(cfg, s, m);
    }
  }

  lemma LoggedElsewhere(log: seq<Event>, e: Event, p: Phase, m: string)
    requires Logged(log, p, m) && e.name != m
    ensures Logged(log + [e], p, m)
  {
  }

  /** A phase change together with its log entry. */
  lemma PutKeepsLog(cfg: Config, s: State, n: string, p: Phase, e: Event)
    requires n in s.phase && LogAgrees(cfg, s) && e.name == n
    requires PublishesInOrder(cfg, s.log + [e]) && Logged(s.log + [e], p, n)
    ensures LogAgrees(cfg, Put(s, n, p).(log := s.log + [e]))
  {
    forall m | m in s.phase && m != n
      ensures Logged(s.log + [e], s.phase[m], m)
    {
      assert Logged(s.log, s.phase[m], m);
      LoggedElsewhere(s.log, e, s.phase[m], m);
    }
  }

  /** A silent phase change. */
  lemma PutKeepsCore(cfg: Config, o: Oracle, s: State, n: string, p: Phase)
    requires Core(cfg, o, s) && n in s.phase && !s.phase[n].Done? && Sound(cfg, o, s.phase[n := p], n)
    requires !s.phase[n].KeyQueued? && !s.phase[n].KeyHeld? && !p.KeyQueued? && !p.KeyHeld?
    requires BeforeKey(p) ==> BeforeKey(s.phase[n])
    requires !p.Discarding? && !p.Publishing? && !p.Done? && !s.phase[n].Discarding? && !s.phase[n].Publishing?
    ensures Core(cfg, o, Put(s, n, p))
  {
    PutKeepsSound(cfg, o, s.phase, n, p);
    PutKeepsKeys(cfg, s, n, p);
    assert Logged(s.log, s.phase[n], n);
  }

  lemma FinishKeepsCore(cfg: Config, o: Oracle, s: State, n: string, ok: bool)
    requires Core(cfg, o, s) && n in s.phase && !s.phase[n].Done? && Sound(cfg, o, s.phase[n := Done(ok)], n)
    requires !s.phase[n].KeyQueued? && !s.phase[n].KeyHeld?
    requires ok ==> s.phase[n].Publishing?
    ensures Core(cfg, o, Finish(s, n, ok))
  {
    PutKeepsSound(cfg, o, s.phase, n, Done(ok));
    PutKeepsKeys(cfg, s, n, Done(ok));
    var e := Settle(n, ok);
    assert Logged(s.log, s.phase[n], n);
    AppendKeepsPublishes(cfg, s.log, e);
    assert (s.log + [e])[|s.log|] == e;
    PutKeepsLog(cfg, s, n, Done(ok), e);
    FrameKeys(cfg, Put(s, n, Done(ok)), Finish(s, n, ok));
  }

  lemma FrameKeys(cfg: Config, s: State, s': State)
    requires s.phase.Keys == cfg.jobs.Keys && KeysAgree(cfg, s) && s'.phase == s.phase && s'.keys == s.keys
    ensures KeysAgree(cfg, s')
  {
    forall m | m in s'.phase
      ensures KeyAgrees(cfg, s', m)
    {
      assert KeyAgrees(cfg, s, m);
    }
  }

  lemma StartKeepsCore(cfg: Config, o: Oracle, s: State, n: string)
    requires Core(cfg, o, s) && n in s.phase && Queued(s.phase[n])
    ensures Core(cfg, o, Start(s, n))
  {
    assert Sound(cfg, o, s.phase, n);
    if s.phase[n].PublishQueued? {
      var s' := Put(s, n, Publishing);
      assert PrerequisitesPublished(cfg, s.phase, n) ==> PrerequisitesPublished(cfg, s'.phase, n);
      PutKeepsSound(cfg, o, s.phase, n, Publishing);
      PutKeepsKeys(cfg, s, n, Publishing);
      var e := Publish(n);
      assert Logged(s.log, s.phase[n], n);
      forall d | d in cfg.jobs && Prerequisite(cfg, n, d)
        ensures Settle(d, true) in s.log
      {
        assert Logged(s.log, s.phase[d], d);
      }
      AppendKeepsPublishes(cfg, s.log, e);
      assert (s.log + [e])[|s.log|] == e;
      PutKeepsLog(cfg, s, n, Publishing, e);
      FrameKeys(cfg, s', Start(s, n));
    } else {
      PutKeepsCore(cfg, o, s, n, Packing);
    }
  }

  // -------------------------------------------------------------------- slots

  lemma HoldersPut(phase: map<string, Phase>, n: string, p: Phase)
    requires n in phase
    ensures |Holders(phase[n := p])| ==
      |Holders(phase)| + (if HoldsSlot(p) then 1 else 0) - (if HoldsSlot(phase[n]) then 1 else 0)
  {
    var before, after := Holders(phase), Holders(phase[n := p]);
    if HoldsSlot(p) {
      assert after == before + {n};
    } else {
      assert after == before - {n};
    }
  }

  lemma PutKeepsSlots(cfg: Config, s: State, n: string, p: Phase)
    requires SlotsAgree(cfg, s) && n in s.phase
    requires HoldsSlot(p) == HoldsSlot(s.phase[n]) && !Queued(p) && !Queued(s.phase[n])
    ensures SlotsAgree(cfg, Put(s, n, p))
  {
    HoldersPut(s.phase, n, p);
  }

  lemma EnterKeepsSlots(cfg: Config, s: State, n: string, queued: Phase)
    requires SlotsAgree(cfg, s) && n in s.phase && !HoldsSlot(s.phase[n]) && !Queued(s.phase[n]) && Queued(queued)
    ensures SlotsAgree(cfg, EnterSection(cfg, s, n, queued))
  {
    RequestKeepsOk(s.slots, cfg.limit, n);
    var filed := Put(s, n, queued);
    HoldersPut(s.phase, n, queued);
    if s.slots.active < cfg.limit {
      HoldersPut(filed.phase, n, if queued.PublishQueued? then Publishing else Packing);
      assert s.slots.waiting == [];
    } else {
      AppendNoDuplicates(s.slots.waiting, n);
    }
  }

  lemma LeaveKeepsSlots(cfg: Config, s: State, n: string, p: Phase, log: seq<Event>)
    requires SlotsAgree(cfg, s) && n in s.phase && HoldsSlot(s.phase[n]) && !HoldsSlot(p) && !Queued(p)
    ensures s.slots.active > 0 && (s.slots.waiting != [] ==> s.slots.waiting[0] in s.phase)
    ensures SlotsAgree(cfg, LeaveSection(Put(s, n, p).(log := log)))
  {
    assert n in Holders(s.phase);
    HoldersPut(s.phase, n, p);
    YieldKeepsOk(s.slots, cfg.limit);
    if s.slots.waiting != [] {
      var t := s.slots.waiting[0];
      assert t in s.slots.waiting;
      var mid := Put(s, n, p);
      HoldersPut(mid.phase, t, if mid.phase[t].PublishQueued? then Publishing else Packing);
    }
  }

  // -------------------------------------------------------------------- steps

  lemma InitialInvariant(cfg: Config, o: Oracle)
    requires ValidConfig(cfg)
    ensures Invariant(cfg, o, InitialState(cfg))
  {
    var s := InitialState(cfg);
    assert Holders(s.phase) == {};
    assert KeyHolders(s.phase) == {};
    assert Keyed(NO_KEYS);
    forall n | n in s.phase
      ensures KeyAgrees(cfg, s, n)
    {
    }
    assert forall i :: 0 <= i < |cfg.order| ==> cfg.order[i] in ToSet(cfg.order);
  }

  lemma EnterKeepsCore(cfg: Config, o: Oracle, s: State, n: string, queued: Phase)
    requires Core(cfg, o, s) && n in s.phase && Queued(queued) && Sound(cfg, o, s.phase[n := queued], n)
    requires if queued.PackQueued? then s.phase[n].Idle? else s.phase[n].AwaitDeps?
    ensures Core(cfg, o, EnterSection(cfg, s, n, queued))
  {
    PutKeepsCore(cfg, o, s, n, queued);
    var filed := Put(s, n, queued).(slots := Request(s.slots, cfg.limit, n));
    FrameKeys(cfg, Put(s, n, queued), filed);
    assert Core(cfg, o, filed);
    if s.slots.active < cfg.limit {
      StartKeepsCore(cfg, o, filed, n);
    }
  }

  lemma LeaveKeepsCore(cfg: Config, o: Oracle, s: State)
    requires Core(cfg, o, s) && s.slots.active > 0
    requires s.slots.waiting != [] ==> s.slots.waiting[0] in s.phase && Queued(s.phase[s.slots.waiting[0]])
    ensures Core(cfg, o, LeaveSection(s))
  {
    var left := s.(slots := Yield(s.slots));
    FrameKeys(cfg, s, left);
    assert Core(cfg, o, left);
    if s.slots.waiting != [] {
      StartKeepsCore(cfg, o, left, s.slots.waiting[0]);
    }
  }

  lemma BeginKeepsCore(cfg: Config, o: Oracle, s: State)
    requires Shaped(cfg, s) && Core(cfg, o, s) && Enabled(cfg, s, Begin) && s.phase[cfg.order[s.begun]].Idle?
    ensures Core(cfg, o, Apply(cfg, o, s, Begin))
  {
    var n := cfg.order[s.begun];
    var s1 := s.(begun := s.begun + 1);
    FrameKeys(cfg, s, s1);
    if cfg.jobs[n].packs {
      EnterKeepsCore(cfg, o, s1, n, PackQueued);
    } else {
      PutKeepsCore(cfg, o, s1, n, AwaitDeps);
    }
  }

  lemma KeyStepKeepsKeys(cfg: Config, o: Oracle, s: State, step: Step)
    requires Shaped(cfg, s) && KeysAgree(cfg, s) && Enabled(cfg, s, step)
    requires step.EnterKey? || step.TakeKey? || step.LeaveKey?
    ensures KeysAgree(cfg, Apply(cfg, o, s, step))
  {
    hide Chained, ServedInOrder;
    var n := step.n;
    var s' := Apply(cfg, o, s, step);
    assert KeyAgrees(cfg, s, n);
    var holders, holders' := KeyHolders(s.phase), KeyHolders(s'.phase);
    match step {
      case EnterKey(_) =>
        JoinKeepsOk(s.keys, holders, cfg.jobs[n].packLock.value, n);
        assert holders' == holders;
      case TakeKey(_) =>
        StartKeepsOk(s.keys, holders, n);
        assert holders' == holders + {n};
      case LeaveKey(_) =>
        ResolveKeepsOk(s.keys, holders, n);
        assert holders' == holders - {n};
    }
    forall m | m in s'.phase
      ensures KeyAgrees(cfg, s', m)
    {
      assert KeyAgrees(cfg, s, m);
    }
  }

  lemma KeyStepKeepsCore(cfg: Config, o: Oracle, s: State, step: Step)
    requires Shaped(cfg, s) && Core(cfg, o, s) && Enabled(cfg, s, step)
    requires step.EnterKey? || step.TakeKey? || step.LeaveKey?
    ensures Core(cfg, o, Apply(cfg, o, s, step))
  {
    var n := step.n;
    var s' := Apply(cfg, o, s, step);
    KeyStepKeepsKeys(cfg, o, s, step);
    assert Sound(cfg, o, s.phase, n) && Logged(s.log, s.phase[n], n);
    PutKeepsSound(cfg, o, s.phase, n, s'.phase[n]);
  }

  lemma DoomSpreads(cfg: Config, o: Oracle, n: string, d: string)
    requires n in cfg.jobs && d in cfg.jobs && Prerequisite(cfg, n, d) && Doomed(cfg, o, d)
    ensures Doomed(cfg, o, n)
  {
    var w :| w != [] && w[0] == d && IsWalk(GraphOf(cfg), w) && FailsItself(cfg, o, Last(w));
    var v := [n] + w;
    forall i | 0 <= i < |v| - 1
      ensures Edge(GraphOf(cfg), v[i], v[i + 1])
    {
      if i > 0 {
        assert v[i] == w[i - 1] && v[i + 1] == w[i];
      }
    }
    assert v[0] == n && Last(v) == Last(w);
  }

  lemma OwnFailureDooms(cfg: Config, o: Oracle, n: string)
    requires FailsItself(cfg, o, n)
    ensures Doomed(cfg, o, n)
  {
    assert Last([n]) == n && IsWalk(GraphOf(cfg), [n]);
  }

  /** The state in which a section has ended but its slot has not been passed on. */
  function Ended(o: Oracle, s: State, step: Step): State
    requires step.FinishPack? || step.FinishPublish?
  {
    if step.FinishPack? && step.n !in o.packFails then Put(s, step.n, AwaitDeps)
    else Finish(s, step.n, step.FinishPublish? && step.n !in o.publishFails)
  }

  lemma EndKeepsCore(cfg: Config, o: Oracle, s: State, step: Step)
    requires Shaped(cfg, s) && Core(cfg, o, s) && Enabled(cfg, s, step)
    requires step.FinishPack? || step.FinishPublish?
    ensures Core(cfg, o, Ended(o, s, step))
  {
    var n := step.n;
    assert Sound(cfg, o, s.phase, n);
    if step.FinishPack? && n !in o.packFails {
      PutKeepsCore(cfg, o, s, n, AwaitDeps);
    } else {
      var ok := step.FinishPublish? && n !in o.publishFails;
      if ok {
        assert PrerequisitesPublished(cfg, s.phase[n := Done(true)], n);
      } else {
        OwnFailureDooms(cfg, o, n);
      }
      FinishKeepsCore(cfg, o, s, n, ok);
    }
  }

  lemma LeaveStepKeepsCore(cfg: Config, o: Oracle, s: State, step: Step)
    requires Shaped(cfg, s) && Core(cfg, o, s) && Enabled(cfg, s, step)
    requires forall t :: t in s.slots.waiting ==> Queued(s.phase[t])
    requires step.FinishPack? || step.FinishPublish?
    ensures Core(cfg, o, Apply(cfg, o, s, step))
  {
    EndKeepsCore(cfg, o, s, step);
    assert s.slots.waiting != [] ==> s.slots.waiting[0] in s.slots.waiting;
    LeaveKeepsCore(cfg, o, Ended(o, s, step));
  }

  lemma DepsSettledKeepsCore(cfg: Config, o: Oracle, s: State, n: string)
    requires Shaped(cfg, s) && Core(cfg, o, s) && Enabled(cfg, s, DepsSettled(n))
    ensures Core(cfg, o, Apply(cfg, o, s, DepsSettled(n)))
  {
    hide KeysAgree, LogAgrees;
    assert Sound(cfg, o, s.phase, n);
    if forall d :: d in cfg.jobs && Prerequisite(cfg, n, d) ==> s.phase[d].ok {
      assert PrerequisitesPublished(cfg, s.phase[n := PublishQueued], n);
      EnterKeepsCore(cfg, o, s, n, PublishQueued);
    } else {
      var d :| d in cfg.jobs && Prerequisite(cfg, n, d) && !s.phase[d].ok;
      assert Sound(cfg, o, s.phase, d);
      DoomSpreads(cfg, o, n, d);
      if cfg.jobs[n].discards {
        DiscardKeepsCore(cfg, o, s, n);
      } else {
        FinishKeepsCore(cfg, o, s, n, false);
      }
    }
  }

  lemma DiscardKeepsCore(cfg: Config, o: Oracle, s: State, n: string)
    requires Core(cfg, o, s) && n in s.phase && s.phase[n].AwaitDeps? && Doomed(cfg, o, n)
    ensures Core(cfg, o, Put(s, n, Discarding).(log := s.log + [Discard(n)]))
  {
    var e := Discard(n);
    PutKeepsSound(cfg, o, s.phase, n, Discarding);
    PutKeepsKeys(cfg, s, n, Discarding);
    assert Logged(s.log, s.phase[n], n);
    AppendKeepsPublishes(cfg, s.log, e);
    assert (s.log + [e])[|s.log|] == e;
    PutKeepsLog(cfg, s, n, Discarding, e);
    FrameKeys(cfg, Put(s, n, Discarding), Put(s, n, Discarding).(log := s.log + [e]));
  }

  lemma StepKeepsCore(cfg: Config, o: Oracle, s: State, step: Step)
    requires Steady(cfg, s) && Core(cfg, o, s) && Enabled(cfg, s, step)
    ensures Core(cfg, o, Apply(cfg, o, s, step))
  {
    match step {
      case Begin => BeginKeepsCore(cfg, o, s);
      case EnterKey(n) => KeyStepKeepsCore(cfg, o, s, step);
      case TakeKey(n) => KeyStepKeepsCore(cfg, o, s, step);
      case LeaveKey(n) => KeyStepKeepsCore(cfg, o, s, step);
      case FinishPack(n) => LeaveStepKeepsCore(cfg, o, s, step);
      case DepsSettled(n) => DepsSettledKeepsCore(cfg, o, s, n);
      case FinishDiscard(n) =>
        assert Sound(cfg, o, s.phase, n);
        FinishKeepsCore(cfg, o, s, n, false);
      case FinishPublish(n) => LeaveStepKeepsCore(cfg, o, s, step);
    }
  }

  lemma StepKeepsSlots(cfg: Config, o: Oracle, s: State, step: Step)
    requires Steady(cfg, s) && SlotsAgree(cfg, s) && Enabled(cfg, s, step)
    ensures SlotsAgree(cfg, Apply(cfg, o, s, step))
  {
    match step {
      case Begin =>
        var n := cfg.order[s.begun];
        var s1 := s.(begun := s.begun + 1);
        if cfg.jobs[n].packs {
          EnterKeepsSlots(cfg, s1, n, PackQueued);
        } else {
          PutKeepsSlots(cfg, s1, n, AwaitDeps);
        }
      case EnterKey(n) => PutKeepsSlots(cfg, s, n, KeyQueued);
      case TakeKey(n) => PutKeepsSlots(cfg, s, n, KeyHeld);
      case LeaveKey(n) => PutKeepsSlots(cfg, s, n, PackClosing);
      case FinishPack(n) =>
        var s1 := Ended(o, s, step);
        LeaveKeepsSlots(cfg, s, n, s1.phase[n], s1.log);
      case DepsSettled(n) =>
        if forall d :: d in cfg.jobs && Prerequisite(cfg, n, d) ==> s.phase[d].ok {
          EnterKeepsSlots(cfg, s, n, PublishQueued);
        } else {
          PutKeepsSlots(cfg, s, n, if cfg.jobs[n].discards then Discarding else Done(false));
        }
      case FinishDiscard(n) => PutKeepsSlots(cfg, s, n, Done(false));
      case FinishPublish(n) =>
        var s1 := Ended(o, s, step);
        LeaveKeepsSlots(cfg, s, n, s1.phase[n], s1.log);
    }
  }

  function Actor(cfg: Config, s: State, step: Step): string
    requires Shaped(cfg, s) && Enabled(cfg, s, step)
  {
    if step.Begin? then cfg.order[s.begun] else step.n
  }

  function Running(p: Phase): Phase {
    if p.PublishQueued? then Publishing else Packing
  }

  /** How far a job is from being settled. */
  function Weight(p: Phase): nat {
    match p
    case Idle => 9
    case PackQueued => 8
    case Packing => 7
    case KeyQueued => 6
    case KeyHeld => 5
    case PackClosing => 4
    case AwaitDeps => 3
    case PublishQueued => 2
    case Publishing => 1
    case Discarding => 1
    case Done(_) => 0
  }

  ghost predicate Moves(phase: map<string, Phase>, phase': map<string, Phase>, n: string, p: Phase, woken: Option<string>) {
    phase' == if woken.Some? && woken.value in phase && woken.value != n
              then phase[n := p][woken.value := Running(phase[woken.value])]
              else phase[n := p]
  }

  /** What the phase bookkeeping of a single step relies on. */
  ghost predicate Steady(cfg: Config, s: State) {
    && Shaped(cfg, s)
    && (forall t :: t in s.slots.waiting ==> Queued(s.phase[t]))
    && (s.begun < |cfg.order| ==> s.phase[cfg.order[s.begun]].Idle?)
  }

  lemma InvariantIsSteady(cfg: Config, o: Oracle, s: State)
    requires Invariant(cfg, o, s)
    ensures Steady(cfg, s)
  {
  }

  /** A step moves its own job forward and wakes at most one queued job. */
  lemma StepMoves(cfg: Config, o: Oracle, s: State, step: Step) returns (p: Phase, woken: Option<string>)
    requires Steady(cfg, s) && Enabled(cfg, s, step)
    ensures woken.Some? ==> woken.value in s.slots.waiting
    ensures Moves(s.phase, Apply(cfg, o, s, step).phase, Actor(cfg, s, step), p, woken)
    ensures !p.Idle? && Weight(p) < Weight(s.phase[Actor(cfg, s, step)])
    ensures Apply(cfg, o, s, step).begun == s.begun + (if step.Begin? then 1 else 0)
    ensures forall t :: t in Apply(cfg, o, s, step).slots.waiting ==> t in s.slots.waiting || t == Actor(cfg, s, step)
  {
    if step.FinishPack? || step.FinishPublish? {
      p, woken := LeavingMoves(cfg, o, s, step);
    } else {
      woken := None;
      p := Apply(cfg, o, s, step).phase[Actor(cfg, s, step)];
    }
  }

  lemma LeavingMoves(cfg: Config, o: Oracle, s: State, step: Step) returns (p: Phase, woken: Option<string>)
    requires Steady(cfg, s) && Enabled(cfg, s, step) && (step.FinishPack? || step.FinishPublish?)
    ensures woken.Some? ==> woken.value in s.slots.waiting
    ensures Moves(s.phase, Apply(cfg, o, s, step).phase, step.n, p, woken)
    ensures !p.Idle? && Weight(p) < Weight(s.phase[step.n])
    ensures Apply(cfg, o, s, step).begun == s.begun
    ensures forall t :: t in Apply(cfg, o, s, step).slots.waiting ==> t in s.slots.waiting
  {
    p := Ended(o, s, step).phase[step.n];
    woken := if s.slots.waiting != [] then Some(s.slots.waiting[0]) else None;
    assert s.slots.waiting != [] ==> s.slots.waiting[0] in s.slots.waiting;
  }

  lemma StepKeepsShape(cfg: Config, o: Oracle, s: State, step: Step)
    requires ValidConfig(cfg) && Steady(cfg, s) && BegunInOrder(cfg, s) && Enabled(cfg, s, step)
    ensures Shaped(cfg, Apply(cfg, o, s, step)) && BegunInOrder(cfg, Apply(cfg, o, s, step))
  {
    var p, woken := StepMoves(cfg, o, s, step);
    assert forall i :: 0 <= i < |cfg.order| ==> cfg.order[i] in ToSet(cfg.order);
  }

  /** Every step of every schedule keeps the invariant. */
  lemma StepKeepsInvariant(cfg: Config, o: Oracle, s: State, step: Step)
    requires Invariant(cfg, o, s) && Enabled(cfg, s, step)
    ensures Invariant(cfg, o, Apply(cfg, o, s, step))
  {
    InvariantIsSteady(cfg, o, s);
    StepKeepsCore(cfg, o, s, step);
    StepKeepsSlots(cfg, o, s, step);
    StepKeepsShape(cfg, o, s, step);
  }

  lemma {:induction false} ReachableInvariant(cfg: Config, o: Oracle, schedule: seq<Step>)
    requires ValidConfig(cfg)
    ensures Exec(cfg, o, schedule).Some? ==> Invariant(cfg, o, Exec(cfg, o, schedule).value)
  {
    if schedule == [] {
      InitialInvariant(cfg, o);
    } else {
      var earlier := schedule[..|schedule| - 1];
      ReachableInvariant(cfg, o, earlier);
      if Exec(cfg, o, schedule).Some? {
        StepKeepsInvariant(cfg, o, Exec(cfg, o, earlier).value, Last(schedule));
      }
    }
  }
}
