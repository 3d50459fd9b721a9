/** What a run of the publisher leaves in the log about every job: published, discarded, or neither. */
module PublishDiscards {
  import opened Prelude
  import opened PublishLocks
  import opened DependencyCheck
  import opened PublishRun
  import opened PublishProofs
  import opened PublishTheorems

  // ------------------------------------------------------------- the invariant

  /** Every prerequisite has settled. */
  ghost predicate Cleared(cfg: Config, phase: map<string, Phase>, n: string)
    requires n in cfg.jobs && phase.Keys == cfg.jobs.Keys
  {
    forall d :: d in cfg.jobs && Prerequisite(cfg, n, d) ==> phase[d].Done?
  }

  /** Some prerequisite has failed. */
  ghost predicate Blocked(cfg: Config, phase: map<string, Phase>, n: string)
    requires n in cfg.jobs && phase.Keys == cfg.jobs.Keys
  {
    exists d :: d in cfg.jobs && Prerequisite(cfg, n, d) && phase[d] == Done(false)
  }

  /** A settled job was discarded exactly when it should have been, and published exactly when it could be. */
  ghost predicate Told(cfg: Config, o: Oracle, phase: map<string, Phase>, log: seq<Event>, n: string)
    requires n in cfg.jobs && phase.Keys == cfg.jobs.Keys
  {
    match phase[n]
    case Discarding => PackSucceeds(cfg, o, n) && cfg.jobs[n].discards && Cleared(cfg, phase, n) && Blocked(cfg, phase, n)
    case Done(_) =>
      && (PackSucceeds(cfg, o, n) ==> Cleared(cfg, phase, n))
      && (Discard(n) in log <==> PackSucceeds(cfg, o, n) && cfg.jobs[n].discards && Blocked(cfg, phase, n))
      && (Publish(n) in log <==> PackSucceeds(cfg, o, n) && PrerequisitesPublished(cfg, phase, n))
    case _ => true
  }

  ghost predicate AllTold(cfg: Config, o: Oracle, phase: map<string, Phase>, log: seq<Event>)
    requires phase.Keys == cfg.jobs.Keys
  {
    forall n :: n in phase ==> Told(cfg, o, phase, log, n)
  }

  /** A discard is logged behind the failure of a prerequisite, for a job with a hook. */
  ghost predicate DiscardInOrder(cfg: Config, log: seq<Event>, i: nat)
    requires i < |log| && log[i].Discard?
  {
    log[i].name in cfg.jobs && cfg.jobs[log[i].name].discards &&
    exists d :: d in cfg.jobs && Prerequisite(cfg, log[i].name, d) && Settle(d, false) in log[..i]
  }

  /** A job has at most two entries: what was done with it, and then how it settled. */
  ghost predicate Orderly(cfg: Config, log: seq<Event>) {
    && (forall i, j :: 0 <= i < j < |log| && log[i].name == log[j].name ==> !log[i].Settle? && log[j].Settle?)
    && (forall i :: 0 <= i < |log| && log[i].Discard? ==> DiscardInOrder(cfg, log, i))
  }

  ghost predicate WellLogged(cfg: Config, o: Oracle, s: State) {
    s.phase.Keys == cfg.jobs.Keys && AllTold(cfg, o, s.phase, s.log) && Orderly(cfg, s.log)
  }

  // ------------------------------------------------------------ single changes

  lemma AppendOrderly(cfg: Config, log: seq<Event>, e: Event)
    requires Orderly(cfg, log)
    requires forall x :: x in log && x.name == e.name ==> e.Settle? && !x.Settle?
    requires e.Discard? ==>
      e.name in cfg.jobs && cfg.jobs[e.name].discards &&
      exists d :: d in cfg.jobs && Prerequisite(cfg, e.name, d) && Settle(d, false) in log
    ensures Orderly(cfg, log + [e])
  {
    var longer := log + [e];
    forall i | 0 <= i < |longer| && longer[i].Discard?
      ensures DiscardInOrder(cfg, longer, i)
    {
      assert longer[..i] == log[..i];
      if i == |log| {
        assert log[..i] == log;
      }
    }
  }

  /** What another job did leaves the account of `m` as it was. */
  lemma ToldElsewhere(
    cfg: Config, o: Oracle, phase: map<string, Phase>, log: seq<Event>, n: string, p: Phase, added: seq<Event>, m: string)
    requires phase.Keys == cfg.jobs.Keys && n in phase && !phase[n].Done? && m in phase && m != n
    requires Told(cfg, o, phase, log, m) && forall x :: x in added ==> x.name == n
    ensures Told(cfg, o, phase[n := p], log + added, m)
  {
    assert Discard(m) in log + added <==> Discard(m) in log;
    assert Publish(m) in log + added <==> Publish(m) in log;
    if PackSucceeds(cfg, o, m) && (phase[m].Done? || phase[m].Discarding?) {
      assert !Prerequisite(cfg, m, n);
      assert forall d :: d in cfg.jobs && Prerequisite(cfg, m, d) ==> phase[n := p][d] == phase[d];
    }
  }

  /** One job changes its phase, with an entry in the log or without. */
  lemma ChangeKeeps(cfg: Config, o: Oracle, s: State, t: State, n: string, added: seq<Event>)
    requires WellLogged(cfg, o, s) && n in s.phase && !s.phase[n].Done?
    requires t.phase.Keys == s.phase.Keys && t.phase == s.phase[n := t.phase[n]] && t.log == s.log + added
    requires added == [] || (|added| == 1 && added[0].name == n && Orderly(cfg, t.log))
    requires Told(cfg, o, t.phase, t.log, n)
    ensures WellLogged(cfg, o, t)
  {
    assert s.log + [] == s.log;
    forall m | m in t.phase
      ensures Told(cfg, o, t.phase, t.log, m)
    {
      if m != n {
        ToldElsewhere(cfg, o, s.phase, s.log, n, t.phase[n], added, m);
      }
    }
  }

  lemma Unmentioned(log: seq<Event>, n: string)
    requires Publish(n) !in log && Discard(n) !in log && forall ok :: Settle(n, ok) !in log
    ensures forall x :: x in log ==> x.name != n
  {
    forall x | x in log
      ensures x.name != n
    {
      assert x == Publish(x.name) || x == Discard(x.name) || (x.Settle? && x == Settle(x.name, x.ok));
    }
  }

  lemma StartKeeps(cfg: Config, o: Oracle, s: State, n: string)
    requires WellLogged(cfg, o, s) && LogAgrees(cfg, s) && n in s.phase && Queued(s.phase[n])
    ensures WellLogged(cfg, o, Start(s, n))
  {
    assert Logged(s.log, s.phase[n], n);
    if s.phase[n].PublishQueued? {
      Unmentioned(s.log, n);
      AppendOrderly(cfg, s.log, Publish(n));
      ChangeKeeps(cfg, o, s, Start(s, n), n, [Publish(n)]);
    } else {
      assert s.log + [] == s.log;
      ChangeKeeps(cfg, o, s, Start(s, n), n, []);
    }
  }

  lemma PutKeeps(cfg: Config, o: Oracle, s: State, n: string, p: Phase)
    requires WellLogged(cfg, o, s) && n in s.phase && !s.phase[n].Done? && !p.Done? && !p.Discarding?
    ensures WellLogged(cfg, o, Put(s, n, p))
  {
    assert s.log + [] == s.log;
    ChangeKeeps(cfg, o, s, Put(s, n, p), n, []);
  }

  lemma FinishKeeps(cfg: Config, o: Oracle, s: State, n: string, ok: bool)
    requires WellLogged(cfg, o, s) && LogAgrees(cfg, s) && n in s.phase && !s.phase[n].Done?
    requires PackSucceeds(cfg, o, n) ==> Cleared(cfg, s.phase, n)
    requires Discard(n) in s.log <==> PackSucceeds(cfg, o, n) && cfg.jobs[n].discards && Blocked(cfg, s.phase, n)
    requires Publish(n) in s.log <==> PackSucceeds(cfg, o, n) && PrerequisitesPublished(cfg, s.phase, n)
    ensures WellLogged(cfg, o, Finish(s, n, ok))
  {
    var t, e := Finish(s, n, ok), Settle(n, ok);
    assert Logged(s.log, s.phase[n], n);
    forall x | x in s.log && x.Settle?
      ensures x.name != n
    {
      assert x == Settle(x.name, x.ok);
    }
    AppendOrderly(cfg, s.log, e);
    assert forall d :: d in cfg.jobs && Prerequisite(cfg, n, d) ==> t.phase[d] == s.phase[d];
    assert forall x: Event :: !x.Settle? ==> (x in t.log <==> x in s.log);
    ChangeKeeps(cfg, o, s, t, n, [e]);
  }

  // -------------------------------------------------------------------- steps

  lemma EnterKeeps(cfg: Config, o: Oracle, s: State, n: string, queued: Phase)
    requires WellLogged(cfg, o, s) && LogAgrees(cfg, s) && n in s.phase && Queued(queued)
    requires s.phase[n].Idle? || s.phase[n].AwaitDeps?
    ensures WellLogged(cfg, o, EnterSection(cfg, s, n, queued))
  {
    PutKeeps(cfg, o, s, n, queued);
    var filed := Put(s, n, queued).(slots := Request(s.slots, cfg.limit, n));
    assert WellLogged(cfg, o, filed);
    forall m | m in filed.phase
      ensures Logged(filed.log, filed.phase[m], m)
    {
      assert Logged(s.log, s.phase[m], m);
    }
    if s.slots.active < cfg.limit {
      StartKeeps(cfg, o, filed, n);
    }
  }

  lemma EndKeeps(cfg: Config, o: Oracle, s: State, step: Step)
    requires Shaped(cfg, s) && Core(cfg, o, s) && WellLogged(cfg, o, s) && Enabled(cfg, s, step)
    requires step.FinishPack? || step.FinishPublish?
    ensures WellLogged(cfg, o, Ended(o, s, step))
  {
    var n := step.n;
    assert Sound(cfg, o, s.phase, n) && Logged(s.log, s.phase[n], n);
    if step.FinishPack? && n !in o.packFails {
      PutKeeps(cfg, o, s, n, AwaitDeps);
    } else {
      FinishKeeps(cfg, o, s, n, step.FinishPublish? && n !in o.publishFails);
    }
  }

  lemma LeaveKeeps(cfg: Config, o: Oracle, s: State)
    requires WellLogged(cfg, o, s) && LogAgrees(cfg, s) && s.slots.active > 0
    requires s.slots.waiting != [] ==> s.slots.waiting[0] in s.phase && Queued(s.phase[s.slots.waiting[0]])
    ensures WellLogged(cfg, o, LeaveSection(s))
  {
    var left := s.(slots := Yield(s.slots));
    assert WellLogged(cfg, o, left);
    if s.slots.waiting != [] {
      StartKeeps(cfg, o, left, s.slots.waiting[0]);
    }
  }

  lemma DiscardKeeps(cfg: Config, o: Oracle, s: State, n: string, d: string)
    requires WellLogged(cfg, o, s) && LogAgrees(cfg, s) && n in s.phase && s.phase[n].AwaitDeps?
    requires PackSucceeds(cfg, o, n) && cfg.jobs[n].discards && Cleared(cfg, s.phase, n)
    requires d in cfg.jobs && Prerequisite(cfg, n, d) && s.phase[d] == Done(false)
    ensures WellLogged(cfg, o, Put(s, n, Discarding).(log := s.log + [Discard(n)]))
  {
    assert Logged(s.log, s.phase[n], n) && Logged(s.log, s.phase[d], d);
    Unmentioned(s.log, n);
    AppendOrderly(cfg, s.log, Discard(n));
    var t := Put(s, n, Discarding).(log := s.log + [Discard(n)]);
    assert t.phase[d] == Done(false);
    assert forall m :: m in cfg.jobs && Prerequisite(cfg, n, m) ==> t.phase[m] == s.phase[m];
    hide Orderly;
    ChangeKeeps(cfg, o, s, t, n, [Discard(n)]);
  }

  lemma DepsSettledKeeps(cfg: Config, o: Oracle, s: State, n: string)
    requires Shaped(cfg, s) && Core(cfg, o, s) && WellLogged(cfg, o, s) && Enabled(cfg, s, DepsSettled(n))
    ensures WellLogged(cfg, o, Apply(cfg, o, s, DepsSettled(n)))
  {
    assert Sound(cfg, o, s.phase, n) && Logged(s.log, s.phase[n], n);
    hide KeysAgree, AllSound, WellLogged, LogAgrees;
    if forall d :: d in cfg.jobs && Prerequisite(cfg, n, d) ==> s.phase[d].ok {
      EnterKeeps(cfg, o, s, n, PublishQueued);
    } else {
      var d :| d in cfg.jobs && Prerequisite(cfg, n, d) && !s.phase[d].ok;
      assert s.phase[d] == Done(false);
      if cfg.jobs[n].discards {
        DiscardKeeps(cfg, o, s, n, d);
      } else {
        FinishKeeps(cfg, o, s, n, false);
      }
    }
  }

  lemma StepKeeps(cfg: Config, o: Oracle, s: State, step: Step)
    requires Invariant(cfg, o, s) && WellLogged(cfg, o, s) && Enabled(cfg, s, step)
    ensures WellLogged(cfg, o, Apply(cfg, o, s, step))
  {
    InvariantIsSteady(cfg, o, s);
    hide KeysAgree, BegunInOrder, SlotsAgree, WellLogged;
    match step {
      case Begin =>
        var n := cfg.order[s.begun];
        var s1 := s.(begun := s.begun + 1);
        SameLog(cfg, o, s, s1);
        if cfg.jobs[n].packs {
          EnterKeeps(cfg, o, s1, n, PackQueued);
        } else {
          PutKeeps(cfg, o, s1, n, AwaitDeps);
        }
      case EnterKey(n) =>
        PutKeeps(cfg, o, s, n, KeyQueued);
        SameLog(cfg, o, Put(s, n, KeyQueued), Apply(cfg, o, s, step));
      case TakeKey(n) => PutKeeps(cfg, o, s, n, KeyHeld);
      case LeaveKey(n) =>
        PutKeeps(cfg, o, s, n, PackClosing);
        SameLog(cfg, o, Put(s, n, PackClosing), Apply(cfg, o, s, step));
      case FinishPack(n) => LeaveStepKeeps(cfg, o, s, step);
      case DepsSettled(n) => DepsSettledKeeps(cfg, o, s, n);
      case FinishDiscard(n) => DiscardEnds(cfg, o, s, n);
      case FinishPublish(n) => LeaveStepKeeps(cfg, o, s, step);
    }
  }

  lemma SameLog(cfg: Config, o: Oracle, s: State, t: State)
    requires WellLogged(cfg, o, s) && t.phase == s.phase && t.log == s.log
    ensures WellLogged(cfg, o, t)
  {
  }

  lemma LeaveStepKeeps(cfg: Config, o: Oracle, s: State, step: Step)
    requires Steady(cfg, s) && Core(cfg, o, s) && WellLogged(cfg, o, s) && Enabled(cfg, s, step)
    requires step.FinishPack? || step.FinishPublish?
    ensures WellLogged(cfg, o, Apply(cfg, o, s, step))
  {
    EndKeepsCore(cfg, o, s, step);
    EndKeeps(cfg, o, s, step);
    assert s.slots.waiting != [] ==> s.slots.waiting[0] in s.slots.waiting;
    LeaveKeeps(cfg, o, Ended(o, s, step));
  }

  lemma DiscardEnds(cfg: Config, o: Oracle, s: State, n: string)
    requires Core(cfg, o, s) && WellLogged(cfg, o, s) && n in s.phase && s.phase[n].Discarding?
    ensures WellLogged(cfg, o, Finish(s, n, false))
  {
    assert Told(cfg, o, s.phase, s.log, n) && Logged(s.log, s.phase[n], n);
    FinishKeeps(cfg, o, s, n, false);
  }

  lemma {:induction false} ReachableIsTold(cfg: Config, o: Oracle, schedule: seq<Step>)
    requires ValidConfig(cfg)
    ensures Exec(cfg, o, schedule).Some? ==> WellLogged(cfg, o, Exec(cfg, o, schedule).value)
  {
    if schedule != [] {
      var earlier := schedule[..|schedule| - 1];
      ReachableIsTold(cfg, o, earlier);
      ReachableInvariant(cfg, o, earlier);
      hide Invariant, WellLogged, Apply;
      if Exec(cfg, o, schedule).Some? {
        StepKeeps(cfg, o, Exec(cfg, o, earlier).value, Last(schedule));
      }
    }
  }

  // ----------------------------------------------------------------- theorems

  /**
   Whatever the schedule, a settled job whose pack did not fail was discarded exactly when it has a hook and a
   prerequisite failed, and published exactly when none did; one whose pack failed was neither.
  */
  lemma SettledJobs(cfg: Config, o: Oracle, s: State, n: string)
    requires ValidConfig(cfg) && Reachable(cfg, o, s) && n in s.phase && s.phase[n].Done?
    ensures n in cfg.jobs && s.phase.Keys == cfg.jobs.Keys
    ensures var failedPack := cfg.jobs[n].packs && n in o.packFails;
      var blocked := exists d :: d in cfg.jobs && Prerequisite(cfg, n, d) && s.phase[d] == Done(false);
      (Discard(n) in s.log <==> !failedPack && cfg.jobs[n].discards && blocked) &&
      (Publish(n) in s.log <==> !failedPack && !blocked) &&
      (s.phase[n] == Done(true) <==> !failedPack && !blocked && n !in o.publishFails)
  {
    var schedule :| Exec(cfg, o, schedule) == Some(s);
    ReachableIsTold(cfg, o, schedule);
    ReachableInvariant(cfg, o, schedule);
    assert Told(cfg, o, s.phase, s.log, n) && Sound(cfg, o, s.phase, n);
    hide Exec, KeysAgree, SlotsAgree;
    PublishSettles(cfg, o, s, n);
  }

  lemma PublishSettles(cfg: Config, o: Oracle, s: State, n: string)
    requires s.phase.Keys == cfg.jobs.Keys && AllSound(cfg, o, s.phase) && WellLogged(cfg, o, s)
    requires n in s.phase && s.phase[n].Done?
    ensures s.phase[n] == Done(true) <==>
      PackSucceeds(cfg, o, n) && PrerequisitesPublished(cfg, s.phase, n) && n !in o.publishFails
    ensures PackSucceeds(cfg, o, n) ==> (PrerequisitesPublished(cfg, s.phase, n) <==> !Blocked(cfg, s.phase, n))
  {
    assert Sound(cfg, o, s.phase, n) && Told(cfg, o, s.phase, s.log, n);
    if s.phase[n] == Done(false) && PrerequisitesPublished(cfg, s.phase, n) && !FailsItself(cfg, o, n) {
      var w :| w != [] && w[0] == n && IsWalk(GraphOf(cfg), w) && FailsItself(cfg, o, Last(w));
      NotDoomed(cfg, o, s.phase, w, n);
    }
  }

  /** A walk to a failing job cannot lead through a job that settled well. */
  lemma {:induction false} NotDoomed(cfg: Config, o: Oracle, phase: map<string, Phase>, w: seq<string>, n: string)
    requires phase.Keys == cfg.jobs.Keys && AllSound(cfg, o, phase) && n in phase
    requires w != [] && w[0] == n && IsWalk(GraphOf(cfg), w) && FailsItself(cfg, o, Last(w))
    requires PrerequisitesPublished(cfg, phase, n) && !FailsItself(cfg, o, n)
    ensures false
    decreases |w|
  {
    var v := w[1..];
    forall i | 0 <= i < |v| - 1
      ensures Edge(GraphOf(cfg), v[i], v[i + 1])
    {
      assert Edge(GraphOf(cfg), w[i + 1], w[i + 2]);
    }
    if v != [] {
      assert Edge(GraphOf(cfg), w[0], w[1]);
      if w[1] != n {
        assert Prerequisite(cfg, n, w[1]) && Sound(cfg, o, phase, w[1]);
      }
      NotDoomed(cfg, o, phase, v, w[1]);
    }
  }

  /**
   A discard stands in the log once, before its job settles and after a prerequisite has failed, and only for a job with a
   hook; likewise a publish stands there once, before its job settles.
  */
  lemma DiscardAfterFailure(cfg: Config, o: Oracle, s: State, i: nat)
    requires ValidConfig(cfg) && Reachable(cfg, o, s) && i < |s.log| && !s.log[i].Settle?
    ensures var n := s.log[i].name;
      && s.log[i] !in s.log[..i] && s.log[i] !in s.log[i + 1..]
      && (forall ok :: Settle(n, ok) !in s.log[..i])
      && (s.log[i].Discard? ==>
            n in cfg.jobs && cfg.jobs[n].discards &&
            exists d :: d in cfg.jobs && Prerequisite(cfg, n, d) && Settle(d, false) in s.log[..i])
  {
    var schedule :| Exec(cfg, o, schedule) == Some(s);
    ReachableIsTold(cfg, o, schedule);
    hide Exec;
    assert Orderly(cfg, s.log);
    assert s.log[i].Discard? ==> DiscardInOrder(cfg, s.log, i);
    forall j | 0 <= j < i
      ensures s.log[..i][j].name != s.log[i].name
    {
    }
    var later := s.log[i + 1..];
    forall j | 0 <= j < |later|
      ensures later[j] != s.log[i]
    {
      assert later[j] == s.log[i + 1 + j];
    }
  }
}
