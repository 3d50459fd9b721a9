/** The order in which a run of the publisher starts its packs. */
module PublishStarts {
  import opened Prelude
  import opened PublishRun
  import opened PublishProofs
  import opened PublishTheorems

  /** The first `n` jobs of the input that pack. */
  function Packs(cfg: Config, n: nat): seq<string>
    requires n <= |cfg.order| && forall t :: t in cfg.order ==> t in cfg.jobs
  {
    if n == 0 then [] else Packs(cfg, n - 1) + if cfg.jobs[cfg.order[n - 1]].packs then [cfg.order[n - 1]] else []
  }

  /** The packs asked for slots in input order, and nothing else happened before all had asked. */
  ghost predicate PacksFirst(cfg: Config, s: State) {
    && Shaped(cfg, s)
    && Packs(cfg, s.begun) <= s.slots.asked
    && (s.begun < |cfg.order| ==> s.slots.asked == Packs(cfg, s.begun) && s.log == [])
  }

  lemma StepKeepsFirst(cfg: Config, o: Oracle, s: State, step: Step)
    requires PacksFirst(cfg, s) && Enabled(cfg, s, step) && Shaped(cfg, Apply(cfg, o, s, step))
    ensures PacksFirst(cfg, Apply(cfg, o, s, step))
  {
    hide Prerequisite;
  }

  lemma {:induction false} ReachableFirst(cfg: Config, o: Oracle, schedule: seq<Step>)
    requires ValidConfig(cfg) && Exec(cfg, o, schedule).Some?
    ensures PacksFirst(cfg, Exec(cfg, o, schedule).value)
    decreases |schedule|
  {
    ReachableInvariant(cfg, o, schedule);
    if schedule != [] {
      hide Apply, Enabled, Invariant;
      ReachableFirst(cfg, o, schedule[..|schedule| - 1]);
      StepKeepsFirst(cfg, o, Exec(cfg, o, schedule[..|schedule| - 1]).value, Last(schedule));
    }
  }

  /**
   All jobs are started before anything else happens: the packs get their slots in input order, and no publish gets one
   before them; until every job has been started nothing is published, discarded or settled.
  */
  lemma PacksGoFirst(cfg: Config, o: Oracle, s: State)
    requires ValidConfig(cfg) && Reachable(cfg, o, s)
    ensures Shaped(cfg, s)
    ensures s.slots.granted <= Packs(cfg, s.begun) || Packs(cfg, s.begun) <= s.slots.granted
    ensures s.begun < |cfg.order| ==> s.log == []
  {
    var schedule :| Exec(cfg, o, schedule) == Some(s);
    ReachableFirst(cfg, o, schedule);
    SlotDiscipline(cfg, o, s);
    var asked, granted, packs := s.slots.asked, s.slots.granted, Packs(cfg, s.begun);
    assert asked[..|packs|] == packs && asked[..|granted|] == granted;
    if |granted| <= |packs| {
      assert granted == packs[..|granted|];
    } else {
      assert packs == granted[..|packs|];
    }
  }
}
