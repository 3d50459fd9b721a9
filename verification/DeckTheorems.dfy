/** What survives crashes and reruns of the migration. */
module DeckTheorems {
  import opened Prelude
  import opened DeckHome
  import opened DeckMigration

  // ---------------------------------------------------------------- the install loop

  /** Installing never touches what is there; it adds staged copies only. */
  ghost predicate Grew(d: Deck, e: Deck, stage: map<Path, string>, ts: seq<Path>) {
    && e.archives == d.archives
    && e.marker == d.marker
    && (forall p :: p in d.files ==> p in e.files && e.files[p] == d.files[p])
    && (forall p :: p in e.files && p !in d.files ==> p in ts && SameFile(e.files, p, stage))
    && d.dirs <= e.dirs
    && (forall p :: p in e.dirs && p !in d.dirs ==> exists t :: t in ts && p in Ancestors(t))
  }

  lemma {:induction false} FillGrows(d: Deck, stage: map<Path, string>, ts: seq<Path>, b: Option<nat>)
    requires ToSet(ts) <= stage.Keys
    ensures Grew(d, Fill(d, stage, ts, b).deck, stage, ts)
    ensures Fill(d, stage, ts, b).Stopped? ==>
      Fill(d, stage, ts, b).why == Crashed || exists p :: p in ts && Fill(d, stage, ts, b).why == Blocked(p)
    decreases |ts|
  {
    if ts != [] {
      hide Grew, Fill, SameFile, Install, Spend;
      FillStep(d, stage, ts, 0, b);
      assert ts[0..] == ts;
      var p, rest := ts[0], ts[1..];
      assert forall q :: q in rest ==> q in ts;
      StaysGrown(d, stage, ts);
      if SameFile(d.files, p, stage) {
        FillGrows(d, stage, rest, b);
        SkipGrows(d, Fill(d, stage, rest, b).deck, stage, ts);
      } else if b != Some(0) && !Obstructed(d, p) {
        var next := Install(d, p, stage[p]);
        FillGrows(next, stage, rest, Spend(b, 1));
        InstallGrows(d, Fill(next, stage, rest, Spend(b, 1)).deck, stage, ts);
      }
    } else {
      StaysGrown(d, stage, ts);
    }
  }

  lemma StaysGrown(d: Deck, stage: map<Path, string>, ts: seq<Path>)
    ensures Grew(d, d, stage, ts)
  {
  }

  lemma SkipGrows(d: Deck, e: Deck, stage: map<Path, string>, ts: seq<Path>)
    requires ts != [] && Grew(d, e, stage, ts[1..])
    ensures Grew(d, e, stage, ts)
  {
    hide Ancestors, SameFile;
    assert forall q :: q in ts[1..] ==> q in ts;
  }

  lemma InstallGrows(d: Deck, e: Deck, stage: map<Path, string>, ts: seq<Path>)
    requires ts != [] && ts[0] in stage && ts[0] !in d.files && Grew(Install(d, ts[0], stage[ts[0]]), e, stage, ts[1..])
    ensures Grew(d, e, stage, ts)
  {
    hide Ancestors;
    assert forall q :: q in ts <==> q == ts[0] || q in ts[1..];
  }

  /** A cut-off loop, run again to the end, stops where an uninterrupted one stops, in the same state. */
  lemma {:induction false} FillResumes(d: Deck, stage: map<Path, string>, ts: seq<Path>, b: Option<nat>)
    requires ToSet(ts) <= stage.Keys
    ensures Fill(Fill(d, stage, ts, b).deck, stage, ts, None) == Fill(d, stage, ts, None)
    decreases |ts|
  {
    if ts != [] {
      hide Obstructed, Ancestors;
      var p, rest := ts[0], ts[1..];
      assert ts[0..] == ts;
      FillStep(d, stage, ts, 0, b);
      FillStep(d, stage, ts, 0, None);
      var once := Fill(d, stage, ts, b).deck;
      FillStep(once, stage, ts, 0, None);
      FillGrows(d, stage, ts, b);
      if SameFile(d.files, p, stage) {
        FillResumes(d, stage, rest, b);
      } else if b != Some(0) && !Obstructed(d, p) {
        var next := Install(d, p, stage[p]);
        FillResumes(next, stage, rest, Spend(b, 1));
        FillGrows(next, stage, rest, Spend(b, 1));
      }
    }
  }

  lemma {:induction false} FillFinished(d: Deck, stage: map<Path, string>, ts: seq<Path>, b: Option<nat>)
    requires ToSet(ts) <= stage.Keys && Fill(d, stage, ts, b).Going?
    ensures forall p :: p in ts ==> SameFile(Fill(d, stage, ts, b).deck.files, p, stage)
    ensures Fill(d, stage, ts, None) == Going(Fill(d, stage, ts, b).deck, None)
    decreases |ts|
  {
    if ts != [] {
      hide Obstructed, Ancestors;
      var p, rest := ts[0], ts[1..];
      assert ts[0..] == ts;
      FillStep(d, stage, ts, 0, b);
      FillStep(d, stage, ts, 0, None);
      FillGrows(d, stage, ts, b);
      if SameFile(d.files, p, stage) {
        FillFinished(d, stage, rest, b);
      } else {
        var next := Install(d, p, stage[p]);
        FillFinished(next, stage, rest, Spend(b, 1));
        FillGrows(next, stage, rest, Spend(b, 1));
      }
      assert ts == [p] + rest;
    }
  }

  // ---------------------------------------------------------------- without --force

  lemma NothingDiffersNothingMoves(d: Deck, plan: Plan)
    requires Differing(d, plan) == {}
    ensures Displaced(d, plan) == {}
  {
    assert OwnDiffering(d, plan) == {};
  }

  /** An unforced attempt leaves the scan's verdict as it was. */
  lemma VerdictStands(d: Deck, e: Deck, plan: Plan)
    requires Good(plan) && Grew(d, e, plan.stage, Transfer(plan))
    ensures Differing(e, plan) == Differing(d, plan)
  {
    hide Inert, IsState;
    forall p
      ensures p in Differing(e, plan) <==> p in Differing(d, plan)
    {
    }
  }

  function Attempted(d: Deck, plan: Plan, b: Option<nat>): Result
    requires ToSet(Transfer(plan)) <= plan.stage.Keys
  {
    Attempt(d, plan, false, [], b)
  }

  /** Without --force a run only ever adds staged copies and, at the very end, the marker. */
  lemma UnforcedOnlyAdds(d: Deck, plan: Plan, b: Option<nat>)
    requires Good(plan)
    ensures var r := Attempted(d, plan, b);
      Grew(d, r.deck.(marker := d.marker), plan.stage, Transfer(plan)) && (r.outcome.Done? <==> r.deck.marker != d.marker)
  {
    hide Differing, Displaced, Fill, Missing, Good, Grew;
    EverythingStaged(plan);
    StaysGrown(d, plan.stage, Transfer(plan));
    GrownMarker(d, plan.stage, Transfer(plan), b);
    assert d.(marker := d.marker) == d;
    if Differing(d, plan) == {} {
      NothingDiffersNothingMoves(d, plan);
    }
  }

  lemma GrownMarker(d: Deck, stage: map<Path, string>, ts: seq<Path>, b: Option<nat>)
    requires ToSet(ts) <= stage.Keys
    ensures var fill := Fill(d, stage, ts, b);
      fill.deck.marker == d.marker && (fill.Stopped? ==> !fill.why.Done?) &&
      forall m :: Grew(d, fill.deck.(marker := m).(marker := d.marker), stage, ts)
  {
    FillGrows(d, stage, ts, b);
  }

  predicate SameVerdict(a: Outcome, b: Outcome) {
    a == b || (a.Done? && b.Done?)
  }

  /** One cut-off attempt makes no difference to the uninterrupted attempt after it. */
  lemma ResumeOnce(d: Deck, plan: Plan, b: Option<nat>)
    requires Good(plan)
    ensures var cut, whole := Attempted(d, plan, b), Attempted(d, plan, None);
      var again := Attempted(cut.deck, plan, None);
      again.deck == whole.deck &&
      (!cut.outcome.Done? ==> SameVerdict(again.outcome, whole.outcome)) &&
      (cut.outcome.Done? ==> again.outcome == AlreadyMigrated && whole.outcome.Done? && cut.deck == whole.deck)
  {
    if d.marker.None? && Differing(d, plan) == {} {
      var fill := Fill(d, plan.stage, Transfer(plan), b);
      hide Differing, Displaced, Fill, Missing, SameFile, Good, Ancestors;
      NothingDiffersNothingMoves(d, plan);
      EverythingStaged(plan);
      FillGrows(d, plan.stage, Transfer(plan), b);
      VerdictStands(d, fill.deck, plan);
      NothingDiffersNothingMoves(fill.deck, plan);
      FillResumes(d, plan.stage, Transfer(plan), b);
      if fill.Going? {
        FillFinished(d, plan.stage, Transfer(plan), b);
      }
    }
  }

  function RunAll(d: Deck, plan: Plan, cuts: seq<Option<nat>>): Deck
    requires ToSet(Transfer(plan)) <= plan.stage.Keys
    decreases |cuts|
  {
    if cuts == [] then d else RunAll(Attempted(d, plan, cuts[0]).deck, plan, cuts[1..])
  }

  /** Any number of unforced attempts, cut off anywhere, change nothing about where the migration ends. */
  lemma {:induction false} ConvergesWithoutForce(d: Deck, plan: Plan, cuts: seq<Option<nat>>)
    requires Good(plan)
    ensures Attempted(RunAll(d, plan, cuts), plan, None).deck == Attempted(d, plan, None).deck
    decreases |cuts|
  {
    if cuts != [] {
      hide Attempted, Good;
      ResumeOnce(d, plan, cuts[0]);
      ConvergesWithoutForce(Attempted(d, plan, cuts[0]).deck, plan, cuts[1..]);
    }
  }

  /** Originals stay where they are with their content; all that is new is a staged copy. */
  ghost predicate OnlyAdds(d: Deck, e: Deck, plan: Plan) {
    && e.archives == d.archives
    && (forall p :: p in d.files ==> p in e.files && e.files[p] == d.files[p])
    && (forall p :: p in e.files && p !in d.files ==> SameFile(e.files, p, plan.stage))
  }

  lemma {:induction false} OriginalsSurvive(d: Deck, plan: Plan, cuts: seq<Option<nat>>)
    requires Good(plan)
    ensures OnlyAdds(d, RunAll(d, plan, cuts), plan)
    decreases |cuts|
  {
    if cuts != [] {
      hide Attempted, Good;
      UnforcedOnlyAdds(d, plan, cuts[0]);
      var next := Attempted(d, plan, cuts[0]).deck;
      OriginalsSurvive(next, plan, cuts[1..]);
      var e := RunAll(next, plan, cuts[1..]);
    }
  }

  // ---------------------------------------------------------------- with --force

  datatype Try = Try(force: bool, order: seq<Path>, cut: Option<nat>)

  function After(d: Deck, plan: Plan, t: Try): Deck
    requires ToSet(Transfer(plan)) <= plan.stage.Keys
  {
    Attempt(d, plan, t.force, t.order, t.cut).deck
  }

  function AfterAll(d: Deck, plan: Plan, tries: seq<Try>): Deck
    requires ToSet(Transfer(plan)) <= plan.stage.Keys
    decreases |tries|
  {
    if tries == [] then d else AfterAll(After(d, plan, tries[0]), plan, tries[1..])
  }

  ghost predicate Legal(d: Deck, plan: Plan, tries: seq<Try>)
    requires ToSet(Transfer(plan)) <= plan.stage.Keys
    decreases |tries|
  {
    tries == [] ||
    (Enumerates(tries[0].order, Displaced(d, plan)) && Legal(After(d, plan, tries[0]), plan, tries[1..]))
  }

  ghost predicate Archived(archives: seq<map<Path, Entry>>, p: Path, e: Entry) {
    exists i :: 0 <= i < |archives| && p in archives[i] && archives[i][p] == e
  }

  /** The content can be found at its own path or in some archive. */
  ghost predicate Safe(d: Deck, p: Path, e: Entry) {
    (p in d.files && d.files[p] == e) || Archived(d.archives, p, e)
  }

  /** What an attempt starts installing from. */
  function Start(d: Deck, plan: Plan, order: seq<Path>, b: Option<nat>): Deck {
    if Displaced(d, plan) == {} then d else MoveAside(d, ToSet(order[..Min(b, |order|)]))
  }

  /** An attempt is a refusal, or a move aside followed by installs and perhaps the marker. */
  lemma AttemptShape(d: Deck, plan: Plan, t: Try)
    requires Good(plan)
    ensures After(d, plan, t) == d ||
      exists e, m :: Grew(Start(d, plan, t.order, t.cut), e, plan.stage, Transfer(plan)) && After(d, plan, t) == e.(marker := m)
  {
    hide Displaced, Differing, Fill, Missing, MoveAside, Good, Grew, Min;
    EverythingStaged(plan);
    var start := Start(d, plan, t.order, t.cut);
    StaysGrown(start, plan.stage, Transfer(plan));
    assert start == start.(marker := start.marker);
    var left := if Displaced(d, plan) == {} then t.cut else Spend(t.cut, |t.order|);
    FillGrows(start, plan.stage, Transfer(plan), left);
    var fill := Fill(start, plan.stage, Transfer(plan), left).deck;
    assert fill == fill.(marker := fill.marker);
  }

  lemma MoveKeepsSafe(d: Deck, s: set<Path>, p: Path, e: Entry)
    requires Safe(d, p, e)
    ensures Safe(MoveAside(d, s), p, e)
  {
    var after := MoveAside(d, s);
    if p in d.files && d.files[p] == e {
      if p in s {
        assert after.archives[|d.archives|][p] == e;
      }
    } else {
      var i :| 0 <= i < |d.archives| && p in d.archives[i] && d.archives[i][p] == e;
      assert after.archives[i] == d.archives[i];
    }
  }

  lemma AttemptKeepsSafe(d: Deck, plan: Plan, t: Try, p: Path, e: Entry)
    requires Good(plan) && Safe(d, p, e)
    ensures Safe(After(d, plan, t), p, e)
  {
    hide MoveAside, After, Good, Displaced, Archived;
    AttemptShape(d, plan, t);
    MoveKeepsSafe(d, ToSet(t.order[..Min(t.cut, |t.order|)]), p, e);
  }

  /** Whatever is forced, however often, and wherever it is cut off: no content is lost. */
  lemma {:induction false} NothingIsLost(d: Deck, plan: Plan, tries: seq<Try>, p: Path, e: Entry)
    requires Good(plan) && Safe(d, p, e)
    ensures Safe(AfterAll(d, plan, tries), p, e)
    decreases |tries|
  {
    if tries != [] {
      hide Good, Safe, After;
      AttemptKeepsSafe(d, plan, tries[0], p, e);
      NothingIsLost(After(d, plan, tries[0]), plan, tries[1..], p, e);
    }
  }

  function Staged(plan: Plan): map<Path, Entry> {
    map p | p in plan.stage :: Regular(plan.stage[p])
  }

  /** The result of a forced attempt that ran to the end. */
  lemma CompletedRun(d: Deck, plan: Plan, order: seq<Path>, b: Option<nat>)
    requires Good(plan) && Enumerates(order, Displaced(d, plan))
    requires Attempt(d, plan, true, order, b).outcome.Done?
    ensures var r := Attempt(d, plan, true, order, b).deck;
      r.files == (d.files - Displaced(d, plan)) + Staged(plan) &&
      r.archives == d.archives + (if Displaced(d, plan) == {} then [] else [Taken(d.files, Displaced(d, plan))]) &&
      r.marker.Some?
  {
    var out := Displaced(d, plan);
    hide Displaced, Differing, Fill, Missing, Taken;
    assert order != [] ==> order[0] in ToSet(order);
    MovedEverything(d, out, order, b);
    var start := if out == {} then d else MoveAside(d, out);
    var left := if out == {} then b else Spend(b, |order|);
    FillGrows(start, plan.stage, Transfer(plan), left);
    FillFinished(start, plan.stage, Transfer(plan), left);
    var e := Fill(start, plan.stage, Transfer(plan), left).deck;
    GrownToStage(start, e, plan);
  }

  lemma GrownToStage(d: Deck, e: Deck, plan: Plan)
    requires Good(plan) && Grew(d, e, plan.stage, Transfer(plan))
    requires forall p :: p in Transfer(plan) ==> SameFile(e.files, p, plan.stage)
    ensures e.files == d.files + Staged(plan)
  {
    forall p | p in plan.stage
      ensures p in Transfer(plan)
    {
      assert p in ToSet(Transfer(plan));
    }
  }

  // ---------------------------------------------------------------- when a run completes

  /** A destination that is neither in place nor free to take. */
  ghost predicate Clear(d: Deck, stage: map<Path, string>, ts: seq<Path>) {
    forall p :: p in ts ==> SameFile(d.files, p, stage) || !Obstructed(d, p)
  }

  ghost predicate Apart(ts: seq<Path>) {
    NoDuplicates(ts) && forall p, q :: p in ts && q in ts ==> !(p < q)
  }

  lemma InstallElsewhere(d: Deck, p: Path, bytes: string, stage: map<Path, string>, q: Path)
    requires p != q && !(p < q) && !(q < p)
    ensures SameFile(Install(d, p, bytes).files, q, stage) == SameFile(d.files, q, stage)
    ensures Obstructed(Install(d, p, bytes), q) == Obstructed(d, q)
  {
    var e := Install(d, p, bytes);
    assert q in Ancestors(p) ==> q < p;
    if exists a :: a in Ancestors(q) && a in e.files {
      var a :| a in Ancestors(q) && a in e.files;
      assert a < q;
    }
  }

  lemma ApartTail(ts: seq<Path>)
    requires Apart(ts) && ts != []
    ensures Apart(ts[1..]) && forall q :: q in ts[1..] ==> q != ts[0] && !(ts[0] < q) && !(q < ts[0])
  {
    assert forall q :: q in ts[1..] ==> q in ts;
    assert ts[0] in ts;
  }

  lemma {:induction false} FillCompletes(d: Deck, stage: map<Path, string>, ts: seq<Path>)
    requires ToSet(ts) <= stage.Keys && Apart(ts)
    ensures Fill(d, stage, ts, None).Going? <==> Clear(d, stage, ts)
    decreases |ts|
  {
    if ts != [] {
      hide Obstructed, Ancestors, Install, SameFile, Fill, Apart, Missing;
      var p, rest := ts[0], ts[1..];
      assert ts[0..] == ts;
      FillStep(d, stage, ts, 0, None);
      ApartTail(ts);
      assert forall q :: q in ts ==> q == p || q in rest;
      if SameFile(d.files, p, stage) {
        FillCompletes(d, stage, rest);
      } else if !Obstructed(d, p) {
        var next := Install(d, p, stage[p]);
        FillCompletes(next, stage, rest);
        forall q | q in rest
          ensures SameFile(next.files, q, stage) == SameFile(d.files, q, stage)
          ensures Obstructed(next, q) == Obstructed(d, q)
        {
          InstallElsewhere(d, p, stage[p], stage, q);
        }
      }
    }
  }

  lemma SameClear(a: Deck, b: Deck, stage: map<Path, string>, ts: seq<Path>)
    requires a.files == b.files && a.dirs == b.dirs
    ensures Clear(a, stage, ts) == Clear(b, stage, ts)
  {
  }

  lemma PublishCompletes(d: Deck, plan: Plan, out: set<Path>, start: Deck)
    requires Good(plan)
    ensures Publish(d, plan, out, start, None).outcome.Done? <==> Clear(start, plan.stage, Transfer(plan))
  {
    hide Fill, Missing, Clear, Obstructed, SameFile, EndsWith;
    FillGrows(start, plan.stage, Transfer(plan), None);
    assert Apart(Transfer(plan)) by {
      assert forall p :: p in Transfer(plan) ==> p in ToSet(Transfer(plan));
    }
    FillCompletes(start, plan.stage, Transfer(plan));
    if Fill(start, plan.stage, Transfer(plan), None).Going? {
      FillFinished(start, plan.stage, Transfer(plan), None);
    }
  }

  /** An uninterrupted attempt completes exactly when it may start and nothing left in place is in the way. */
  lemma CompletesIff(d: Deck, plan: Plan, force: bool, order: seq<Path>)
    requires Good(plan) && Enumerates(order, Displaced(d, plan))
    ensures Attempt(d, plan, force, order, None).outcome.Done? <==>
      (force || (d.marker.None? && Differing(d, plan) == {})) &&
      Clear(d.(files := d.files - Displaced(d, plan)), plan.stage, Transfer(plan))
  {
    var out := Displaced(d, plan);
    hide Displaced, Differing, Publish, Taken, Good, Obstructed, SameFile;
    MovedEverything(d, out, order, None);
    if !force && Differing(d, plan) == {} {
      NothingDiffersNothingMoves(d, plan);
    }
    EverythingStaged(plan);
    var start := if out == {} then d else MoveAside(d, out);
    PublishCompletes(d, plan, out, start);
    SameClear(start, d.(files := d.files - out), plan.stage, Transfer(plan));
  }

  // ---------------------------------------------------------------- where forced runs end

  /** What a path holds after any history that ends in a completed forced run, journal files aside. */
  ghost predicate Settled(d: Deck, e: Deck, plan: Plan, p: Path) {
    if p in plan.stage then p in e.files && e.files[p] == Regular(plan.stage[p])
    else if IsState(plan, p) && exists t :: t in Transfer(plan) && (t <= p || p <= t) then p !in e.files
    else (p in e.files <==> p in d.files) && (p in d.files ==> e.files[p] == d.files[p])
  }

  lemma DisplacedIsOwned(d: Deck, plan: Plan, p: Path)
    requires Good(plan) && p !in Sidecars(plan) && p !in plan.stage
    ensures p in Displaced(d, plan) <==>
      p in d.files && IsState(plan, p) && exists t :: t in Transfer(plan) && (t <= p || p <= t)
  {
    hide EndsWith;
    forall db | db in plan.dbs
      ensures p !in Family(db)
    {
      assert db in Transfer(plan) && db in ToSet(Transfer(plan));
      assert Sibling(db, "-wal") in Sidecars(plan) && Sibling(db, "-shm") in Sidecars(plan) && Sibling(db, "-journal") in Sidecars(plan);
    }
  }

  /** Attempts, completed or not, never touch a path that is not the migration's own. */
  lemma AttemptSpares(d: Deck, plan: Plan, t: Try, p: Path)
    requires Good(plan) && Enumerates(t.order, Displaced(d, plan))
    requires p !in Sidecars(plan) && p !in plan.stage
    ensures var e := After(d, plan, t);
      (p in e.files ==> p in d.files && e.files[p] == d.files[p]) &&
      (p in d.files && p !in e.files ==>
         IsState(plan, p) && exists t :: t in Transfer(plan) && (t <= p || p <= t))
  {
    DisplacedIsOwned(d, plan, p);
    hide Displaced, IsState, After, Min;
    AttemptShape(d, plan, t);
    assert forall q :: q in t.order[..Min(t.cut, |t.order|)] ==> q in ToSet(t.order);
    var start := Start(d, plan, t.order, t.cut);
    assert p in start.files ==> p in d.files && start.files[p] == d.files[p];
    assert p in d.files && p !in start.files ==> p in Displaced(d, plan);
  }

  /** However many forced or unforced attempts were cut off before, a completed forced run ends the same. */
  lemma {:induction false} ForcedRunsSettle(d: Deck, plan: Plan, tries: seq<Try>, order: seq<Path>, p: Path)
    requires Good(plan) && Legal(d, plan, tries) && p !in Sidecars(plan)
    requires var e := AfterAll(d, plan, tries);
      Enumerates(order, Displaced(e, plan)) && Attempt(e, plan, true, order, None).outcome.Done?
    ensures Settled(d, Attempt(AfterAll(d, plan, tries), plan, true, order, None).deck, plan, p)
    decreases |tries|
  {
    hide Displaced, IsState, After, Good, Attempt, Enumerates;
    EverythingStaged(plan);
    if tries == [] {
      CompletedRun(d, plan, order, None);
      if p !in plan.stage {
        DisplacedIsOwned(d, plan, p);
      }
    } else {
      ForcedRunsSettle(After(d, plan, tries[0]), plan, tries[1..], order, p);
      if p !in plan.stage {
        AttemptSpares(d, plan, tries[0], p);
      }
    }
  }

  lemma StagedIsTransfer(plan: Plan, p: Path)
    requires Good(plan) && p in plan.stage
    ensures p in Transfer(plan) && p <= p
  {
    assert p in ToSet(Transfer(plan));
  }

  /** A file that neither holds nor lies in what is migrated, and is no journal, is never touched: not by force, not by crashes. */
  lemma {:induction false} OthersStay(d: Deck, plan: Plan, tries: seq<Try>, p: Path)
    requires Good(plan) && Legal(d, plan, tries)
    requires p in d.files && p !in Sidecars(plan) && forall t :: t in Transfer(plan) ==> !(t <= p) && !(p <= t)
    ensures var e := AfterAll(d, plan, tries);
      p in e.files && e.files[p] == d.files[p]
    decreases |tries|
  {
    if p in plan.stage {
      StagedIsTransfer(plan, p);
    }
    if tries != [] {
      hide After, Good, Enumerates;
      AttemptSpares(d, plan, tries[0], p);
      OthersStay(After(d, plan, tries[0]), plan, tries[1..], p);
    }
  }

  /**
   A state file that holds or lies in what is migrated gives way: after a completed forced run, whatever went before, it is
   gone from its path unless it was the staged copy.
  */
  lemma OwnFilesGo(d: Deck, plan: Plan, tries: seq<Try>, order: seq<Path>, p: Path, s: Path, t: Path)
    requires Good(plan) && Legal(d, plan, tries) && p in d.files && p !in Sidecars(plan)
    requires s in StatePaths(plan) && s <= p && t in Transfer(plan) && (t <= p || p <= t)
    requires !(p in plan.stage && d.files[p] == Regular(plan.stage[p]))
    requires var e := AfterAll(d, plan, tries);
      Enumerates(order, Displaced(e, plan)) && Attempt(e, plan, true, order, None).outcome.Done?
    ensures var e := Attempt(AfterAll(d, plan, tries), plan, true, order, None).deck;
      !(p in e.files && e.files[p] == d.files[p]) && (p !in plan.stage ==> p !in e.files)
  {
    hide Displaced, After, Good, Attempt, Enumerates, StatePaths;
    ForcedRunsSettle(d, plan, tries, order, p);
  }

  // ---------------------------------------------------------------- databases and their journals

  lemma FamilyIsState(plan: Plan, db: Path, p: Path)
    requires Good(plan) && db in plan.dbs && p in Family(db)
    ensures IsState(plan, p) && Owned(plan, p)
    ensures p == db || p in Sidecars(plan)
  {
    hide EndsWith;
    assert db in Transfer(plan) && db <= db && p <= p;
    if p != db {
      assert p in Sidecars(plan);
    }
    assert p in StatePaths(plan);
  }

  /** The database itself, or a journal with something in it; the shared-memory index never counts. */
  predicate HoldsData(d: Deck, plan: Plan, q: Path) {
    q in d.files && !SameFile(d.files, q, plan.stage) &&
    (q in Sidecars(plan) ==> Size(d.files[q]) > 0 && !(q != [] && EndsWith(Last(q), "-shm")))
  }

  lemma FamilyOwn(d: Deck, plan: Plan, db: Path, q: Path)
    requires Good(plan) && db in plan.dbs && q in Family(db)
    ensures q in OwnDiffering(d, plan) <==> HoldsData(d, plan, q)
    ensures q in Conflicts(d, plan) <==> q in d.files
  {
    FamilyIsState(plan, db, q);
  }

  /** A family is displaced as a whole, and exactly when one of its members holds data that differs. */
  lemma FamilyMovesTogether(d: Deck, plan: Plan, db: Path, p: Path)
    requires Good(plan) && db in plan.dbs && p in Family(db) && p in d.files
    ensures p in Displaced(d, plan) <==> exists q :: q in Family(db) && HoldsData(d, plan, q)
  {
    hide OwnDiffering, Conflicts, HoldsData, Family, Sidecars, EndsWith, Transfer;
    forall q | q in Family(db)
      ensures q in OwnDiffering(d, plan) <==> HoldsData(d, plan, q)
      ensures q in Conflicts(d, plan) <==> q in d.files
    {
      FamilyOwn(d, plan, db, q);
    }
    if p in Displaced(d, plan) && p !in OwnDiffering(d, plan) {
      var e :| e in plan.dbs && FamilyDisturbed(d, plan, e) && p in Family(e);
      if e != db {
        FamiliesDisjoint(e, db);
      }
    }
    if q :| q in Family(db) && q in OwnDiffering(d, plan) {
      assert FamilyDisturbed(d, plan, db);
    }
  }

  /** In a completed run a database and its journals are archived together, or none of them moves. */
  lemma FamilyStaysTogether(d: Deck, plan: Plan, order: seq<Path>, b: Option<nat>, db: Path)
    requires Good(plan) && Enumerates(order, Displaced(d, plan)) && db in plan.dbs
    requires Attempt(d, plan, true, order, b).outcome.Done?
    ensures var e := Attempt(d, plan, true, order, b).deck;
      (forall p :: p in Family(db) && p in d.files ==>
         e.archives != [] && p in Last(e.archives) && Last(e.archives)[p] == d.files[p] &&
         (p != db ==> p !in e.files)) ||
      (forall p :: p in Family(db) && p in d.files ==> p in e.files && e.files[p] == d.files[p])
  {
    CompletedRun(d, plan, order, b);
    forall p | p in Family(db)
      ensures p != db ==> p !in plan.stage
      ensures p in d.files && p !in Displaced(d, plan) && p in plan.stage ==> d.files[p] == Regular(plan.stage[p])
    {
      FamilyIsState(plan, db, p);
      if p in d.files {
        FamilyMovesTogether(d, plan, db, p);
      }
    }
    forall p | p in Family(db) && p in d.files
      ensures p in Displaced(d, plan) <==> exists q :: q in Family(db) && HoldsData(d, plan, q)
    {
      FamilyMovesTogether(d, plan, db, p);
    }
  }

  /** After a crash between a family's members, a rerun archives what is left only if something left holds data. */
  lemma {:induction false} LeftoversMoveIff(d: Deck, plan: Plan, db: Path, p: Path)
    requires Good(plan) && db in plan.dbs && db !in d.files && p in Family(db) && p in d.files
    ensures p in Displaced(d, plan) <==> exists q :: q in Family(db) && q in d.files && !Inert(plan, q, d.files[q])
  {
    FamilyMovesTogether(d, plan, db, p);
    forall q | q in Family(db) && q in d.files
      ensures HoldsData(d, plan, q) <==> !Inert(plan, q, d.files[q])
    {
      FamilyIsState(plan, db, q);
    }
  }

  const DB: Path := ["deck.db"]
  const SHM: Path := ["deck.db-shm"]
  const ONE_DB := Plan([DB], [], map[DB := "new"])
  const STALE := Deck(map[DB := Regular("old"), SHM := Regular("index")], {}, [], None)

  lemma OneDbIsGood()
    ensures Good(ONE_DB) && Family(DB) == {DB, ["deck.db-wal"], SHM, ["deck.db-journal"]}
    ensures Inert(ONE_DB, SHM, Regular("index"))
  {
    assert DB[..|DB| - 1] == [] && Last(DB) == "deck.db";
    assert "deck.db" + "-shm" == "deck.db-shm" && "deck.db" + "-wal" == "deck.db-wal";
    assert "deck.db" + "-journal" == "deck.db-journal";
    assert Sibling(DB, "-shm") == SHM && Sibling(DB, "-wal") == ["deck.db-wal"] && Sibling(DB, "-journal") == ["deck.db-journal"];
    assert Transfer(ONE_DB) == [DB];
    assert "deck.db"[4..] == ".db" && "deck.db-shm"[7..] == "-shm";
    assert SHM in Sidecars(ONE_DB);
  }

  lemma StaleFamily()
    ensures Displaced(STALE, ONE_DB) == {DB, SHM}
    ensures forall d: Deck :: d.files == STALE.files - {DB} ==> Displaced(d, ONE_DB) == {}
  {
    OneDbIsGood();
    assert DB in ONE_DB.stage && DB !in Sidecars(ONE_DB);
    hide Good, EndsWith, Displaced;
    OwnAreConflicts(STALE, ONE_DB);
    assert "old" != "new" && HoldsData(STALE, ONE_DB, DB);
    FamilyMovesTogether(STALE, ONE_DB, DB, DB);
    FamilyMovesTogether(STALE, ONE_DB, DB, SHM);
    forall d: Deck | d.files == STALE.files - {DB}
      ensures Displaced(d, ONE_DB) == {}
    {
      OwnAreConflicts(d, ONE_DB);
      LeftoversMoveIff(d, ONE_DB, DB, SHM);
    }
  }

  /** Uninterrupted, a forced run archives the database together with its old journal index... */
  lemma WholeRunMovesFamily()
    ensures Good(ONE_DB) && Enumerates([DB, SHM], Displaced(STALE, ONE_DB))
    ensures Attempt(STALE, ONE_DB, true, [DB, SHM], None).outcome.Done?
    ensures Attempt(STALE, ONE_DB, true, [DB, SHM], None).deck.files == map[DB := Regular("new")]
  {
    OneDbIsGood();
    StaleFamily();
    hide Displaced, Good, Differing, Attempt, Transfer;
    CompletesIff(STALE, ONE_DB, true, [DB, SHM]);
    CompletedRun(STALE, ONE_DB, [DB, SHM], None);
  }

  /** ...but cut off between the two, its rerun leaves the old index beside the new database. */
  lemma CrashSplitsFamily()
    ensures var cut := Attempt(STALE, ONE_DB, true, [DB, SHM], Some(1)).deck;
      Enumerates([], Displaced(cut, ONE_DB)) &&
      Attempt(cut, ONE_DB, true, [], None).outcome.Done? &&
      Attempt(cut, ONE_DB, true, [], None).deck.files == map[DB := Regular("new"), SHM := Regular("index")]
  {
    OneDbIsGood();
    StaleFamily();
    hide Displaced, Good, Differing;
    assert [DB, SHM][..1] == [DB] && ToSet([DB]) == {DB};
    var cut := Attempt(STALE, ONE_DB, true, [DB, SHM], Some(1)).deck;
    assert cut.files == STALE.files - {DB};
    CompletesIff(cut, ONE_DB, true, []);
    CompletedRun(cut, ONE_DB, [], None);
  }

  // ---------------------------------------------------------------- reruns and the shape of the tree

  lemma {:induction false} FillInPlace(d: Deck, stage: map<Path, string>, ts: seq<Path>, b: Option<nat>)
    requires ToSet(ts) <= stage.Keys && forall p :: p in ts ==> SameFile(d.files, p, stage)
    ensures Fill(d, stage, ts, b) == Going(d, b) && Missing(d.files, stage, ts) == []
    decreases |ts|
  {
    if ts != [] {
      assert ts[0..] == ts;
      FillStep(d, stage, ts, 0, b);
      assert forall p :: p in ts[1..] ==> p in ts;
      FillInPlace(d, stage, ts[1..], b);
    }
  }

  lemma NothingLeftToMove(d: Deck, e: Deck, plan: Plan)
    requires Good(plan) && e.files == (d.files - Displaced(d, plan)) + Staged(plan)
    ensures Displaced(e, plan) == {}
  {
    hide IsState, Owned, Inert, EndsWith;
    assert forall p :: p in OwnDiffering(e, plan) ==> p in OwnDiffering(d, plan);
    assert OwnDiffering(e, plan) == {};
  }

  /** A second forced run right after a completed one changes nothing at all. */
  lemma ForcedRerunIsNoOp(d: Deck, plan: Plan, order: seq<Path>, b: Option<nat>)
    requires Good(plan) && Enumerates(order, Displaced(d, plan))
    requires Attempt(d, plan, true, order, b).outcome.Done?
    ensures var e := Attempt(d, plan, true, order, b).deck;
      Displaced(e, plan) == {} && Attempt(e, plan, true, [], None) == Result(e, Done(0))
  {
    CompletedRun(d, plan, order, b);
    var e := Attempt(d, plan, true, order, b).deck;
    NothingLeftToMove(d, e, plan);
    assert forall p :: p in Transfer(plan) ==> p in ToSet(Transfer(plan));
    FillInPlace(e, plan.stage, Transfer(plan), None);
  }

  /** No path is both a file and a directory, and everything a path goes through is a directory. */
  ghost predicate Tree(d: Deck) {
    && d.files.Keys !! d.dirs
    && (forall p, q :: p in d.files && q < p ==> q in d.dirs)
    && (forall p, q :: p in d.dirs && q < p ==> q in d.dirs)
  }

  lemma AncestorIff(q: Path, p: Path)
    ensures q in Ancestors(p) <==> q < p
  {
    if q < p {
      assert q == p[..|q|];
    }
  }

  lemma InstallKeepsTree(d: Deck, p: Path, bytes: string)
    requires Tree(d) && !Obstructed(d, p)
    ensures Tree(Install(d, p, bytes))
  {
    forall q: Path
      ensures q in Ancestors(p) <==> q < p
    {
      AncestorIff(q, p);
    }
    hide Ancestors;
    var e := Install(d, p, bytes);
    forall k: Path, q: Path | k in e.dirs && q < k
      ensures q in e.dirs
    {
      if k !in d.dirs {
        assert q < p;
      }
    }
  }

  lemma {:induction false} FillKeepsTree(d: Deck, stage: map<Path, string>, ts: seq<Path>, b: Option<nat>)
    requires ToSet(ts) <= stage.Keys && Tree(d)
    ensures Tree(Fill(d, stage, ts, b).deck)
    decreases |ts|
  {
    if ts != [] {
      hide Tree, Obstructed, Install, SameFile, Spend;
      assert ts[0..] == ts;
      FillStep(d, stage, ts, 0, b);
      if SameFile(d.files, ts[0], stage) {
        FillKeepsTree(d, stage, ts[1..], b);
      } else if b != Some(0) && !Obstructed(d, ts[0]) {
        InstallKeepsTree(d, ts[0], stage[ts[0]]);
        FillKeepsTree(Install(d, ts[0], stage[ts[0]]), stage, ts[1..], Spend(b, 1));
      }
    }
  }

  /** No attempt, however cut off, leaves a broken directory tree. */
  lemma AttemptKeepsTree(d: Deck, plan: Plan, t: Try)
    requires Good(plan) && Tree(d)
    ensures Tree(After(d, plan, t))
  {
    hide Displaced, Differing, Fill, Missing, Good, Ancestors, Min;
    EverythingStaged(plan);
    var start := Start(d, plan, t.order, t.cut);
    var left := if Displaced(d, plan) == {} then t.cut else Spend(t.cut, |t.order|);
    FillKeepsTree(start, plan.stage, Transfer(plan), left);
  }
}
