/** The apply half of the migration, on the mutable deck home. */
module DeckMigration {
  import opened Prelude
  import opened DeckHome

  lemma FamiliesDisjoint(a: Path, b: Path)
    requires a != [] && EndsWith(Last(a), ".db") && b != [] && EndsWith(Last(b), ".db") && a != b
    ensures Family(a) !! Family(b)
  {
    hide EndsWith, Sibling;
    forall p, s | p in {a, b} && s in SUFFIXES
      ensures Third(Sibling(p, s)) == s[|s| - 3] && Third(p) == '.'
    {
      SiblingEnds(p, s);
    }
    forall s | s in SUFFIXES
      ensures Sibling(a, s) != Sibling(b, s)
    {
      if Sibling(a, s) == Sibling(b, s) {
        SiblingInjective(a, b, s);
      }
    }
    assert "-wal"[1] == 'w' && "-shm"[1] == 's' && "-journal"[5] == 'n';
    hide Third;
  }

  /** The third character from the end tells the four members of a family apart. */
  function Third(p: Path): char {
    if p == [] || |Last(p)| < 3 then ' ' else Last(p)[|Last(p)| - 3]
  }

  lemma SiblingEnds(db: Path, suffix: string)
    requires db != [] && EndsWith(Last(db), ".db") && suffix in SUFFIXES
    ensures Third(db) == '.' && Third(Sibling(db, suffix)) == suffix[|suffix| - 3]
  {
    var n := |Last(db)|;
    assert Last(db)[n - 3..][0] == Last(db)[n - 3];
    var q := Last(db) + suffix;
    assert Last(Sibling(db, suffix)) == q;
    assert q[|q| - 3] == suffix[|suffix| - 3];
  }

  lemma SiblingInjective(a: Path, b: Path, suffix: string)
    requires a != [] && b != [] && Sibling(a, suffix) == Sibling(b, suffix)
    ensures a == b
  {
    var p := Sibling(a, suffix);
    assert p[..|p| - 1] == a[..|a| - 1] && p[..|p| - 1] == b[..|b| - 1];
    assert Last(p)[..|Last(p)| - |suffix|] == Last(a) && Last(p)[..|Last(p)| - |suffix|] == Last(b);
    assert a == a[..|a| - 1] + [Last(a)] && b == b[..|b| - 1] + [Last(b)];
  }

  /** The families of the first `n` databases that have a disturbed member. */
  ghost function Disturbed(d: Deck, plan: Plan, n: nat): set<Path>
    requires n <= |plan.dbs|
  {
    set db, p | db in plan.dbs[..n] && FamilyDisturbed(d, plan, db) && p in Family(db) && p in Conflicts(d, plan) :: p
  }

  /** Earlier families cannot disturb a later one. */
  lemma Disturbance(d: Deck, plan: Plan, i: nat, family: set<Path>)
    requires Good(plan) && i < |plan.dbs|
    requires family == set p | p in Family(plan.dbs[i]) && p in Conflicts(d, plan)
    ensures FamilyDisturbed(d, plan, plan.dbs[i]) <==> family * (OwnDiffering(d, plan) + Disturbed(d, plan, i)) != {}
    ensures Disturbed(d, plan, i + 1) ==
      Disturbed(d, plan, i) + if FamilyDisturbed(d, plan, plan.dbs[i]) then family else {}
  {
    hide Family, Conflicts, OwnDiffering, EndsWith, Sidecars;
    var db, own := plan.dbs[i], OwnDiffering(d, plan);
    assert plan.dbs[..i + 1] == plan.dbs[..i] + [db];
    if FamilyDisturbed(d, plan, db) {
      var q :| q in Family(db) && q in own;
      OwnAreConflicts(d, plan);
      assert q in family * (own + Disturbed(d, plan, i));
    }
    if family * (own + Disturbed(d, plan, i)) != {} {
      var q :| q in family * (own + Disturbed(d, plan, i));
      if q !in own {
        var e :| e in plan.dbs[..i] && FamilyDisturbed(d, plan, e) && q in Family(e);
        var j :| 0 <= j < i && plan.dbs[j] == e;
        assert Transfer(plan)[j] == e && Transfer(plan)[i] == db;
        assert db in plan.dbs && e in plan.dbs;
        FamiliesDisjoint(e, db);
        assert false;
      }
    }
  }

  lemma OwnAreConflicts(d: Deck, plan: Plan)
    ensures OwnDiffering(d, plan) <= Displaced(d, plan) <= Conflicts(d, plan) <= d.files.Keys
  {
  }

  lemma TakeNone(files: map<Path, Entry>, order: seq<Path>)
    ensures Taken(files, ToSet(order[..0])) == map[] && files - ToSet(order[..0]) == files
  {
  }

  lemma TakeOne(files: map<Path, Entry>, order: seq<Path>, i: nat, displaced: set<Path>)
    requires Enumerates(order, displaced) && displaced <= files.Keys && i < |order|
    ensures var gone := ToSet(order[..i]);
      order[i] in files - gone &&
      Taken(files, gone)[order[i] := (files - gone)[order[i]]] == Taken(files, ToSet(order[..i + 1])) &&
      files - gone - {order[i]} == files - ToSet(order[..i + 1])
  {
    assert order[i] in ToSet(order);
    assert order[..i + 1] == order[..i] + [order[i]];
    assert ToSet(order[..i + 1]) == ToSet(order[..i]) + {order[i]};
  }

  lemma FillStep(d: Deck, stage: map<Path, string>, ts: seq<Path>, i: nat, b: Option<nat>)
    requires ToSet(ts) <= stage.Keys && i < |ts|
    ensures ts[i] in stage
    ensures Fill(d, stage, ts[i..], b) ==
      if SameFile(d.files, ts[i], stage) then Fill(d, stage, ts[i + 1..], b)
      else if b == Some(0) then Stopped(d, Crashed)
      else if Obstructed(d, ts[i]) then Stopped(d, Blocked(ts[i]))
      else Fill(Install(d, ts[i], stage[ts[i]]), stage, ts[i + 1..], Spend(b, 1))
    ensures Missing(d.files, stage, ts[i..]) ==
      (if SameFile(d.files, ts[i], stage) then [] else [ts[i]]) + Missing(d.files, stage, ts[i + 1..])
  {
    hide SameFile, Obstructed, Install, Spend;
    assert ts[i] in ToSet(ts);
    assert ts[i..][0] == ts[i] && ts[i..][1..] == ts[i + 1..];
  }

  lemma FillEnds(d: Deck, stage: map<Path, string>, b: Option<nat>)
    ensures Fill(d, stage, [], b) == Going(d, b) && Missing(d.files, stage, []) == []
  {
  }

  class DeckRoot {
    const plan: Plan
    var files: map<Path, Entry>
    var dirs: set<Path>
    var archives: seq<map<Path, Entry>>
    var marker: Option<Record>

    function State(): Deck
      reads this
    {
      Deck(files, dirs, archives, marker)
    }

    constructor (plan: Plan, d: Deck)
      ensures this.plan == plan && State() == d
    {
      this.plan := plan;
      files, dirs, archives, marker := d.files, d.dirs, d.archives, d.marker;
    }

    /** Everything at or under one of the state paths. */
    method ExistingFiles() returns (found: set<Path>)
      ensures found == Conflicts(State(), plan)
    {
      found := {};
      var rest, seen: set<Path> := StatePaths(plan), {};
      while rest != {}
        invariant rest + seen == StatePaths(plan)
        invariant found == set p | p in files && exists s :: s in seen && s <= p
        decreases |rest|
      {
        var s :| s in rest;
        found := found + set p | p in files && s <= p;
        rest, seen := rest - {s}, seen + {s};
      }
      assert seen == StatePaths(plan);
    }

    /** Adds to the owned differing files the rest of every family they belong to. */
    method AddFamilies(own: set<Path>, conflicts: set<Path>) returns (displaced: set<Path>)
      requires Good(plan) && own == OwnDiffering(State(), plan) && conflicts == Conflicts(State(), plan)
      ensures displaced == Displaced(State(), plan)
    {
      hide Family, FamilyDisturbed, OwnDiffering, Conflicts, Good;
      displaced := own;
      for i := 0 to |plan.dbs|
        invariant displaced == own + Disturbed(State(), plan, i)
      {
        var family := set p | p in Family(plan.dbs[i]) && p in conflicts;
        Disturbance(State(), plan, i, family);
        if family * displaced != {} {
          displaced := displaced + family;
        }
      }
      assert plan.dbs[..|plan.dbs|] == plan.dbs;
    }

    /** Renames the displaced files into the newest archive, stopping where the run is cut off. */
    method MoveAll(displaced: set<Path>, b: Option<nat>) returns (order: seq<Path>)
      requires displaced <= files.Keys
      modifies this`files, this`archives
      ensures Enumerates(order, displaced)
      ensures State() == MoveAside(old(State()), ToSet(order[..Min(b, |order|)]))
    {
      order := Enumerate(displaced);
      assert Enumerates(order, displaced);
      hide ToSet, NoDuplicates, Min, Enumerates, Taken;
      var aside := map[];
      TakeNone(files, order);
      for i := 0 to Min(b, |order|)
        invariant files == old(files) - ToSet(order[..i]) && archives == old(archives)
        invariant aside == Taken(old(files), ToSet(order[..i]))
      {
        TakeOne(old(files), order, i, displaced);
        aside := aside[order[i] := files[order[i]]];
        files := files - {order[i]};
      }
      archives := archives + [aside];
    }

    /** Links every destination that was not identical at the scan. */
    method InstallAll(identical: set<Path>, b: Option<nat>) returns (installed: nat, left: Option<nat>, error: Option<Outcome>)
      requires Good(plan)
      requires forall p :: p in plan.stage ==> (p in identical <==> SameFile(files, p, plan.stage))
      modifies this`files, this`dirs
      ensures archives == old(archives) && marker == old(marker)
      ensures Fill(old(State()), plan.stage, Transfer(plan), b) ==
        if error.None? then Going(State(), left) else Stopped(State(), error.value)
      ensures error.None? ==> installed == |Missing(old(files), plan.stage, Transfer(plan))|
    {
      hide Fill, Missing, Obstructed, Transfer, Sidecars, EndsWith;
      installed, left, error := 0, b, None;
      var ts := Transfer(plan);
      assert ts[0..] == ts;
      for i := 0 to |ts|
        invariant archives == old(archives) && marker == old(marker) && error == None
        invariant forall p :: p in ts[i..] ==> (p in identical <==> SameFile(files, p, plan.stage))
        invariant Fill(old(State()), plan.stage, ts, b) == Fill(State(), plan.stage, ts[i..], left)
        invariant installed + |Missing(files, plan.stage, ts[i..])| == |Missing(old(files), plan.stage, ts)|
      {
        var p := ts[i];
        FillStep(State(), plan.stage, ts, i, left);
        if p !in identical {
          if left == Some(0) {
            error := Some(Crashed);
            return;
          }
          if Obstructed(State(), p) {
            error := Some(Blocked(p));
            return;
          }
          ghost var before := files;
          files := files[p := Regular(plan.stage[p])];
          dirs := dirs + Ancestors(p);
          installed, left := installed + 1, Spend(left, 1);
          MissingElsewhere(before, files, plan.stage, ts[i + 1..], p);
        }
      }
      assert ts[|ts|..] == [];
      FillEnds(State(), plan.stage, left);
    }

    /** The scan a run decides by. */
    method Classify() returns (identical: set<Path>, differing: set<Path>, displaced: set<Path>)
      requires Good(plan)
      ensures differing == Differing(State(), plan) && displaced == Displaced(State(), plan)
      ensures identical == Identical(State(), plan) - displaced
    {
      hide IsState, Owned, Good, Inert, SameFile;
      var conflicts := ExistingFiles();
      identical := set p | p in conflicts && SameFile(files, p, plan.stage);
      differing := set p | p in conflicts && p !in identical && !Inert(plan, p, files[p]);
      var own := set p | p in differing && Owned(plan, p);
      displaced := AddFamilies(own, conflicts);
      identical := identical - displaced;
    }

    method Migrate(force: bool, b: Option<nat>) returns (outcome: Outcome, order: seq<Path>)
      requires Good(plan)
      modifies this
      ensures Enumerates(order, Displaced(old(State()), plan))
      ensures Result(State(), outcome) == Attempt(old(State()), plan, force, order, b)
    {
      hide Displaced, Differing, Identical, Fill, Missing, MoveAside, Min, Spend, StatePaths, Sidecars, EndsWith, SameFile;
      var already := marker.Some?;
      var identical, differing, displaced := Classify();
      OwnAreConflicts(State(), plan);
      ScanStillHolds(State(), plan, displaced, identical);
      if already && !force {
        order := Enumerate(displaced);
        return AlreadyMigrated, order;
      }
      if differing != {} && !force {
        order := Enumerate(displaced);
        return Refused(differing), order;
      }
      order := [];
      var left := b;
      if displaced != {} {
        order := MoveAll(displaced, b);
        if b.Some? && b.value < |order| {
          return Crashed, order;
        }
        left := Spend(b, |order|);
      }
      MovedEverything(old(State()), displaced, order, b);
      var installed, after, error := InstallAll(identical, left);
      if error.Some? {
        return error.value, order;
      }
      if after == Some(0) {
        return Crashed, order;
      }
      if !already || installed > 0 || displaced != {} {
        marker := Some(Record(if displaced != {} then Some(|archives| - 1) else None));
      }
      return Done(installed), order;
    }
  }

  lemma {:induction false} MissingElsewhere(
    a: map<Path, Entry>, b: map<Path, Entry>, stage: map<Path, string>, ts: seq<Path>, p: Path)
    requires p !in ts && forall q :: q != p ==> (q in a <==> q in b) && (q in a ==> a[q] == b[q])
    ensures Missing(a, stage, ts) == Missing(b, stage, ts)
    decreases |ts|
  {
    if ts != [] {
      MissingElsewhere(a, b, stage, ts[1..], p);
    }
  }

  lemma MovedEverything(d: Deck, displaced: set<Path>, order: seq<Path>, b: Option<nat>)
    requires Enumerates(order, displaced) && !(b.Some? && b.value < |order|)
    ensures MoveAside(d, ToSet(order[..Min(b, |order|)])) == MoveAside(d, displaced)
    ensures MoveAside(d, displaced).files == d.files - displaced
    ensures MoveAside(d, displaced).dirs == d.dirs && MoveAside(d, displaced).marker == d.marker
    ensures |MoveAside(d, displaced).archives| == |d.archives| + 1
    ensures displaced == {} ==> d.files - displaced == d.files
  {
    assert order[..|order|] == order;
  }

  /** After the move, a destination is skipped exactly when it still holds its staged copy. */
  lemma ScanStillHolds(d: Deck, plan: Plan, displaced: set<Path>, identical: set<Path>)
    requires Good(plan) && displaced == Displaced(d, plan) && identical == Identical(d, plan) - displaced
    ensures forall p :: p in plan.stage ==> (p in identical <==> SameFile(d.files - displaced, p, plan.stage))
  {
    forall p | p in plan.stage
      ensures p in identical <==> SameFile(d.files - displaced, p, plan.stage)
    {
      assert p in ToSet(Transfer(plan)) && p in StatePaths(plan) && p <= p;
      assert IsState(plan, p);
    }
  }
}
