/** Which files make a run without --force refuse, said on their paths and contents. */
module DeckRefusal {
  import opened Prelude
  import opened DeckHome
  import opened DeckTheorems

  /** The journal file `db`-`suffix` of a migrated database. */
  ghost predicate IsJournal(plan: Plan, p: Path, suffix: string) {
    exists dir: Path, name: string :: dir + [name] in plan.dbs && p == dir + [name + suffix]
  }

  ghost predicate AnyJournal(plan: Plan, p: Path) {
    IsJournal(plan, p, "-wal") || IsJournal(plan, p, "-shm") || IsJournal(plan, p, "-journal")
  }

  ghost predicate KeptByDeck(name: string) {
    name in {
      "deck.db", "deck.db-wal", "deck.db-shm", "telegram-bridge.db", "telegram-bridge.db-wal", "telegram-bridge.db-shm",
      "uploads", "routine-runs", ".env", "onboarding.json"
    }
  }

  /** At or below a path the deck keeps its state in, a path the run writes, or a journal file of a database it writes. */
  ghost predicate DeckState(plan: Plan, p: Path) {
    || (p != [] && KeptByDeck(p[0]))
    || (exists t :: t in plan.dbs + plan.others && t <= p)
    || (exists j :: AnyJournal(plan, j) && j <= p)
  }

  ghost predicate EmptyEntry(e: Entry) {
    e == Regular("") || e == Special(0)
  }

  /** What merely opening a database leaves: its shared-memory index, and an empty journal. */
  ghost predicate Leftover(plan: Plan, p: Path, e: Entry) {
    IsJournal(plan, p, "-shm") || (EmptyEntry(e) && (IsJournal(plan, p, "-wal") || IsJournal(plan, p, "-journal")))
  }

  ghost predicate Unsettled(d: Deck, plan: Plan, p: Path) {
    p in d.files && DeckState(plan, p) && !(p in plan.stage && d.files[p] == Regular(plan.stage[p])) &&
    !Leftover(plan, p, d.files[p])
  }

  lemma SidecarIff(plan: Plan, p: Path)
    requires Good(plan)
    ensures p in Sidecars(plan) <==> AnyJournal(plan, p)
  {
    hide EndsWith, Good;
    if p in Sidecars(plan) {
      var db, suffix :| db in plan.dbs && suffix in SUFFIXES && p == Sibling(db, suffix);
      SidecarIsJournal(plan, db, suffix);
    }
    forall suffix | suffix in SUFFIXES && IsJournal(plan, p, suffix)
      ensures p in Sidecars(plan)
    {
      var dir: Path, name: string :| dir + [name] in plan.dbs && p == dir + [name + suffix];
      var db := dir + [name];
      assert db[..|db| - 1] == dir && Last(db) == name;
      assert p == Sibling(db, suffix);
    }
  }

  lemma SidecarIsJournal(plan: Plan, db: Path, suffix: string)
    requires Good(plan) && db in plan.dbs
    ensures IsJournal(plan, Sibling(db, suffix), suffix)
  {
    assert db in Transfer(plan) && db in plan.stage;
    assert db == db[..|db| - 1] + [Last(db)];
  }

  lemma ShmEnds(name: string)
    ensures EndsWith(name + "-shm", "-shm") && !EndsWith(name + "-wal", "-shm") && !EndsWith(name + "-journal", "-shm")
  {
    assert (name + "-shm")[|name|..] == "-shm";
    var wal, journal := name + "-wal", name + "-journal";
    assert wal[|wal| - 4..][3] == 'l' && journal[|journal| - 4..][3] == 'l' && "-shm"[3] == 'm';
  }

  lemma InertIff(plan: Plan, p: Path, e: Entry)
    requires Good(plan)
    ensures Inert(plan, p, e) <==> Leftover(plan, p, e)
  {
    hide EndsWith, Good;
    SidecarIff(plan, p);
    forall dir: Path, name: string, suffix: string | suffix in SUFFIXES && p == dir + [name + suffix]
      ensures EndsWith(Last(p), "-shm") <==> suffix == "-shm"
    {
      assert Last(p) == name + suffix;
      ShmEnds(name);
    }
    assert Size(e) == 0 <==> EmptyEntry(e);
  }

  lemma KeptIff(s: Path)
    ensures s in DECK_STATE <==> |s| == 1 && KeptByDeck(s[0])
  {
    if |s| == 1 {
      assert s == [s[0]];
    }
  }

  lemma StateIff(plan: Plan, p: Path)
    requires Good(plan)
    ensures IsState(plan, p) <==> DeckState(plan, p)
  {
    if s :| s in StatePaths(plan) && s <= p {
      BelowState(plan, p, s);
    }
    if DeckState(plan, p) {
      StateAbove(plan, p);
    }
  }

  lemma BelowState(plan: Plan, p: Path, s: Path)
    requires Good(plan) && s in StatePaths(plan) && s <= p
    ensures DeckState(plan, p)
  {
    SidecarIff(plan, s);
    KeptIff(s);
    hide Good, AnyJournal, Sidecars, KeptByDeck;
    if s in DECK_STATE {
      assert p[0] == s[0];
    }
  }

  lemma StateAbove(plan: Plan, p: Path)
    requires Good(plan) && DeckState(plan, p)
    ensures IsState(plan, p)
  {
    if p != [] && KeptByDeck(p[0]) {
      KeptIff([p[0]]);
      hide Good, Sidecars, KeptByDeck;
      assert [p[0]] <= p && [p[0]] in StatePaths(plan);
    } else if t :| t in plan.dbs + plan.others && t <= p {
      assert t in StatePaths(plan);
    } else {
      var j :| AnyJournal(plan, j) && j <= p;
      SidecarIff(plan, j);
      hide Good, Sidecars, AnyJournal;
      assert j in StatePaths(plan);
    }
  }

  /** Without --force and without the marker, a run refuses if and only if some file is unsettled, and names all of them. */
  lemma RefusesIff(d: Deck, plan: Plan, order: seq<Path>, b: Option<nat>)
    requires Good(plan) && d.marker.None?
    ensures var r := Attempt(d, plan, false, order, b);
      if exists p :: Unsettled(d, plan, p)
        then r.deck == d && r.outcome.Refused? && forall p :: p in r.outcome.differing <==> Unsettled(d, plan, p)
        else !r.outcome.Refused?
  {
    hide Good, IsState, DeckState, Inert, Leftover;
    forall p
      ensures p in Differing(d, plan) <==> Unsettled(d, plan, p)
    {
      if p in d.files {
        StateIff(plan, p);
        InertIff(plan, p, d.files[p]);
      }
    }
    hide Unsettled, Differing, Displaced;
    EverythingStaged(plan);
    FillGrows(d, plan.stage, Transfer(plan), b);
    if Differing(d, plan) == {} {
      NothingDiffersNothingMoves(d, plan);
    }
  }
}
