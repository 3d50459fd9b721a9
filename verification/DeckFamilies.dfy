/** When a database and its journals end up apart: a forced run cut off between them, and the run after it. */
module DeckFamilies {
  import opened Prelude
  import opened DeckHome
  import opened DeckTheorems

  /** The members of the family that were there stand in one archive opened since, or are all still in place. */
  ghost predicate Together(d: Deck, e: Deck, db: Path) {
    (exists k: nat :: AllArchived(d, e, db, k)) || AllInPlace(d, e, db)
  }

  ghost predicate AllArchived(d: Deck, e: Deck, db: Path, k: nat) {
    |d.archives| <= k < |e.archives| &&
    forall p :: p in Family(db) && p in d.files ==> p in e.archives[k] && e.archives[k][p] == d.files[p]
  }

  predicate InPlace(d: Deck, e: Deck, p: Path)
    requires p in d.files
  {
    p in e.files && e.files[p] == d.files[p]
  }

  ghost predicate AllInPlace(d: Deck, e: Deck, db: Path) {
    forall p :: p in Family(db) && p in d.files ==> InPlace(d, e, p)
  }

  /** The run is cut off after moving some member of the family and before moving another. */
  ghost predicate CutBetween(order: seq<Path>, k: nat, db: Path)
    requires k <= |order|
  {
    exists p, q :: p in Family(db) && q in Family(db) && p in order[..k] && q in order[k..]
  }

  // ---------------------------------------------------------------- the cut-off run

  lemma PublishGrows(d: Deck, plan: Plan, out: set<Path>, start: Deck, b: Option<nat>) returns (grown: Deck)
    requires Good(plan)
    ensures ToSet(Transfer(plan)) <= plan.stage.Keys
    ensures var r := Publish(d, plan, out, start, b).deck;
      grown.files == r.files && grown.archives == r.archives && Grew(start, grown, plan.stage, Transfer(plan))
  {
    hide Fill, Missing, Good, Grew;
    EverythingStaged(plan);
    FillGrows(start, plan.stage, Transfer(plan), b);
    grown := Fill(start, plan.stage, Transfer(plan), b).deck;
  }

  /** What a forced attempt leaves behind; a run cut off while moving has installed nothing. */
  lemma ForcedShape(d: Deck, plan: Plan, order: seq<Path>, b: nat) returns (grown: Deck)
    requires Good(plan) && Enumerates(order, Displaced(d, plan))
    ensures var cut := Attempt(d, plan, true, order, Some(b)).deck;
      grown.files == cut.files && grown.archives == cut.archives &&
      Grew(Start(d, plan, order, Some(b)), grown, plan.stage, Transfer(plan)) &&
      (b < |order| ==> grown == Start(d, plan, order, Some(b)))
  {
    assert order != [] ==> order[0] in ToSet(order);
    assert Displaced(d, plan) == {} ==> order == [];
    hide Displaced, Differing, Fill, Missing, MoveAside, Good, Grew, Publish, Enumerates, Transfer;
    EverythingStaged(plan);
    var start := Start(d, plan, order, Some(b));
    StaysGrown(start, plan.stage, Transfer(plan));
    grown := start;
    if b >= |order| {
      var left := if Displaced(d, plan) == {} then Some(b) else Spend(Some(b), |order|);
      grown := PublishGrows(d, plan, Displaced(d, plan), start, left);
    }
  }

  /** The deck after the cut, as far as one family is concerned; `moved` is what had gone to the archive. */
  ghost predicate CutDeck(d: Deck, cut: Deck, plan: Plan, db: Path, moved: set<Path>) {
    && (forall p :: p in Family(db) && p in d.files && p !in moved ==> p in cut.files && cut.files[p] == d.files[p])
    && (forall p :: p in Family(db) && p in cut.files && (p !in d.files || p in moved) ==> SameFile(cut.files, p, plan.stage))
  }

  lemma CutFrom(d: Deck, start: Deck, grown: Deck, cut: Deck, plan: Plan, db: Path, moved: set<Path>)
    requires start.files == d.files - moved && Grew(start, grown, plan.stage, Transfer(plan)) && cut.files == grown.files
    ensures CutDeck(d, cut, plan, db, moved)
  {
    GrowthInFamily(start, grown, plan, db);
    hide Family, Grew, SameFile;
  }

  lemma MovedAreDisplaced(d: Deck, plan: Plan, order: seq<Path>, k: nat)
    requires Enumerates(order, Displaced(d, plan)) && k <= |order|
    ensures ToSet(order[..k]) <= Displaced(d, plan) && (Displaced(d, plan) == {} ==> order == [])
  {
    hide Displaced;
    assert order != [] ==> order[0] in ToSet(order);
    assert forall p :: p in order[..k] ==> p in ToSet(order);
  }

  lemma CutLeaves(d: Deck, plan: Plan, order: seq<Path>, b: nat, db: Path)
    requires Good(plan) && Enumerates(order, Displaced(d, plan)) && db in plan.dbs
    ensures var cut, moved := Attempt(d, plan, true, order, Some(b)).deck, ToSet(order[..Min(Some(b), |order|)]);
      CutDeck(d, cut, plan, db, moved) && moved <= Displaced(d, plan) &&
      (b < |order| ==> forall p :: p in moved ==> p !in cut.files) &&
      cut.archives == d.archives + if Displaced(d, plan) == {} then [] else [Taken(d.files, moved)]
  {
    var grown := ForcedShape(d, plan, order, b);
    MovedAreDisplaced(d, plan, order, Min(Some(b), |order|));
    var moved := ToSet(order[..Min(Some(b), |order|)]);
    var start, cut := Start(d, plan, order, Some(b)), Attempt(d, plan, true, order, Some(b)).deck;
    StartLeaves(d, plan, order, b);
    CutFrom(d, start, grown, cut, plan, db, moved);
    GrowthInFamily(start, grown, plan, db);
    hide Displaced, Good, Family, Attempt, Enumerates, Min, Start, Grew, CutDeck, Taken, Transfer, SameFile;
  }

  lemma StartLeaves(d: Deck, plan: Plan, order: seq<Path>, b: nat)
    requires Displaced(d, plan) == {} ==> order == []
    ensures var start, moved := Start(d, plan, order, Some(b)), ToSet(order[..Min(Some(b), |order|)]);
      start.files == d.files - moved &&
      start.archives == d.archives + if Displaced(d, plan) == {} then [] else [Taken(d.files, moved)]
  {
    hide Displaced, Min;
    if order == [] {
      assert order[..Min(Some(b), |order|)] == [];
      assert d.files - {} == d.files && d.archives + [] == d.archives;
    }
  }

  lemma GrowthInFamily(start: Deck, grown: Deck, plan: Plan, db: Path)
    requires Grew(start, grown, plan.stage, Transfer(plan))
    ensures forall p :: p in Family(db) && p in grown.files && p !in start.files ==> SameFile(grown.files, p, plan.stage)
    ensures forall p :: p in start.files ==> p in grown.files && grown.files[p] == start.files[p]
    ensures grown.archives == start.archives
  {
    hide Family, Transfer, Ancestors, SameFile;
  }

  /** After the cut, a member holds data exactly when it did before and was not moved. */
  lemma DataAfterCut(d: Deck, cut: Deck, plan: Plan, db: Path, moved: set<Path>, q: Path)
    requires CutDeck(d, cut, plan, db, moved) && q in Family(db)
    ensures HoldsData(cut, plan, q) <==> HoldsData(d, plan, q) && q !in moved
  {
    hide Inert, Family;
  }

  /** The members still there move in the rerun exactly when one of them holds data. */
  lemma RerunMoves(d: Deck, cut: Deck, plan: Plan, db: Path, moved: set<Path>, p: Path)
    requires Good(plan) && db in plan.dbs && CutDeck(d, cut, plan, db, moved) && p in Family(db) && p in cut.files
    ensures p in Displaced(cut, plan) <==> exists q :: q in Family(db) && q !in moved && HoldsData(d, plan, q)
  {
    hide HoldsData, Displaced, Family, Good, CutDeck;
    FamilyMovesTogether(cut, plan, db, p);
    forall q | q in Family(db)
      ensures HoldsData(cut, plan, q) <==> HoldsData(d, plan, q) && q !in moved
    {
      DataAfterCut(d, cut, plan, db, moved, q);
    }
  }

  // ---------------------------------------------------------------- the run after it

  /** Where the family is after the rerun. */
  ghost predicate Rerun(cut: Deck, e: Deck, plan: Plan) {
    && e.files == (cut.files - Displaced(cut, plan)) + Staged(plan)
    && e.archives == cut.archives + if Displaced(cut, plan) == {} then [] else [Taken(cut.files, Displaced(cut, plan))]
  }

  /** A member that holds data and was displaced is not in place afterwards; one that holds none and stayed is. */
  lemma PlaceAfter(d: Deck, cut: Deck, e: Deck, plan: Plan, db: Path, moved: set<Path>, p: Path)
    requires Good(plan) && db in plan.dbs && CutDeck(d, cut, plan, db, moved) && Rerun(cut, e, plan)
    requires p in Family(db) && p in d.files
    ensures HoldsData(d, plan, p) && (p in moved || p in Displaced(cut, plan)) ==> !InPlace(d, e, p)
    ensures !HoldsData(d, plan, p) && p !in moved && p !in Displaced(cut, plan) ==> InPlace(d, e, p)
  {
    hide Displaced, EndsWith;
    FamilyIsState(plan, db, p);
    if p in Sidecars(plan) {
      assert p !in plan.stage;
    }
  }

  /** With no data in the family nothing of it moves, however the run is cut off. */
  lemma NoDataStays(d: Deck, cut: Deck, e: Deck, plan: Plan, db: Path, moved: set<Path>)
    requires Good(plan) && db in plan.dbs && CutDeck(d, cut, plan, db, moved) && Rerun(cut, e, plan)
    requires moved <= Displaced(d, plan) && forall q :: q in Family(db) ==> !HoldsData(d, plan, q)
    ensures AllInPlace(d, e, db) && forall p :: p in Family(db) && p in d.files ==> p !in Displaced(d, plan)
  {
    forall p | p in Family(db) && p in d.files
      ensures InPlace(d, e, p) && p !in Displaced(d, plan)
    {
      FamilyMovesTogether(d, plan, db, p);
      hide HoldsData, Displaced, Family, Good, InPlace, Rerun;
      RerunMoves(d, cut, plan, db, moved, p);
      PlaceAfter(d, cut, e, plan, db, moved, p);
    }
  }

  lemma DataMoves(d: Deck, plan: Plan, db: Path, r: Path)
    requires Good(plan) && db in plan.dbs && r in Family(db) && HoldsData(d, plan, r)
    ensures Displaced(d, plan) != {} && forall p :: p in Family(db) && p in d.files ==> p in Displaced(d, plan)
  {
    hide Displaced, Family, Good;
    FamilyMovesTogether(d, plan, db, r);
    forall p | p in Family(db) && p in d.files
      ensures p in Displaced(d, plan)
    {
      FamilyMovesTogether(d, plan, db, p);
    }
  }

  /** Nothing of the family had moved: the rerun takes it as a whole. */
  lemma AllInSecond(d: Deck, cut: Deck, e: Deck, plan: Plan, db: Path, moved: set<Path>, r: Path)
    requires Good(plan) && db in plan.dbs && CutDeck(d, cut, plan, db, moved) && Rerun(cut, e, plan)
    requires r in Family(db) && HoldsData(d, plan, r) && moved !! Family(db) && |cut.archives| >= |d.archives|
    ensures AllArchived(d, e, db, |cut.archives|)
  {
    hide HoldsData, Displaced, Family, Good;
    assert r in d.files by {
      DataIsThere(d, plan, r);
    }
    forall p | p in Family(db) && p in d.files
      ensures p in cut.files && cut.files[p] == d.files[p] && p in Displaced(cut, plan)
    {
      RerunMoves(d, cut, plan, db, moved, p);
    }
  }

  lemma DataIsThere(d: Deck, plan: Plan, r: Path)
    requires HoldsData(d, plan, r)
    ensures r in d.files
  {
  }

  /** Some had moved and some had not: no archive holds both, and they are not all in place. */
  lemma Apart(d: Deck, cut: Deck, e: Deck, plan: Plan, db: Path, moved: set<Path>, p: Path, q: Path, r: Path)
    requires Good(plan) && db in plan.dbs && CutDeck(d, cut, plan, db, moved) && Rerun(cut, e, plan)
    requires p in Family(db) && q in Family(db) && p in d.files && q in d.files && p in moved && q !in moved
    requires p !in cut.files && cut.archives == d.archives + [Taken(d.files, moved)]
    requires r in Family(db) && HoldsData(d, plan, r)
    ensures !Together(d, e, db)
  {
    hide HoldsData, Displaced, Family, Good, InPlace;
    DataIsThere(d, plan, r);
    if r !in moved {
      assert r in cut.files;
      RerunMoves(d, cut, plan, db, moved, r);
    }
    PlaceAfter(d, cut, e, plan, db, moved, r);
    assert !AllInPlace(d, e, db);
    forall k: nat
      ensures !AllArchived(d, e, db, k)
    {
      if |d.archives| <= k < |e.archives| {
        if k == |d.archives| {
          assert e.archives[k] == Taken(d.files, moved);
          assert q !in e.archives[k];
        } else {
          assert e.archives[k] == Taken(cut.files, Displaced(cut, plan));
          assert p !in e.archives[k];
        }
      }
    }
  }

  /** The members left behind stay beside the new database exactly when none of them holds data. */
  lemma LeftStays(d: Deck, cut: Deck, e: Deck, plan: Plan, db: Path, moved: set<Path>)
    requires Good(plan) && db in plan.dbs && CutDeck(d, cut, plan, db, moved) && Rerun(cut, e, plan)
    ensures (forall q :: q in Family(db) && q in d.files && q !in moved ==> InPlace(d, e, q)) <==>
      (forall q :: q in Family(db) && q in d.files && q !in moved ==> !HoldsData(d, plan, q))
  {
    hide HoldsData, Displaced, Family, Good, InPlace, Rerun;
    forall q | q in Family(db) && q in d.files && q !in moved
      ensures q in cut.files
      ensures HoldsData(d, plan, q) ==> !InPlace(d, e, q)
      ensures !HoldsData(d, plan, q) && q !in Displaced(cut, plan) ==> InPlace(d, e, q)
      ensures q in Displaced(cut, plan) ==> exists r :: r in Family(db) && r in d.files && r !in moved && HoldsData(d, plan, r)
    {
      RerunMoves(d, cut, plan, db, moved, q);
      PlaceAfter(d, cut, e, plan, db, moved, q);
      if r :| r in Family(db) && r !in moved && HoldsData(d, plan, r) {
        DataIsThere(d, plan, r);
      }
    }
  }

  // ---------------------------------------------------------------- both runs

  /**
   A forced run cut off after `b` steps, and a completed forced run after it. The family stays together if and only if
   the cut did not fall between two of its members. If it did, the members left behind stay beside the new database if
   and only if none of them holds data of its own; otherwise they go to a second archive.
  */
  lemma FamilyAcrossCrash(d: Deck, plan: Plan, order: seq<Path>, b: nat, again: seq<Path>, stop: Option<nat>, db: Path)
    requires Good(plan) && Enumerates(order, Displaced(d, plan)) && db in plan.dbs
    requires var cut := Attempt(d, plan, true, order, Some(b)).deck;
      Enumerates(again, Displaced(cut, plan)) && Attempt(cut, plan, true, again, stop).outcome.Done?
    ensures var cut, k := Attempt(d, plan, true, order, Some(b)).deck, Min(Some(b), |order|);
      var e := Attempt(cut, plan, true, again, stop).deck;
      Together(d, e, db) <==> !CutBetween(order, k, db)
    ensures var cut, k := Attempt(d, plan, true, order, Some(b)).deck, Min(Some(b), |order|);
      var e := Attempt(cut, plan, true, again, stop).deck;
      CutBetween(order, k, db) ==>
        ((forall q :: q in Family(db) && q in d.files && q !in order[..k] ==> InPlace(d, e, q)) <==>
         forall q :: q in Family(db) && q in order[k..] ==> !HoldsData(d, plan, q))
  {
    var cut, k := Attempt(d, plan, true, order, Some(b)).deck, Min(Some(b), |order|);
    var e, moved := Attempt(cut, plan, true, again, stop).deck, ToSet(order[..k]);
    CutLeaves(d, plan, order, b, db);
    CompletedRun(cut, plan, again, stop);
    assert Rerun(cut, e, plan);
    OrderSplits(order, k);
    LeftStays(d, cut, e, plan, db, moved);
    OrderedAreThere(d, plan);
    hide Attempt, Displaced, Family, Good, HoldsData, InPlace, Rerun, CutDeck, Together, AllInPlace, AllArchived;
    if r :| r in Family(db) && HoldsData(d, plan, r) {
      DataMoves(d, plan, db, r);
      FamilyWithData(d, cut, e, plan, db, order, k, b, r);
    } else {
      NoDataStays(d, cut, e, plan, db, moved);
      assert Together(d, e, db) by {
        InPlaceIsTogether(d, e, db);
      }
    }
  }

  lemma InPlaceIsTogether(d: Deck, e: Deck, db: Path)
    requires AllInPlace(d, e, db)
    ensures Together(d, e, db)
  {
  }

  lemma OrderSplits(order: seq<Path>, k: nat)
    requires NoDuplicates(order) && k <= |order|
    ensures forall p :: p in ToSet(order) <==> p in order[..k] || p in order[k..]
    ensures forall p :: p in order[k..] ==> p !in order[..k]
  {
    assert order == order[..k] + order[k..];
  }

  lemma OrderedAreThere(d: Deck, plan: Plan)
    ensures forall p :: p in Displaced(d, plan) ==> p in d.files
  {
    hide IsState, Owned, Family, SameFile, Inert;
  }

  lemma FamilyWithData(d: Deck, cut: Deck, e: Deck, plan: Plan, db: Path, order: seq<Path>, k: nat, b: nat, r: Path)
    requires Good(plan) && Enumerates(order, Displaced(d, plan)) && db in plan.dbs && k == Min(Some(b), |order|)
    requires CutDeck(d, cut, plan, db, ToSet(order[..k])) && Rerun(cut, e, plan)
    requires b < |order| ==> forall p :: p in ToSet(order[..k]) ==> p !in cut.files
    requires cut.archives == d.archives + [Taken(d.files, ToSet(order[..k]))]
    requires r in Family(db) && HoldsData(d, plan, r)
    requires forall p :: p in Family(db) && p in d.files ==> p in Displaced(d, plan)
    ensures Together(d, e, db) <==> !CutBetween(order, k, db)
  {
    var moved := ToSet(order[..k]);
    OrderSplits(order, k);
    OrderedAreThere(d, plan);
    hide Displaced, Family, Good, HoldsData, InPlace, CutDeck;
    if CutBetween(order, k, db) {
      var p, q :| p in Family(db) && q in Family(db) && p in order[..k] && q in order[k..];
      Apart(d, cut, e, plan, db, moved, p, q, r);
    } else if p :| p in Family(db) && p in order[..k] {
      forall q | q in Family(db) && q in d.files
        ensures q in moved
      {
      }
      assert e.archives[|d.archives|] == Taken(d.files, moved);
      assert AllArchived(d, e, db, |d.archives|);
    } else {
      AllInSecond(d, cut, e, plan, db, moved, r);
    }
  }
}
