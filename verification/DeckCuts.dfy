/** A run can be cut off anywhere: what it has done by then is the beginning of what it would have done. */
module DeckCuts {
  import opened Prelude
  import opened DeckHome
  import opened DeckMigration
  import opened DeckTheorems

  /** The deck with staged copies linked at `ps`. */
  function Linked(d: Deck, stage: map<Path, string>, ps: seq<Path>): Deck
    requires ToSet(ps) <= stage.Keys
    decreases |ps|
  {
    if ps == [] then d
    else
      assert ps[0] in ToSet(ps) && forall q :: q in ps[1..] ==> q in ToSet(ps);
      Linked(Install(d, ps[0], stage[ps[0]]), stage, ps[1..])
  }

  lemma MissingStep(files: map<Path, Entry>, stage: map<Path, string>, ts: seq<Path>)
    requires ts != []
    ensures Missing(files, stage, ts) ==
      (if SameFile(files, ts[0], stage) then [] else [ts[0]]) + Missing(files, stage, ts[1..])
  {
  }

  lemma {:induction false} MissingIsTransfer(files: map<Path, Entry>, stage: map<Path, string>, ts: seq<Path>)
    ensures forall q :: q in Missing(files, stage, ts) ==> q in ts
  {
    hide SameFile;
    if ts != [] {
      MissingIsTransfer(files, stage, ts[1..]);
    }
  }

  /** What is missing elsewhere is missing still. */
  lemma {:induction false} StillMissing(d: Deck, p: Path, bytes: string, stage: map<Path, string>, ts: seq<Path>)
    requires p !in ts
    ensures Missing(Install(d, p, bytes).files, stage, ts) == Missing(d.files, stage, ts)
  {
    if ts != [] {
      StillMissing(d, p, bytes, stage, ts[1..]);
    }
  }

  lemma LinkedStep(d: Deck, stage: map<Path, string>, p: Path, ps: seq<Path>)
    requires ToSet([p] + ps) <= stage.Keys
    ensures p in stage && ToSet(ps) <= stage.Keys
    ensures Linked(d, stage, [p] + ps) == Linked(Install(d, p, stage[p]), stage, ps)
  {
    assert p in ToSet([p] + ps) && forall q :: q in ps ==> q in ToSet([p] + ps);
    assert ([p] + ps)[1..] == ps;
  }

  /** The first `k` missing files, or all of them. */
  function FirstMissing(files: map<Path, Entry>, stage: map<Path, string>, ts: seq<Path>, k: nat): (r: seq<Path>)
    requires ToSet(ts) <= stage.Keys
    ensures ToSet(r) <= stage.Keys
  {
    MissingIsTransfer(files, stage, ts);
    assert forall q :: q in Missing(files, stage, ts) ==> q in ToSet(ts);
    var missing := Missing(files, stage, ts);
    if k < |missing| then missing[..k] else missing
  }

  /**
   With `k` moves left the install loop links the first `k` missing files, if nothing is in the way, and is cut off before
   the next one; if no more than `k` are missing, it ends with the others to spare.
  */
  lemma {:induction false} CutAfter(d: Deck, stage: map<Path, string>, ts: seq<Path>, k: nat)
    requires ToSet(ts) <= stage.Keys && NoDuplicates(ts)
    requires Fill(d, stage, ts, None).Going?
    ensures var n := |Missing(d.files, stage, ts)|;
      var reached := Linked(d, stage, FirstMissing(d.files, stage, ts, k));
      if k < n then Fill(d, stage, ts, Some(k)) == Stopped(reached, Crashed)
      else Fill(d, stage, ts, Some(k)) == Going(reached, Some(k - n)) && Fill(d, stage, ts, None) == Going(reached, None)
    decreases |ts|
  {
    if ts != [] {
      hide SameFile, Obstructed, Install, Fill, Missing, Linked;
      var p, rest := ts[0], ts[1..];
      var missing := Missing(d.files, stage, ts);
      assert p in ToSet(ts) && forall q :: q in rest ==> q in ToSet(ts);
      MissingStep(d.files, stage, ts);
      assert ts[0..] == ts;
      FillStep(d, stage, ts, 0, Some(k));
      FillStep(d, stage, ts, 0, None);
      if SameFile(d.files, p, stage) {
        CutAfter(d, stage, rest, k);
        assert missing == Missing(d.files, stage, rest);
      } else if k > 0 {
        var next := Install(d, p, stage[p]);
        StillMissing(d, p, stage[p], stage, rest);
        CutAfter(next, stage, rest, k - 1);
        var later := FirstMissing(d.files, stage, rest, k - 1);
        assert FirstMissing(d.files, stage, ts, k) == [p] + later;
        LinkedStep(d, stage, p, later);
      } else {
        assert FirstMissing(d.files, stage, ts, k) == [];
        NothingLinked(d, stage);
      }
    }
  }

  lemma NothingLinked(d: Deck, stage: map<Path, string>)
    ensures Linked(d, stage, []) == d
  {
  }

  /** The part of a run behind the moves, cut off after `k` more. */
  lemma CutPublish(d: Deck, plan: Plan, out: set<Path>, start: Deck, k: nat)
    requires ToSet(Transfer(plan)) <= plan.stage.Keys && NoDuplicates(Transfer(plan))
    requires Publish(d, plan, out, start, None).outcome.Done?
    ensures var n := |Missing(start.files, plan.stage, Transfer(plan))|;
      var r := Publish(d, plan, out, start, Some(k));
      if k <= n then
        r == Result(Linked(start, plan.stage, FirstMissing(start.files, plan.stage, Transfer(plan), k)), Crashed)
      else r == Publish(d, plan, out, start, None)
  {
    hide Fill, Missing, Linked, Transfer, FirstMissing, Grew, NoDuplicates;
    FillGrows(start, plan.stage, Transfer(plan), None);
    CutAfter(start, plan.stage, Transfer(plan), k);
  }

  /**
   A forced run that would complete, cut off after `k` moves: up to the last file to move aside it has archived the first
   `k` of them; after that it has archived all and linked the first missing ones; and the marker is not written yet.
  */
  lemma CutAttempt(d: Deck, plan: Plan, order: seq<Path>, k: nat)
    requires Good(plan) && Enumerates(order, Displaced(d, plan))
    requires Attempt(d, plan, true, order, None).outcome.Done?
    ensures ToSet(Transfer(plan)) <= plan.stage.Keys
    ensures var start := if order == [] then d else MoveAside(d, ToSet(order));
      var n := |Missing(start.files, plan.stage, Transfer(plan))|;
      var r := Attempt(d, plan, true, order, Some(k));
      if k < |order| then r == Result(MoveAside(d, ToSet(order[..k])), Crashed)
      else if k <= |order| + n then
        r == Result(Linked(start, plan.stage, FirstMissing(start.files, plan.stage, Transfer(plan), k - |order|)), Crashed)
      else r == Attempt(d, plan, true, order, None)
  {
    EverythingStaged(plan);
    assert NoDuplicates(Transfer(plan));
    assert order == [] <==> Displaced(d, plan) == {} by {
      assert order != [] ==> order[0] in ToSet(order);
    }
    hide Displaced, Differing, Missing, Linked, Good, Transfer, FirstMissing, MoveAside, Publish, Enumerates, NoDuplicates, Attempt;
    AttemptParts(d, plan, order, None);
    AttemptParts(d, plan, order, Some(k));
    if k >= |order| {
      CutPublish(d, plan, Displaced(d, plan), if order == [] then d else MoveAside(d, ToSet(order)), k - |order|);
    }
  }

  /** A forced run, once the files to move aside have been moved. */
  lemma AttemptParts(d: Deck, plan: Plan, order: seq<Path>, b: Option<nat>)
    requires ToSet(Transfer(plan)) <= plan.stage.Keys && (order == [] <==> Displaced(d, plan) == {})
    ensures var r := Attempt(d, plan, true, order, b);
      if b.Some? && b.value < |order| then r == Result(MoveAside(d, ToSet(order[..b.value])), Crashed)
      else
        var start := if order == [] then d else MoveAside(d, ToSet(order));
        r == Publish(d, plan, Displaced(d, plan), start, if b.None? then None else Some(b.value - |order|))
  {
    hide Displaced, Differing, Transfer, MoveAside, Publish;
    assert order[..|order|] == order;
  }
}
