/**
 The two in-process locks of the publisher (`createSemaphore` and
 `createKeyedMutex` in scripts/ci-release-publish.ts). A caller is identified
 by a ticket; an `await` that may suspend is split into the entry that files
 the request and the later hand-over that lets the caller go on.
*/
module PublishLocks {
  import opened Prelude

  type Ticket = string

  // ---------------------------------------------------------------- semaphore

  /** The semaphore's two variables, and the history of requests and grants. */
  datatype Slots = Slots(active: nat, waiting: seq<Ticket>, asked: seq<Ticket>, granted: seq<Ticket>)

  const NO_SLOTS := Slots(0, [], [], [])

  function Request(s: Slots, limit: nat, t: Ticket): Slots {
    if s.active >= limit then
      s.(waiting := s.waiting + [t], asked := s.asked + [t])
    else
      s.(active := s.active + 1, asked := s.asked + [t], granted := s.granted + [t])
  }

  /** Leaving a section hands the slot to the oldest waiter, or frees it. */
  function Yield(s: Slots): Slots
    requires s.active > 0
  {
    if s.waiting != [] then
      s.(waiting := s.waiting[1..], granted := s.granted + [s.waiting[0]])
    else
      s.(active := s.active - 1)
  }

  /** At most `limit` sections hold a slot, nobody waits while a slot is free, and grants are FIFO. */
  ghost predicate SlotsOk(s: Slots, limit: nat) {
    && s.active <= limit
    && (s.waiting != [] ==> s.active == limit)
    && s.asked == s.granted + s.waiting
  }

  lemma RequestKeepsOk(s: Slots, limit: nat, t: Ticket)
    requires SlotsOk(s, limit)
    ensures SlotsOk(Request(s, limit, t), limit)
  {
    if s.active >= limit {
      assert s.granted + (s.waiting + [t]) == s.granted + s.waiting + [t];
    } else {
      assert s.waiting == [];
      assert s.granted + [t] + [] == s.asked + [t];
    }
  }

  lemma YieldKeepsOk(s: Slots, limit: nat)
    requires SlotsOk(s, limit) && s.active > 0
    ensures SlotsOk(Yield(s), limit)
    ensures s.waiting != [] ==> Last(Yield(s).granted) == s.waiting[0]
  {
    if s.waiting != [] {
      assert s.granted + [s.waiting[0]] + s.waiting[1..] == s.granted + s.waiting;
    }
  }

  class Semaphore {
    const limit: nat
    var active: nat
    var waiting: seq<Ticket>
    ghost var asked: seq<Ticket>
    ghost var granted: seq<Ticket>

    ghost function View(): Slots
      reads this
    {
      Slots(active, waiting, asked, granted)
    }

    ghost predicate Valid()
      reads this
    {
      limit >= 1 && SlotsOk(View(), limit)
    }

    constructor (concurrency: int)
      ensures Valid() && View() == NO_SLOTS
      ensures limit == if concurrency > 1 then concurrency else 1
    {
      limit := if concurrency > 1 then concurrency else 1;
      active := 0;
      waiting, asked, granted := [], [], [];
    }

    /** Entry of a section: runs at once, or queues behind every earlier waiter. */
    method Enter(t: Ticket) returns (suspended: bool)
      requires Valid()
      modifies this
      ensures Valid() && View() == Request(old(View()), limit, t)
      ensures suspended <==> old(active) == limit
      ensures !suspended ==> granted == old(granted) + [t] && old(waiting) == []
      ensures suspended ==> Last(waiting) == t && active == limit
    {
      RequestKeepsOk(View(), limit, t);
      if active >= limit {
        waiting := waiting + [t];
        suspended := true;
      } else {
        active := active + 1;
        granted := granted + [t];
        suspended := false;
      }
      asked := asked + [t];
    }

    /** The `finally` block: wakes the oldest waiter without freeing the slot in between. */
    method Exit() returns (woken: Option<Ticket>)
      requires Valid() && active > 0
      modifies this
      ensures Valid() && View() == Yield(old(View()))
      ensures woken == if old(waiting) == [] then None else Some(old(waiting)[0])
      ensures woken.Some? ==> active == old(active) && granted == old(granted) + [woken.value]
    {
      YieldKeepsOk(View(), limit);
      if waiting != [] {
        woken := Some(waiting[0]);
        waiting := waiting[1..];
        granted := granted + [woken.value];
      } else {
        woken := None;
        active := active - 1;
      }
    }
  }

  // -------------------------------------------------------------- keyed mutex

  /**
   One promise per caller: `tails[key]` is the promise the next caller of the
   key awaits, `previous[t]` the promise caller `t` awaits, and `released` the
   promises that resolved. `arrivals` is the history of keyed callers, `keyOf`
   the key each of them brought.
  */
  datatype Keys = Keys(
    tails: map<string, Ticket>,
    previous: map<Ticket, Option<Ticket>>,
    released: set<Ticket>,
    arrivals: seq<Ticket>,
    keyOf: map<Ticket, string>)

  const NO_KEYS := Keys(map[], map[], {}, [], map[])

  function TailOf(tails: map<string, Ticket>, key: string): Option<Ticket> {
    if key in tails then Some(tails[key]) else None
  }

  function Join(k: Keys, key: string, t: Ticket): Keys {
    Keys(k.tails[key := t], k.previous[t := TailOf(k.tails, key)], k.released, k.arrivals + [t], k.keyOf[t := key])
  }

  function Resolve(k: Keys, t: Ticket): Keys {
    k.(released := k.released + {t})
  }

  /** The awaited promise has resolved, so the section may run. */
  predicate Runnable(k: Keys, t: Ticket) {
    t in k.previous && (k.previous[t].Some? ==> k.previous[t].value in k.released)
  }

  predicate Keyed(k: Keys) {
    k.keyOf.Keys == ToSet(k.arrivals)
  }

  /** The nearest caller of `key` among the first `n` arrivals. */
  function Nearest(k: Keys, n: nat, key: string): Option<Ticket>
    requires Keyed(k) && n <= |k.arrivals|
  {
    if n == 0 then None
    else if k.keyOf[k.arrivals[n - 1]] == key then Some(k.arrivals[n - 1])
    else Nearest(k, n - 1, key)
  }

  lemma {:induction false} NearestIndex(k: Keys, n: nat, key: string) returns (i: int)
    requires Keyed(k) && n <= |k.arrivals|
    ensures -1 <= i < n
    ensures i >= 0 ==> k.keyOf[k.arrivals[i]] == key && Nearest(k, n, key) == Some(k.arrivals[i])
    ensures i == -1 ==> Nearest(k, n, key).None?
    ensures forall m :: i < m < n ==> k.keyOf[k.arrivals[m]] != key
  {
    if n == 0 {
      i := -1;
    } else if k.keyOf[k.arrivals[n - 1]] == key {
      i := n - 1;
    } else {
      i := NearestIndex(k, n - 1, key);
    }
  }

  lemma {:induction false} NearestOfPrefix(k: Keys, k': Keys, n: nat, key: string)
    requires Keyed(k) && Keyed(k') && n <= |k.arrivals| <= |k'.arrivals|
    requires forall m :: 0 <= m < n ==> k'.arrivals[m] == k.arrivals[m]
    requires forall t :: t in k.keyOf ==> t in k'.keyOf && k'.keyOf[t] == k.keyOf[t]
    ensures Nearest(k', n, key) == Nearest(k, n, key)
  {
    if n > 0 {
      assert k.arrivals[n - 1] in k.keyOf;
      NearestOfPrefix(k, k', n - 1, key);
    }
  }

  ghost predicate AwaitsNearest(k: Keys, j: nat)
    requires Keyed(k) && k.previous.Keys == k.keyOf.Keys && j < |k.arrivals|
  {
    k.previous[k.arrivals[j]] == Nearest(k, j, k.keyOf[k.arrivals[j]])
  }

  /** The chain structure: each caller awaits its nearest predecessor of the same key. */
  ghost predicate Chained(k: Keys) {
    && Keyed(k)
    && k.previous.Keys == k.keyOf.Keys
    && NoDuplicates(k.arrivals)
    && (forall j: nat :: j < |k.arrivals| ==> AwaitsNearest(k, j))
    && (forall key :: TailOf(k.tails, key) == Nearest(k, |k.arrivals|, key))
  }

  /** If the later of two callers of one key ran or runs, the earlier one has released. */
  ghost predicate ServedPair(k: Keys, running: set<Ticket>, i: nat, j: nat)
    requires Keyed(k) && i < j < |k.arrivals|
  {
    k.keyOf[k.arrivals[i]] == k.keyOf[k.arrivals[j]] && (k.arrivals[j] in running || k.arrivals[j] in k.released) ==>
      k.arrivals[i] in k.released
  }

  ghost predicate ServedInOrder(k: Keys, running: set<Ticket>)
    requires Keyed(k)
  {
    forall i: nat, j: nat :: i < j < |k.arrivals| ==> ServedPair(k, running, i, j)
  }

  ghost predicate KeysOk(k: Keys, running: set<Ticket>) {
    Chained(k) && ServedInOrder(k, running) && running !! k.released && running + k.released <= k.previous.Keys
  }

  lemma JoinExtends(k: Keys, key: string, t: Ticket, n: nat, x: string)
    requires Chained(k) && t !in k.previous && n <= |k.arrivals|
    ensures Keyed(Join(k, key, t))
    ensures Nearest(Join(k, key, t), n, x) == Nearest(k, n, x)
  {
    var k' := Join(k, key, t);
    assert k'.arrivals[|k.arrivals|] == t;
    assert forall j :: 0 <= j < |k.arrivals| ==> k'.arrivals[j] == k.arrivals[j];
    assert ToSet(k'.arrivals) == ToSet(k.arrivals) + {t};
    NearestOfPrefix(k, k', n, x);
  }

  lemma JoinPrevious(k: Keys, key: string, t: Ticket, j: nat)
    requires Chained(k) && t !in k.previous && j <= |k.arrivals|
    ensures var k' := Join(k, key, t); Keyed(k') && k'.previous.Keys == k'.keyOf.Keys && AwaitsNearest(k', j)
  {
    var k' := Join(k, key, t);
    JoinExtends(k, key, t, j, k'.keyOf[k'.arrivals[j]]);
    if j == |k.arrivals| {
      assert TailOf(k.tails, key) == Nearest(k, j, key);
    } else {
      assert AwaitsNearest(k, j) && k.arrivals[j] in k.keyOf;
    }
  }

  lemma JoinTail(k: Keys, key: string, t: Ticket, x: string)
    requires Chained(k) && t !in k.previous
    ensures Keyed(Join(k, key, t))
    ensures TailOf(Join(k, key, t).tails, x) == Nearest(Join(k, key, t), |k.arrivals| + 1, x)
  {
    JoinExtends(k, key, t, |k.arrivals|, x);
    assert TailOf(k.tails, x) == Nearest(k, |k.arrivals|, x);
  }

  lemma JoinChains(k: Keys, key: string, t: Ticket)
    requires Chained(k) && t !in k.previous
    ensures Chained(Join(k, key, t))
  {
    var k' := Join(k, key, t);
    AppendNoDuplicates(k.arrivals, t);
    JoinExtends(k, key, t, 0, key);
    forall j: nat | j < |k'.arrivals|
      ensures AwaitsNearest(k', j)
    {
      JoinPrevious(k, key, t, j);
    }
    forall x
      ensures TailOf(k'.tails, x) == Nearest(k', |k'.arrivals|, x)
    {
      JoinTail(k, key, t, x);
    }
  }

  lemma JoinKeepsOk(k: Keys, running: set<Ticket>, key: string, t: Ticket)
    requires KeysOk(k, running) && t !in k.previous
    ensures KeysOk(Join(k, key, t), running)
  {
    JoinChains(k, key, t);
    var k' := Join(k, key, t);
    forall i: nat, j: nat | i < j < |k'.arrivals|
      ensures ServedPair(k', running, i, j)
    {
      if j < |k.arrivals| {
        assert ServedPair(k, running, i, j);
        assert k.arrivals[i] in k.keyOf && k.arrivals[j] in k.keyOf;
      }
    }
  }

  lemma EarlierReleased(k: Keys, running: set<Ticket>, i: nat, j: nat)
    requires KeysOk(k, running) && i < j < |k.arrivals| && Runnable(k, k.arrivals[j])
    requires k.keyOf[k.arrivals[i]] == k.keyOf[k.arrivals[j]]
    ensures k.arrivals[i] in k.released
  {
    var p := NearestIndex(k, j, k.keyOf[k.arrivals[j]]);
    assert AwaitsNearest(k, j);
    if i < p {
      assert ServedPair(k, running, i, p);
    }
  }

  /** A caller whose awaited promise resolved starts only after every earlier caller of its key. */
  lemma StartKeepsOk(k: Keys, running: set<Ticket>, t: Ticket)
    requires KeysOk(k, running) && Runnable(k, t) && t !in k.released
    ensures KeysOk(k, running + {t})
  {
    forall i: nat, j: nat | i < j < |k.arrivals|
      ensures ServedPair(k, running + {t}, i, j)
    {
      assert ServedPair(k, running, i, j);
      if k.arrivals[j] == t && k.keyOf[k.arrivals[i]] == k.keyOf[t] {
        EarlierReleased(k, running, i, j);
      }
    }
  }

  lemma ChainedIgnoresReleases(k: Keys, released: set<Ticket>, n: nat, key: string)
    requires Keyed(k) && n <= |k.arrivals|
    ensures Nearest(k.(released := released), n, key) == Nearest(k, n, key)
  {
    NearestOfPrefix(k, k.(released := released), n, key);
  }

  lemma ResolveKeepsOk(k: Keys, running: set<Ticket>, t: Ticket)
    requires KeysOk(k, running) && t in running
    ensures KeysOk(Resolve(k, t), running - {t})
  {
    var k' := Resolve(k, t);
    forall n: nat, key | n <= |k.arrivals|
      ensures Nearest(k', n, key) == Nearest(k, n, key)
    {
      ChainedIgnoresReleases(k, k'.released, n, key);
    }
    forall j: nat | j < |k.arrivals|
      ensures AwaitsNearest(k', j)
    {
      assert AwaitsNearest(k, j);
    }
    assert Chained(k');
    forall i: nat, j: nat | i < j < |k.arrivals|
      ensures ServedPair(k', running - {t}, i, j)
    {
      assert ServedPair(k, running, i, j);
    }
  }

  /** Two callers that hold the lock at the same time never share a key. */
  lemma MutualExclusion(k: Keys, running: set<Ticket>, t: Ticket, u: Ticket)
    requires KeysOk(k, running)
    requires t in running && u in running && t != u
    ensures k.keyOf[t] != k.keyOf[u]
  {
    var i :| 0 <= i < |k.arrivals| && k.arrivals[i] == t;
    var j :| 0 <= j < |k.arrivals| && k.arrivals[j] == u;
    assert ServedPair(k, running, if i < j then i else j, if i < j then j else i);
  }

  /** If a caller is still waiting, some unreleased caller can run. */
  lemma {:induction false} OldestUnreleasedIsRunnable(k: Keys, running: set<Ticket>, t: Ticket) returns (oldest: Ticket)
    requires KeysOk(k, running) && t in k.previous && t !in k.released
    ensures oldest in k.previous && oldest !in k.released && Runnable(k, oldest)
  {
    var j :| 0 <= j < |k.arrivals| && k.arrivals[j] == t;
    oldest := OldestUpTo(k, running, j);
  }

  lemma {:induction false} OldestUpTo(k: Keys, running: set<Ticket>, j: nat) returns (oldest: Ticket)
    requires KeysOk(k, running) && j < |k.arrivals| && k.arrivals[j] !in k.released
    ensures oldest in k.previous && oldest !in k.released && Runnable(k, oldest)
    decreases j
  {
    assert k.arrivals[j] in k.previous;
    if Runnable(k, k.arrivals[j]) {
      return k.arrivals[j];
    }
    assert AwaitsNearest(k, j);
    var i := NearestIndex(k, j, k.keyOf[k.arrivals[j]]);
    oldest := OldestUpTo(k, running, i);
  }

  class KeyedMutex {
    var tails: map<string, Ticket>
    var previous: map<Ticket, Option<Ticket>>
    var released: set<Ticket>
    ghost var arrivals: seq<Ticket>
    ghost var keyOf: map<Ticket, string>
    /** Callers between their `await previous` and their `release()`. */
    ghost var running: set<Ticket>

    ghost function View(): Keys
      reads this
    {
      Keys(tails, previous, released, arrivals, keyOf)
    }

    ghost predicate Valid()
      reads this
    {
      KeysOk(View(), running)
    }

    constructor ()
      ensures Valid() && View() == NO_KEYS && running == {}
    {
      tails, previous, released, arrivals, keyOf, running := map[], map[], {}, [], map[], {};
    }

    /** Everything up to `await previous`; each caller brings a fresh promise. */
    method Enqueue(key: string, t: Ticket)
      requires Valid() && t !in previous
      modifies this
      ensures Valid() && View() == Join(old(View()), key, t) && running == old(running)
    {
      JoinKeepsOk(View(), running, key, t);
      hide KeysOk;
      var awaited := if key in tails then Some(tails[key]) else None;
      tails := tails[key := t];
      previous := previous[t := awaited];
      arrivals, keyOf := arrivals + [t], keyOf[t := key];
    }

    /** The await returns only when the predecessor's promise has resolved. */
    method Resume(t: Ticket) returns (started: bool)
      requires Valid() && t in previous && t !in released
      modifies this
      ensures Valid() && View() == old(View())
      ensures started <==> Runnable(View(), t)
      ensures running == if started then old(running) + {t} else old(running)
    {
      started := previous[t].None? || previous[t].value in released;
      if started {
        StartKeepsOk(View(), running, t);
        running := running + {t};
      }
    }

    /** The `finally` block, whether the section returned or threw. */
    method Release(t: Ticket)
      requires Valid() && t in running
      modifies this
      ensures Valid() && View() == Resolve(old(View()), t) && running == old(running) - {t}
    {
      ResolveKeepsOk(View(), running, t);
      released := released + {t};
      running := running - {t};
    }
  }
}
