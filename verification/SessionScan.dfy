/** Scanning one session: the largest results, and what results cost while they stay in context. */
module SessionScan {
  import opened Prelude
  import opened StableSort

  const LARGE := 2000
  const KEPT := 12
  const CAPACITY := 24

  datatype Call = Call(id: string, name: string)
  datatype Event = Request(calls: seq<Call>) | Result(callId: string, toolName: string, toks: nat)
  datatype Pending = Pending(name: string, requestIndex: nat)
  datatype Entry = Entry(tool: string, toks: nat, requestIndex: nat)
  datatype Scan = Scan(requests: nat, pending: map<string, Pending>, log: seq<Entry>)

  function Issue(pending: map<string, Pending>, calls: seq<Call>, index: nat): map<string, Pending>
    decreases |calls|
  {
    if calls == [] then pending
    else Issue(pending[calls[0].id := Pending(calls[0].name, index)], calls[1..], index)
  }

  function Log(s: Scan, callId: string, toolName: string, toks: nat): Entry {
    if callId in s.pending then Entry(s.pending[callId].name, toks, s.pending[callId].requestIndex)
    else Entry(toolName, toks, s.requests)
  }

  function Next(s: Scan, e: Event): Scan {
    match e
    case Request(calls) => Scan(s.requests + 1, Issue(s.pending, calls, s.requests + 1), s.log)
    case Result(id, name, toks) => Scan(s.requests, s.pending - {id}, s.log + [Log(s, id, name, toks)])
  }

  function ScanUpTo(events: seq<Event>, n: nat): Scan
    requires n <= |events|
  {
    if n == 0 then Scan(0, map[], []) else Next(ScanUpTo(events, n - 1), events[n - 1])
  }

  // ---------------------------------------------------------------- which request a result belongs to

  predicate Issues(e: Event, id: string) {
    e.Request? && exists k :: 0 <= k < |e.calls| && e.calls[k].id == id
  }

  /** Request `m` was the last to issue the call before `n`, and no result has answered it since. */
  ghost predicate OpenSince(events: seq<Event>, m: nat, n: nat, id: string)
    requires m < n <= |events|
  {
    Issues(events[m], id) && forall j :: m < j < n ==> !Issues(events[j], id) && !(events[j].Result? && events[j].callId == id)
  }

  /** ...and it was request number `index`. */
  ghost predicate IssuedAt(events: seq<Event>, m: nat, n: nat, id: string, index: nat)
    requires n <= |events|
  {
    m < n && OpenSince(events, m, n, id) && ScanUpTo(events, m + 1).requests == index
  }

  lemma {:induction false} IssueIs(pending: map<string, Pending>, calls: seq<Call>, index: nat, id: string)
    ensures var r := Issue(pending, calls, index);
      if exists k :: 0 <= k < |calls| && calls[k].id == id then id in r && r[id].requestIndex == index
      else (id in r <==> id in pending) && (id in pending ==> r[id] == pending[id])
    decreases |calls|
  {
    if calls != [] {
      IssueIs(pending[calls[0].id := Pending(calls[0].name, index)], calls[1..], index, id);
      assert forall k :: 0 <= k < |calls[1..]| ==> calls[1..][k] == calls[k + 1];
      if k :| 0 <= k < |calls| && calls[k].id == id {
        assert k > 0 ==> calls[1..][k - 1].id == id;
      }
    }
  }

  /** A pending call is charged to the last request that issued it. */
  lemma {:induction false} PendingMeans(events: seq<Event>, n: nat, id: string)
    requires n <= |events| && id in ScanUpTo(events, n).pending
    ensures exists m: nat :: IssuedAt(events, m, n, id, ScanUpTo(events, n).pending[id].requestIndex)
  {
    if n > 0 {
      var before, e := ScanUpTo(events, n - 1), events[n - 1];
      if Issues(e, id) {
        IssueIs(before.pending, e.calls, before.requests + 1, id);
        assert IssuedAt(events, n - 1, n, id, before.requests + 1);
      } else {
        if e.Request? {
          IssueIs(before.pending, e.calls, before.requests + 1, id);
        }
        PendingMeans(events, n - 1, id);
        var index := before.pending[id].requestIndex;
        var m: nat :| IssuedAt(events, m, n - 1, id, index);
        assert IssuedAt(events, m, n, id, index);
      }
    }
  }

  /** The name under which a request issues a call; of several calls with one id, the last. */
  function NameOf(calls: seq<Call>, id: string): string
    requires exists k :: 0 <= k < |calls| && calls[k].id == id
  {
    if Last(calls).id == id then Last(calls).name
    else
      assert forall k :: 0 <= k < |calls| - 1 ==> calls[..|calls| - 1][k] == calls[k];
      NameOf(calls[..|calls| - 1], id)
  }

  lemma {:induction false} IssueSnoc(pending: map<string, Pending>, calls: seq<Call>, c: Call, index: nat)
    ensures Issue(pending, calls + [c], index) == Issue(pending, calls, index)[c.id := Pending(c.name, index)]
    decreases |calls|
  {
    if calls == [] {
      assert [] + [c] == [c] && [c][1..] == [];
    } else {
      IssueSnoc(pending[calls[0].id := Pending(calls[0].name, index)], calls[1..], c, index);
      assert (calls + [c])[1..] == calls[1..] + [c];
    }
  }

  lemma {:induction false} IssueNames(pending: map<string, Pending>, calls: seq<Call>, index: nat, id: string)
    requires exists k :: 0 <= k < |calls| && calls[k].id == id
    ensures id in Issue(pending, calls, index) && Issue(pending, calls, index)[id] == Pending(NameOf(calls, id), index)
    decreases |calls|
  {
    hide Issue;
    var front, c := calls[..|calls| - 1], Last(calls);
    assert calls == front + [c];
    IssueSnoc(pending, front, c, index);
    if c.id != id {
      assert forall k :: 0 <= k < |front| ==> front[k] == calls[k];
      IssueNames(pending, front, index, id);
    }
  }

  /** An open call is pending, under its name and with the number of the request that issued it. */
  lemma {:induction false} OpenIsPending(events: seq<Event>, m: nat, n: nat, id: string)
    requires m < n <= |events| && OpenSince(events, m, n, id)
    ensures id in ScanUpTo(events, n).pending
    ensures ScanUpTo(events, n).pending[id] == Pending(NameOf(events[m].calls, id), ScanUpTo(events, m + 1).requests)
  {
    var before, e := ScanUpTo(events, n - 1), events[n - 1];
    if m == n - 1 {
      IssueNames(before.pending, e.calls, before.requests + 1, id);
    } else {
      OpenIsPending(events, m, n - 1, id);
      if e.Request? {
        IssueIs(before.pending, e.calls, before.requests + 1, id);
      }
    }
  }

  /** A result is booked for the call it answers if that call is open, otherwise for the tool it names itself. */
  lemma BookedForItsCall(events: seq<Event>, n: nat)
    requires n < |events| && events[n].Result?
    ensures var e, log := events[n], ScanUpTo(events, n + 1).log;
      log != [] && log[..|log| - 1] == ScanUpTo(events, n).log &&
      (forall m: nat :: m < n && OpenSince(events, m, n, e.callId) ==>
         Last(log) == Entry(NameOf(events[m].calls, e.callId), e.toks, ScanUpTo(events, m + 1).requests)) &&
      ((forall m: nat :: m < n ==> !OpenSince(events, m, n, e.callId)) ==>
         Last(log) == Entry(e.toolName, e.toks, ScanUpTo(events, n).requests))
  {
    var e, before := events[n], ScanUpTo(events, n);
    forall m: nat | m < n && OpenSince(events, m, n, e.callId)
      ensures Last(ScanUpTo(events, n + 1).log) ==
        Entry(NameOf(events[m].calls, e.callId), e.toks, ScanUpTo(events, m + 1).requests)
    {
      OpenIsPending(events, m, n, e.callId);
    }
    if e.callId in before.pending {
      PendingMeans(events, n, e.callId);
      var m: nat :| IssuedAt(events, m, n, e.callId, before.pending[e.callId].requestIndex);
    }
  }

  predicate Bounded(s: Scan) {
    (forall id :: id in s.pending ==> s.pending[id].requestIndex <= s.requests) &&
    forall k :: 0 <= k < |s.log| ==> s.log[k].requestIndex <= s.requests
  }

  lemma {:induction false} ScanIsBounded(events: seq<Event>, n: nat)
    requires n <= |events|
    ensures Bounded(ScanUpTo(events, n))
  {
    if n > 0 {
      ScanIsBounded(events, n - 1);
      var before, e := ScanUpTo(events, n - 1), events[n - 1];
      if e.Request? {
        forall id | id in Next(before, e).pending
          ensures Next(before, e).pending[id].requestIndex <= before.requests + 1
        {
          IssueIs(before.pending, e.calls, before.requests + 1, id);
        }
      }
    }
  }

  // ---------------------------------------------------------------- residency

  /** Tokens of one tool, each weighted by the requests that came after. */
  function Residency(log: seq<Entry>, requests: nat, tool: string): int {
    if log == [] then 0
    else
      var r := Last(log);
      Residency(log[..|log| - 1], requests, tool) +
      if r.tool == tool && r.requestIndex < requests then r.toks * (requests - r.requestIndex) else 0
  }

  /** The tokens of a tool that are in context when request `k` is made. */
  function InContext(log: seq<Entry>, k: nat, tool: string): int {
    if log == [] then 0
    else
      var r := Last(log);
      InContext(log[..|log| - 1], k, tool) + if r.tool == tool && r.requestIndex < k then r.toks else 0
  }

  function PaidBy(log: seq<Entry>, requests: nat, tool: string): int {
    if requests == 0 then 0 else PaidBy(log, requests - 1, tool) + InContext(log, requests, tool)
  }

  lemma {:induction false} ResidencyGrows(log: seq<Entry>, requests: nat, tool: string)
    ensures Residency(log, requests + 1, tool) == Residency(log, requests, tool) + InContext(log, requests + 1, tool)
  {
    if log != [] {
      var r := Last(log);
      ResidencyGrows(log[..|log| - 1], requests, tool);
      if r.requestIndex < requests {
        assert r.toks * (requests + 1 - r.requestIndex) == r.toks * (requests - r.requestIndex) + r.toks;
      }
    }
  }

  lemma {:induction false} NoResidency(log: seq<Entry>, tool: string)
    ensures Residency(log, 0, tool) == 0
  {
    if log != [] {
      NoResidency(log[..|log| - 1], tool);
    }
  }

  /** Residency is what every request pays for the results of calls issued by earlier requests. */
  lemma {:induction false} ResidencyIsPaid(log: seq<Entry>, requests: nat, tool: string)
    ensures Residency(log, requests, tool) == PaidBy(log, requests, tool)
  {
    if requests == 0 {
      NoResidency(log, tool);
    } else {
      ResidencyIsPaid(log, requests - 1, tool);
      ResidencyGrows(log, requests - 1, tool);
    }
  }

  // ---------------------------------------------------------------- the scan

  predicate LargerFirst(a: Entry, b: Entry) {
    a.toks >= b.toks
  }

  function Large(log: seq<Entry>): seq<Entry> {
    if log == [] then []
    else Large(log[..|log| - 1]) + if Last(log).toks > LARGE then [Last(log)] else []
  }

  lemma LargerFirstIsPreorder()
    ensures Preorder(LargerFirst)
  {
  }

  /** The buffer stands for the largest results of everything pushed so far, whatever comes next. */
  ghost predicate StandsFor(buffer: seq<Entry>, pushed: seq<Entry>) {
    forall rest :: Take(Sort(buffer + rest, LargerFirst), KEPT) == Take(Sort(pushed + rest, LargerFirst), KEPT)
  }

  lemma PushKeeps(buffer: seq<Entry>, pushed: seq<Entry>, e: Entry)
    requires StandsFor(buffer, pushed)
    ensures StandsFor(buffer + [e], pushed + [e])
  {
    hide Sort, Take;
    forall rest: seq<Entry>
      ensures Take(Sort(buffer + [e] + rest, LargerFirst), KEPT) == Take(Sort(pushed + [e] + rest, LargerFirst), KEPT)
    {
      ConcatAssociative(buffer, [e], rest);
      ConcatAssociative(pushed, [e], rest);
    }
  }

  lemma PruneKeeps(buffer: seq<Entry>, pushed: seq<Entry>)
    requires StandsFor(buffer, pushed)
    ensures StandsFor(Take(Sort(buffer, LargerFirst), KEPT), pushed)
  {
    LargerFirstIsPreorder();
    hide Sort, Take, Preorder;
    forall rest: seq<Entry>
      ensures Take(Sort(Take(Sort(buffer, LargerFirst), KEPT) + rest, LargerFirst), KEPT) == Take(Sort(pushed + rest, LargerFirst), KEPT)
    {
      PruneKeepsBest(buffer, rest, LargerFirst, KEPT);
    }
  }

  method SortBySize(s: seq<Entry>) returns (r: seq<Entry>)
    ensures r == Sort(s, LargerFirst)
  {
    r := [];
    for k := 0 to |s|
      invariant r == Sort(s[|s| - k..], LargerFirst)
    {
      var i := |s| - 1 - k;
      assert s[i..][0] == s[i] && s[i..][1..] == s[i + 1..];
      r := Insert(s[i], r, LargerFirst);
    }
    assert s[0..] == s;
  }

  method Push(buffer: seq<Entry>, e: Entry, ghost pushed: seq<Entry>) returns (next: seq<Entry>)
    requires StandsFor(buffer, pushed) && |buffer| <= CAPACITY
    ensures StandsFor(next, pushed + [e]) && |next| <= CAPACITY
  {
    PushKeeps(buffer, pushed, e);
    next := buffer + [e];
    if |next| > CAPACITY {
      PruneKeeps(next, pushed + [e]);
      var sorted := SortBySize(next);
      next := Take(sorted, KEPT);
    }
  }

  /** Every tool is charged what later requests paid for its results. */
  ghost predicate Accounts(residency: map<string, int>, log: seq<Entry>, requests: nat) {
    forall tool :: (if tool in residency then residency[tool] else 0) == PaidBy(log, requests, tool)
  }

  method Account(log: seq<Entry>, requests: nat) returns (residency: map<string, int>)
    ensures Accounts(residency, log, requests)
  {
    residency := AddUp(log, requests);
    forall tool
      ensures (if tool in residency then residency[tool] else 0) == PaidBy(log, requests, tool)
    {
      ResidencyIsPaid(log, requests, tool);
    }
  }

  method PushLarge(buffer: seq<Entry>, e: Entry, ghost log: seq<Entry>) returns (next: seq<Entry>)
    requires StandsFor(buffer, Large(log)) && |buffer| <= CAPACITY
    ensures StandsFor(next, Large(log + [e])) && |next| <= CAPACITY
  {
    hide StandsFor, Large;
    LargeSnoc(log, e);
    if e.toks > LARGE {
      next := Push(buffer, e, Large(log));
    } else {
      next := buffer;
    }
  }

  /** The twelve largest results of the session, and per tool the tokens that later requests paid again. */
  method ScanFile(events: seq<Event>) returns (residency: map<string, int>, top: seq<Entry>)
    ensures var s := ScanUpTo(events, |events|);
      top == Take(Sort(Large(s.log), LargerFirst), KEPT) && Accounts(residency, s.log, s.requests)
  {
    var requests: nat, pending: map<string, Pending>, log: seq<Entry>, buffer: seq<Entry> := 0, map[], [], [];
    assert StandsFor([], []) && Large([]) == [];
    hide StandsFor, Sort, Take, Issue, Large, Accounts, Log;
    for i := 0 to |events|
      invariant Scan(requests, pending, log) == ScanUpTo(events, i)
      invariant StandsFor(buffer, Large(log)) && |buffer| <= CAPACITY
    {
      match events[i] {
        case Request(calls) =>
          requests := requests + 1;
          pending := Issue(pending, calls, requests);
        case Result(id, name, toks) =>
          var entry := Log(Scan(requests, pending, log), id, name, toks);
          buffer := PushLarge(buffer, entry, log);
          log := log + [entry];
          pending := pending - {id};
      }
    }
    residency := Account(log, requests);
    Final(buffer, Large(log));
    var sorted := SortBySize(buffer);
    top := Take(sorted, KEPT);
  }

  lemma LargeSnoc(log: seq<Entry>, e: Entry)
    ensures Large(log + [e]) == if e.toks > LARGE then Large(log) + [e] else Large(log)
  {
    assert (log + [e])[..|log|] == log;
  }

  lemma Final(buffer: seq<Entry>, pushed: seq<Entry>)
    requires StandsFor(buffer, pushed)
    ensures Take(Sort(buffer, LargerFirst), KEPT) == Take(Sort(pushed, LargerFirst), KEPT)
  {
    hide Sort, Take;
    assert buffer + [] == buffer && pushed + [] == pushed;
  }

  method AddUp(log: seq<Entry>, requests: nat) returns (residency: map<string, int>)
    ensures forall tool :: (if tool in residency then residency[tool] else 0) == Residency(log, requests, tool)
  {
    residency := map[];
    for i := 0 to |log|
      invariant forall tool :: (if tool in residency then residency[tool] else 0) == Residency(log[..i], requests, tool)
    {
      var r := log[i];
      var later := if requests > r.requestIndex then requests - r.requestIndex else 0;
      assert log[..i + 1][..i] == log[..i];
      residency := residency[r.tool := (if r.tool in residency then residency[r.tool] else 0) + r.toks * later];
    }
    assert log[..|log|] == log;
  }
}
