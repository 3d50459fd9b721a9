/** The merge itself: buckets filled span by span, and the body printed from them. */
module ReleaseMerge {
  import opened Prelude
  import opened StableSort
  import opened ChangelogText
  import opened ReleaseNotes

  // ---------------------------------------------------------------- which versions, in which order

  /** `cmp` compares version strings; without a floor only the target itself is taken. */
  predicate InRange(cmp: (string, string) -> int, floor: Option<string>, target: string, v: string) {
    cmp(v, target) <= 0 && (if floor.None? then cmp(v, target) == 0 else cmp(v, floor.value) > 0)
  }

  function Newest(cmp: (string, string) -> int): (Span, Span) -> bool {
    (a: Span, b: Span) => cmp(b.version, a.version) <= 0
  }

  function Ranged(cmp: (string, string) -> int, floor: Option<string>, target: string): Span -> bool {
    (s: Span) => InRange(cmp, floor, target, s.version)
  }

  /** The spans in range, newest first. */
  function Selected(cmp: (string, string) -> int, floor: Option<string>, target: string, spans: seq<Span>): seq<Span> {
    Sort(Filter(spans, Ranged(cmp, floor, target)), Newest(cmp))
  }

  ghost predicate TotalPreorder(cmp: (string, string) -> int) {
    && (forall a, b :: cmp(a, b) <= 0 || cmp(b, a) <= 0)
    && (forall a, b, c :: cmp(a, b) <= 0 && cmp(b, c) <= 0 ==> cmp(a, c) <= 0)
  }

  lemma {:induction false} FilterMembers<T>(s: seq<T>, keep: T -> bool)
    ensures forall x :: x in Filter(s, keep) <==> x in s && keep(x)
  {
    if s != [] {
      FilterMembers(s[1..], keep);
      assert forall x :: x in s <==> x == s[0] || x in s[1..];
    }
  }

  lemma SelectedAreWithin(cmp: (string, string) -> int, floor: Option<string>, target: string, lines: seq<string>)
    ensures var spans := SpansBelow(lines, |lines|);
      var chosen := Selected(cmp, floor, target, spans);
      Within(chosen, lines) && forall s :: s in chosen <==> s in spans && InRange(cmp, floor, target, s.version)
  {
    hide VersionOf, InRange, SpansBelow, Sort;
    var spans := SpansBelow(lines, |lines|);
    var chosen := Selected(cmp, floor, target, spans);
    FilterMembers(spans, Ranged(cmp, floor, target));
    SortPermutes(Filter(spans, Ranged(cmp, floor, target)), Newest(cmp));
    forall i | 0 <= i < |chosen|
      ensures chosen[i].start < chosen[i].end <= |lines|
    {
      assert chosen[i] in chosen;
      var j :| 0 <= j < |spans| && spans[j] == chosen[i];
      SpanShape(lines, |lines|, j);
    }
  }

  /**
   The versions above the floor and up to the target: one that equals the floor contributes nothing, one that equals the
   target does unless the floor reaches it. Without a floor the target's own version is taken, and no other.
  */
  lemma RangeEnds(cmp: (string, string) -> int, floor: Option<string>, target: string, lines: seq<string>, s: Span)
    requires s in SpansBelow(lines, |lines|)
    ensures var chosen := Selected(cmp, floor, target, SpansBelow(lines, |lines|));
      match floor
      case Some(f) =>
        (cmp(s.version, f) == 0 ==> s !in chosen) && (cmp(s.version, f) < 0 ==> s !in chosen) &&
        (cmp(s.version, target) > 0 ==> s !in chosen) &&
        (cmp(s.version, f) > 0 && cmp(s.version, target) <= 0 ==> s in chosen)
      case None => s in chosen <==> cmp(s.version, target) == 0
  {
    hide SpansBelow, Selected;
    SelectedAreWithin(cmp, floor, target, lines);
  }

  /** Newer versions come first; versions that compare equal stay in the order of the changelog. */
  lemma SelectedNewestFirst(cmp: (string, string) -> int, floor: Option<string>, target: string, spans: seq<Span>)
    requires TotalPreorder(cmp)
    ensures var chosen := Selected(cmp, floor, target, spans);
      (forall i, j :: 0 <= i < j < |chosen| ==> cmp(chosen[j].version, chosen[i].version) <= 0) &&
      forall k :: Peers(chosen, k, Newest(cmp)) == Peers(Filter(spans, Ranged(cmp, floor, target)), k, Newest(cmp))
  {
    hide InRange, Sort, Filter;
    var ranged := Filter(spans, Ranged(cmp, floor, target));
    SortSorted(ranged, Newest(cmp));
    forall k
      ensures Peers(Sort(ranged, Newest(cmp)), k, Newest(cmp)) == Peers(ranged, k, Newest(cmp))
    {
      SortIsStable(ranged, Newest(cmp), k);
    }
  }

  // ---------------------------------------------------------------- filling the buckets

  /** The non-blank buffered lines, under their category. */
  function Tag(cat: string, buf: seq<string>): seq<Entry> {
    if buf == [] then []
    else (if Blank(buf[0]) then [] else [Entry(cat, buf[0])]) + Tag(cat, buf[1..])
  }

  lemma {:induction false} TagSnoc(cat: string, buf: seq<string>, line: string)
    ensures Tag(cat, buf + [line]) == Tag(cat, buf) + if Blank(line) then [] else [Entry(cat, line)]
  {
    hide Blank;
    if buf == [] {
      assert [] + [line] == [line] && [line][1..] == [];
    } else {
      TagSnoc(cat, buf[1..], line);
      assert (buf + [line])[1..] == buf[1..] + [line];
      ConcatAssociative(if Blank(buf[0]) then [] else [Entry(cat, buf[0])], Tag(cat, buf[1..]), if Blank(line) then [] else [Entry(cat, line)]);
    }
  }

  function Pending(cat: Option<string>, buf: seq<string>): seq<Entry> {
    if cat.None? then [] else Tag(cat.value, buf)
  }

  lemma NothingTagged(cat: string, lines: seq<string>, at: Option<string>)
    ensures Tag(cat, []) == [] && Pending(at, []) == [] && EntriesOf([], at) == [] && Pending(None, lines) == []
  {
  }

  function BucketIn(buckets: map<string, seq<string>>, cat: string): seq<string> {
    if cat in buckets then buckets[cat] else []
  }

  ghost predicate Holds(buckets: map<string, seq<string>>, es: seq<Entry>) {
    forall cat :: BucketIn(buckets, cat) == Bucket(es, cat)
  }

  ghost predicate Remembers(seen: set<string>, es: seq<Entry>) {
    forall key :: key in seen <==> Seen(es, key)
  }

  lemma SeenSnoc(es: seq<Entry>, e: Entry, key: string)
    ensures Seen(es + [e], key) <==> Seen(es, key) || Trim(e.line) == key
  {
    hide Trim;
    var all := es + [e];
    assert all[|es|] == e && forall j :: 0 <= j < |es| ==> all[j] == es[j];
    if j :| 0 <= j < |es| && Trim(es[j].line) == key {
      assert Trim(all[j].line) == key;
    }
  }

  lemma PushEntry(buckets: map<string, seq<string>>, seen: set<string>, es: seq<Entry>, e: Entry)
    requires Holds(buckets, es) && Remembers(seen, es)
    ensures var key := Trim(e.line);
      if key in seen then Holds(buckets, es + [e]) && Remembers(seen, es + [e])
      else Holds(buckets[e.cat := BucketIn(buckets, e.cat) + [e.line]], es + [e]) && Remembers(seen + {key}, es + [e])
  {
    hide Bucket, Seen, Trim;
    var key := Trim(e.line);
    var next := if key in seen then buckets else buckets[e.cat := BucketIn(buckets, e.cat) + [e.line]];
    forall cat
      ensures BucketIn(next, cat) == Bucket(es + [e], cat)
    {
      BucketSnoc(es, e, cat);
      assert BucketIn(buckets, cat) == Bucket(es, cat);
      assert Bucket(es, cat) + [] == Bucket(es, cat);
    }
    forall k
      ensures k in (if key in seen then seen else seen + {key}) <==> Seen(es + [e], k)
    {
      SeenSnoc(es, e, k);
    }
  }

  /** The merge state that the flush closure updates. */
  class Collector {
    var categories: seq<string>
    var buckets: map<string, seq<string>>
    var seen: set<string>
    ghost var pushed: seq<Entry>

    ghost predicate Valid()
      reads this
    {
      Holds(buckets, pushed) && Remembers(seen, pushed) && NoDuplicates(categories) && ToSet(categories) == buckets.Keys
    }

    constructor ()
      ensures Valid() && pushed == []
    {
      categories, buckets, seen, pushed := [], map[], {}, [];
    }

    method PushLine(cat: string, line: string)
      requires Valid() && cat in buckets
      modifies this
      ensures Valid() && categories == old(categories) && cat in buckets
      ensures pushed == old(pushed) + if Blank(line) then [] else [Entry(cat, line)]
    {
      hide Holds, Remembers, NoDuplicates, ToSet, Trim;
      var key := Trim(line);
      if |key| == 0 {
        assert pushed + [] == pushed;
        return;
      }
      ghost var e := Entry(cat, line);
      PushEntry(buckets, seen, pushed, e);
      pushed := pushed + [e];
      if key !in seen {
        seen := seen + {key};
        KeysStay(buckets, cat, buckets[cat] + [line]);
        buckets := buckets[cat := buckets[cat] + [line]];
      }
    }

    /** Adds the buffered lines that were not seen before to the bucket of their category. */
    method Flush(cat: Option<string>, buf: seq<string>)
      requires Valid()
      modifies this
      ensures Valid() && pushed == old(pushed) + Pending(cat, buf)
    {
      hide Holds, Remembers, NoDuplicates, ToSet, Blank, Tag;
      if cat.None? || buf == [] {
        NothingTagged("", buf, cat);
        assert pushed + [] == pushed;
        return;
      }
      if cat.value !in buckets {
        NewBucket(buckets, categories, pushed, cat.value);
        buckets := buckets[cat.value := []];
        categories := categories + [cat.value];
      }
      ghost var start := pushed;
      NothingTagged(cat.value, [], cat);
      for i := 0 to |buf|
        invariant Valid() && cat.value in buckets && pushed == start + Tag(cat.value, buf[..i])
      {
        assert buf[..i + 1] == buf[..i] + [buf[i]];
        TagSnoc(cat.value, buf[..i], buf[i]);
        PushLine(cat.value, buf[i]);
      }
      assert buf[..|buf|] == buf;
    }
  }

  lemma KeysStay(buckets: map<string, seq<string>>, cat: string, lines: seq<string>)
    requires cat in buckets
    ensures buckets[cat := lines].Keys == buckets.Keys
  {
  }

  lemma NewBucket(buckets: map<string, seq<string>>, categories: seq<string>, es: seq<Entry>, cat: string)
    requires Holds(buckets, es) && NoDuplicates(categories) && ToSet(categories) == buckets.Keys && cat !in buckets
    ensures Holds(buckets[cat := []], es)
    ensures NoDuplicates(categories + [cat]) && ToSet(categories + [cat]) == buckets[cat := []].Keys
  {
    hide Bucket;
    forall c
      ensures BucketIn(buckets[cat := []], c) == Bucket(es, c)
    {
      assert BucketIn(buckets, c) == Bucket(es, c);
    }
    assert cat !in ToSet(categories);
  }

  lemma EntriesStep(lines: seq<string>, i: nat, cat: Option<string>)
    requires i < |lines|
    ensures EntriesOf(lines[i..], cat) ==
      if CategoryOf(lines[i]).Some? then EntriesOf(lines[i + 1..], CategoryOf(lines[i]))
      else (if cat.None? || Blank(lines[i]) then [] else [Entry(cat.value, lines[i])]) + EntriesOf(lines[i + 1..], cat)
  {
    hide CategoryOf, Blank;
    assert lines[i..][0] == lines[i] && lines[i..][1..] == lines[i + 1..];
  }

  lemma BufferStep(cat: Option<string>, buf: seq<string>, line: string)
    ensures Pending(cat, if cat.None? then buf else buf + [line]) ==
      Pending(cat, buf) + if cat.None? || Blank(line) then [] else [Entry(cat.value, line)]
  {
    hide Blank, Tag;
    if cat.Some? {
      TagSnoc(cat.value, buf, line);
    }
  }

  /** One version's lines go to the buckets of the categories they stand under. */
  method CollectSpan(c: Collector, body: seq<string>)
    requires c.Valid()
    modifies c
    ensures c.Valid() && c.pushed == old(c.pushed) + EntriesOf(body, None)
  {
    hide Holds, Remembers, NoDuplicates, ToSet, CategoryOf, Blank, EntriesOf, Tag, Pending;
    var cat: Option<string>, buf: seq<string> := None, [];
    NothingTagged("", [], None);
    assert body[0..] == body;
    for i := 0 to |body|
      invariant c.Valid()
      invariant c.pushed + (Pending(cat, buf) + EntriesOf(body[i..], cat)) == old(c.pushed) + EntriesOf(body, None)
    {
      EntriesStep(body, i, cat);
      var next := CategoryOf(body[i]);
      if next.Some? {
        ConcatAssociative(c.pushed, Pending(cat, buf), EntriesOf(body[i + 1..], next));
        c.Flush(cat, buf);
        cat, buf := next, [];
        NothingTagged("", [], cat);
        assert [] + EntriesOf(body[i + 1..], cat) == EntriesOf(body[i + 1..], cat);
        continue;
      }
      BufferStep(cat, buf, body[i]);
      ghost var own := if cat.None? || Blank(body[i]) then [] else [Entry(cat.value, body[i])];
      ConcatAssociative(Pending(cat, buf), own, EntriesOf(body[i + 1..], cat));
      if cat.None? {
        continue;
      }
      buf := buf + [body[i]];
    }
    assert body[|body|..] == [];
    NothingTagged("", [], cat);
    assert Pending(cat, buf) + [] == Pending(cat, buf);
    c.Flush(cat, buf);
  }

  lemma AllEntriesStep(lines: seq<string>, spans: seq<Span>, k: nat)
    requires Within(spans, lines) && k < |spans|
    ensures AllEntries(lines, spans[k..]) == EntriesOf(lines[spans[k].start + 1..spans[k].end], None) + AllEntries(lines, spans[k + 1..])
  {
    hide EntriesOf;
    assert spans[k..][0] == spans[k] && spans[k..][1..] == spans[k + 1..];
  }

  lemma NoEntries(lines: seq<string>)
    ensures AllEntries(lines, []) == []
  {
  }

  /** All lines of the chosen versions, in their order. */
  method Collect(lines: seq<string>, spans: seq<Span>) returns (c: Collector)
    requires Within(spans, lines)
    ensures fresh(c) && c.Valid() && c.pushed == AllEntries(lines, spans)
  {
    hide Holds, Remembers, NoDuplicates, ToSet, EntriesOf, AllEntries;
    c := new Collector();
    assert spans[0..] == spans;
    for k := 0 to |spans|
      invariant c.Valid() && fresh(c) && c.pushed + AllEntries(lines, spans[k..]) == AllEntries(lines, spans)
    {
      AllEntriesStep(lines, spans, k);
      ConcatAssociative(c.pushed, EntriesOf(lines[spans[k].start + 1..spans[k].end], None), AllEntries(lines, spans[k + 1..]));
      CollectSpan(c, lines[spans[k].start + 1..spans[k].end]);
    }
    assert spans[|spans|..] == [];
    NoEntries(lines);
  }

  // ---------------------------------------------------------------- printing the body

  const CATEGORY_ORDER: seq<string> := ["Breaking Changes", "Added", "Changed", "Fixed", "Removed"]

  function CategoryRank(cat: string): nat {
    if cat == CATEGORY_ORDER[0] then 0 else if cat == CATEGORY_ORDER[1] then 1 else if cat == CATEGORY_ORDER[2] then 2
    else if cat == CATEGORY_ORDER[3] then 3 else if cat == CATEGORY_ORDER[4] then 4 else 5
  }

  /** Breaking changes first, then what was added, changed, fixed and removed, then every other category. */
  lemma CategoryRanks(title: string)
    ensures CategoryRank("Breaking Changes") < CategoryRank("Added") < CategoryRank("Changed") < CategoryRank("Fixed") < CategoryRank("Removed")
    ensures title !in {"Breaking Changes", "Added", "Changed", "Fixed", "Removed"} ==>
      CategoryRank(title) == 5 > CategoryRank("Removed")
  {
    assert "Breaking Changes"[0] == 'B' && "Added"[0] == 'A' && "Changed"[0] == 'C' && "Fixed"[0] == 'F' && "Removed"[0] == 'R';
  }

  /** Known categories in their order, then the others by `collate`. */
  function CategoryLe(collate: (string, string) -> int): (string, string) -> bool {
    (a: string, b: string) =>
      if CategoryRank(a) < 5 && CategoryRank(b) < 5 then CategoryRank(a) <= CategoryRank(b)
      else if CategoryRank(a) < 5 then true
      else if CategoryRank(b) < 5 then false
      else collate(a, b) <= 0
  }

  /** Known categories stand in the order of the list, before all others; those stand as `collate` says. */
  ghost predicate GoesBefore(collate: (string, string) -> int, a: string, b: string) {
    var known := ["Breaking Changes", "Added", "Changed", "Fixed", "Removed"];
    if a in known then b in known ==> exists i, j :: 0 <= i <= j < 5 && known[i] == a && known[j] == b
    else b !in known && collate(a, b) <= 0
  }

  ghost predicate InOrder(cats: seq<string>, collate: (string, string) -> int) {
    forall i, j :: 0 <= i < j < |cats| ==> GoesBefore(collate, cats[i], cats[j])
  }

  lemma RankIs(cat: string)
    ensures CategoryRank(cat) <= 5
    ensures CategoryRank(cat) < 5 ==> CATEGORY_ORDER[CategoryRank(cat)] == cat
    ensures CategoryRank(cat) < 5 <==> cat in CATEGORY_ORDER
  {
  }

  lemma OrderedGoesBefore(collate: (string, string) -> int, a: string, b: string)
    requires CategoryLe(collate)(a, b)
    ensures GoesBefore(collate, a, b)
  {
    RankIs(a);
    RankIs(b);
    hide CategoryRank;
    if a in CATEGORY_ORDER && b in CATEGORY_ORDER {
      var i, j := CategoryRank(a), CategoryRank(b);
      assert 0 <= i <= j < 5 && CATEGORY_ORDER[i] == a && CATEGORY_ORDER[j] == b;
    }
  }

  function CategoryBlock(cat: string, bucket: seq<string>): seq<string> {
    if bucket == [] then [] else ["### " + cat, ""] + bucket + [""]
  }

  function Blocks(cats: seq<string>, buckets: map<string, seq<string>>): seq<string> {
    if cats == [] then [] else CategoryBlock(cats[0], BucketIn(buckets, cats[0])) + Blocks(cats[1..], buckets)
  }

  /** The blocks of the kept entries, category by category. */
  function BodyOf(es: seq<Entry>, cats: seq<string>): seq<string> {
    if cats == [] then [] else CategoryBlock(cats[0], Bucket(es, cats[0])) + BodyOf(es, cats[1..])
  }

  lemma {:induction false} BlocksAreBody(es: seq<Entry>, cats: seq<string>, buckets: map<string, seq<string>>)
    requires Holds(buckets, es)
    ensures Blocks(cats, buckets) == BodyOf(es, cats)
  {
    hide Bucket;
    if cats != [] {
      BlocksAreBody(es, cats[1..], buckets);
      assert BucketIn(buckets, cats[0]) == Bucket(es, cats[0]);
    }
  }

  function DropEmptyEnd(lines: seq<string>): seq<string> {
    if lines != [] && Last(lines) == "" then DropEmptyEnd(lines[..|lines| - 1]) else lines
  }

  /** Runs of blank lines become one, trailing ones go; a bucket has none, so this is the identity on buckets. */
  method Collapse(bucket: seq<string>) returns (collapsed: seq<string>)
    ensures (forall line :: line in bucket ==> !Blank(line)) ==> collapsed == bucket
  {
    hide Blank;
    collapsed := [];
    var previous := false;
    for i := 0 to |bucket|
      invariant (forall line :: line in bucket ==> !Blank(line)) ==> collapsed == bucket[..i] && !previous
    {
      var blank := Blank(bucket[i]);
      if blank && previous {
        continue;
      }
      collapsed := collapsed + [bucket[i]];
      previous := blank;
    }
    while collapsed != [] && Blank(Last(collapsed))
      invariant (forall line :: line in bucket ==> !Blank(line)) ==> collapsed == bucket
    {
      collapsed := collapsed[..|collapsed| - 1];
    }
  }

  method PrintBody(cats: seq<string>, buckets: map<string, seq<string>>) returns (out: seq<string>)
    requires forall cat, line :: cat in buckets && line in buckets[cat] ==> !Blank(line)
    ensures out == DropEmptyEnd(Blocks(cats, buckets))
  {
    hide Blank;
    out := [];
    for i := 0 to |cats|
      invariant out + Blocks(cats[i..], buckets) == Blocks(cats, buckets)
    {
      assert cats[i..][1..] == cats[i + 1..];
      var collapsed := Collapse(BucketIn(buckets, cats[i]));
      ConcatAssociative(out, CategoryBlock(cats[i], collapsed), Blocks(cats[i + 1..], buckets));
      if collapsed == [] {
        assert out + [] == out;
        continue;
      }
      out := out + (["### " + cats[i], ""] + collapsed + [""]);
    }
    assert out + [] == out;
    while out != [] && Last(out) == ""
      invariant DropEmptyEnd(out) == DropEmptyEnd(Blocks(cats, buckets))
    {
      DropStep(out);
      out := out[..|out| - 1];
    }
    DropStep(out);
  }

  lemma DropStep(lines: seq<string>)
    ensures DropEmptyEnd(lines) == if lines != [] && Last(lines) == "" then DropEmptyEnd(lines[..|lines| - 1]) else lines
  {
  }

  method SortCategories(cats: seq<string>, collate: (string, string) -> int) returns (r: seq<string>)
    ensures r == Sort(cats, CategoryLe(collate))
  {
    r := [];
    for k := 0 to |cats|
      invariant r == Sort(cats[|cats| - k..], CategoryLe(collate))
    {
      var i := |cats| - 1 - k;
      assert cats[i..][0] == cats[i] && cats[i..][1..] == cats[i + 1..];
      r := Insert(cats[i], r, CategoryLe(collate));
    }
    assert cats[0..] == cats;
  }

  // ---------------------------------------------------------------- reading the body back

  /** The kept entries category by category. */
  function Grouped(es: seq<Entry>, cats: seq<string>): seq<Entry> {
    if cats == [] then [] else Tag(cats[0], Bucket(es, cats[0])) + Grouped(es, cats[1..])
  }

  predicate Readable(es: seq<Entry>) {
    forall e :: e in es ==> CategoryOf("### " + e.cat) == Some(e.cat) && CategoryOf(e.line).None? && !Blank(e.line)
  }

  lemma CategoryRoundTrip(line: string)
    requires CategoryOf(line).Some?
    ensures CategoryOf("### " + CategoryOf(line).value) == CategoryOf(line)
  {
    var rest := line[4..];
    var cat := CategoryOf(line).value;
    TrimEndFacts(rest);
    assert ("### " + cat)[4..] == cat;
    if TrimEnd(rest) != "" {
      assert TrimEnd(cat) == cat;
    } else {
      NoTrimEnd(rest);
      assert rest[0] in rest && cat == [rest[0]];
      assert cat[..|cat| - 1] == "" && TrimEnd(cat) == "" && ("### " + cat)[4..5] == cat;
    }
  }

  lemma {:induction false} NoTrimEnd(s: string)
    requires TrimEnd(s) == ""
    ensures forall c :: c in s ==> Space(c)
  {
    hide Space;
    if s != "" {
      NoTrimEnd(s[..|s| - 1]);
      assert s == s[..|s| - 1] + [Last(s)];
    }
  }

  lemma {:induction false} EntriesReadable(lines: seq<string>, cat: Option<string>)
    requires cat.Some? ==> CategoryOf("### " + cat.value) == cat
    ensures Readable(EntriesOf(lines, cat))
    decreases |lines|
  {
    hide CategoryOf, Blank;
    if lines != [] {
      if CategoryOf(lines[0]).Some? {
        CategoryRoundTrip(lines[0]);
        EntriesReadable(lines[1..], CategoryOf(lines[0]));
      } else {
        EntriesReadable(lines[1..], cat);
      }
    }
  }

  lemma {:induction false} AllReadable(lines: seq<string>, spans: seq<Span>)
    requires Within(spans, lines)
    ensures Readable(AllEntries(lines, spans))
    decreases |spans|
  {
    hide CategoryOf, Blank, EntriesOf;
    if spans != [] {
      EntriesReadable(lines[spans[0].start + 1..spans[0].end], None);
      AllReadable(lines, spans[1..]);
    }
  }

  lemma {:induction false} ReadBucket(cat: string, bucket: seq<string>, rest: seq<string>)
    requires forall line :: line in bucket ==> CategoryOf(line).None?
    ensures EntriesOf(bucket + rest, Some(cat)) == Tag(cat, bucket) + EntriesOf(rest, Some(cat))
    decreases |bucket|
  {
    hide CategoryOf, Blank;
    if bucket == [] {
      assert bucket + rest == rest;
    } else {
      assert bucket[0] in bucket && forall line :: line in bucket[1..] ==> line in bucket;
      ReadBucket(cat, bucket[1..], rest);
      assert (bucket + rest)[1..] == bucket[1..] + rest;
      ConcatAssociative(if Blank(bucket[0]) then [] else [Entry(cat, bucket[0])], Tag(cat, bucket[1..]), EntriesOf(rest, Some(cat)));
    }
  }

  lemma BucketReadable(es: seq<Entry>, cat: string)
    requires Readable(es)
    ensures forall line :: line in Bucket(es, cat) ==> CategoryOf(line).None? && !Blank(line)
    ensures Bucket(es, cat) != [] ==> CategoryOf("### " + cat) == Some(cat)
  {
    hide CategoryOf, Blank, Bucket;
    forall line | line in Bucket(es, cat)
      ensures Entry(cat, line) in es
    {
      OnlyEntriesKept(es, cat, line);
    }
    if Bucket(es, cat) != [] {
      assert Bucket(es, cat)[0] in Bucket(es, cat);
    }
  }

  lemma {:induction false} ReadBlocks(es: seq<Entry>, cats: seq<string>, buckets: map<string, seq<string>>, cur: Option<string>)
    requires Readable(es) && Holds(buckets, es)
    ensures EntriesOf(Blocks(cats, buckets), cur) == Grouped(es, cats)
    decreases |cats|
  {
    hide CategoryOf, Blank, Bucket, Readable, Tag;
    if cats != [] {
      var cat, rest := cats[0], Blocks(cats[1..], buckets);
      var bucket := BucketIn(buckets, cat);
      assert bucket == Bucket(es, cat);
      BucketReadable(es, cat);
      if bucket == [] {
        ReadBlocks(es, cats[1..], buckets, cur);
        NothingTagged(cat, [], None);
        assert [] + rest == rest;
      } else {
        ReadBlocks(es, cats[1..], buckets, Some(cat));
        ReadOneBlock(cat, bucket, rest, cur);
      }
    }
  }

  lemma ReadOneBlock(cat: string, bucket: seq<string>, rest: seq<string>, cur: Option<string>)
    requires bucket != [] && CategoryOf("### " + cat) == Some(cat) && forall line :: line in bucket ==> CategoryOf(line).None?
    ensures EntriesOf(CategoryBlock(cat, bucket) + rest, cur) == Tag(cat, bucket) + EntriesOf(rest, Some(cat))
  {
    assert CategoryOf("").None?;
    HeadingsDiffer("");
    hide CategoryOf, Blank, Tag, EntriesOf;
    var tail := bucket + ([""] + rest);
    var all := ["### " + cat] + ([""] + tail);
    BlockShape(cat, bucket, rest);
    EntriesStep(all, 0, cur);
    assert all[0..] == all && all[1..] == [""] + tail;
    SkipBlank("", tail, cat);
    ReadBucket(cat, bucket, [""] + rest);
    SkipBlank("", rest, cat);
  }

  lemma BlockShape(cat: string, bucket: seq<string>, rest: seq<string>)
    requires bucket != []
    ensures CategoryBlock(cat, bucket) + rest == ["### " + cat] + ([""] + (bucket + ([""] + rest)))
  {
  }

  lemma SkipBlank(line: string, rest: seq<string>, cat: string)
    requires Blank(line) && CategoryOf(line).None?
    ensures EntriesOf([line] + rest, Some(cat)) == EntriesOf(rest, Some(cat))
  {
    hide Blank, CategoryOf;
    assert ([line] + rest)[1..] == rest;
  }

  lemma {:induction false} ReadDropped(lines: seq<string>, cur: Option<string>)
    ensures EntriesOf(DropEmptyEnd(lines), cur) == EntriesOf(lines, cur)
    decreases |lines|
  {
    assert CategoryOf("").None?;
    HeadingsDiffer("");
    hide CategoryOf, Blank, EntriesOf;
    DropStep(lines);
    if lines != [] && Last(lines) == "" {
      var front := lines[..|lines| - 1];
      ReadDropped(front, cur);
      assert lines == front + [""];
      BlankAtEnd(front, cur);
    }
  }

  lemma {:induction false} BlankAtEnd(lines: seq<string>, cur: Option<string>)
    requires CategoryOf("").None? && Blank("")
    ensures EntriesOf(lines + [""], cur) == EntriesOf(lines, cur)
    decreases |lines|
  {
    hide CategoryOf, Blank;
    if lines == [] {
      assert [] + [""] == [""] && [""][1..] == [];
    } else {
      assert (lines + [""])[1..] == lines[1..] + [""];
      BlankAtEnd(lines[1..], if CategoryOf(lines[0]).Some? then CategoryOf(lines[0]) else cur);
    }
  }

  /** The merged body of the versions in range: one block per category, in order; read back, it is the kept entries. */
  method MergePackageSection(
    lines: seq<string>, cmp: (string, string) -> int, collate: (string, string) -> int, floor: Option<string>, target: string)
    returns (out: seq<string>, cats: seq<string>)
    ensures var chosen := Selected(cmp, floor, target, SpansBelow(lines, |lines|));
      Within(chosen, lines) &&
      out == DropEmptyEnd(BodyOf(AllEntries(lines, chosen), cats)) &&
      EntriesOf(out, None) == Grouped(AllEntries(lines, chosen), cats) && NoDuplicates(cats) &&
      forall cat :: Bucket(AllEntries(lines, chosen), cat) != [] ==> cat in cats
    ensures TotalPreorder(collate) ==> InOrder(cats, collate)
  {
    hide InRange, SpansBelow, EntriesOf, Bucket, Holds, Remembers, CategoryOf, Blank, Blocks, Sort, AllEntries, Grouped, Readable;
    hide BodyOf, TotalPreorder, CategoryLe, InOrder;
    var spans := EnumerateChangelogVersions(lines);
    var chosen := SortSpans(Filter(spans, Ranged(cmp, floor, target)), cmp);
    SelectedAreWithin(cmp, floor, target, lines);
    var c := Collect(lines, chosen);
    ghost var es := AllEntries(lines, chosen);
    AllReadable(lines, chosen);
    cats := SortCategories(c.categories, collate);
    SortedCategories(c.categories, c.buckets, es, collate);
    BucketsReadable(c.buckets, es);
    out := PrintBody(cats, c.buckets);
    ReadDropped(Blocks(cats, c.buckets), None);
    ReadBlocks(es, cats, c.buckets, None);
    BlocksAreBody(es, cats, c.buckets);
  }

  lemma BucketsReadable(buckets: map<string, seq<string>>, es: seq<Entry>)
    requires Readable(es) && Holds(buckets, es)
    ensures forall cat, line :: cat in buckets && line in buckets[cat] ==> !Blank(line)
  {
    hide Blank, Readable, Bucket;
    forall cat, line | cat in buckets && line in buckets[cat]
      ensures !Blank(line)
    {
      assert BucketIn(buckets, cat) == Bucket(es, cat);
      BucketReadable(es, cat);
    }
  }

  lemma CategoriesInOrder(cats: seq<string>, collate: (string, string) -> int)
    requires TotalPreorder(collate)
    ensures InOrder(Sort(cats, CategoryLe(collate)), collate)
  {
    hide CategoryRank, Sort, GoesBefore;
    SortSorted(cats, CategoryLe(collate));
    var r := Sort(cats, CategoryLe(collate));
    forall i, j | 0 <= i < j < |r|
      ensures GoesBefore(collate, r[i], r[j])
    {
      OrderedGoesBefore(collate, r[i], r[j]);
    }
  }

  lemma SortedCategories(cats: seq<string>, buckets: map<string, seq<string>>, es: seq<Entry>, collate: (string, string) -> int)
    requires NoDuplicates(cats) && ToSet(cats) == buckets.Keys && Holds(buckets, es)
    ensures NoDuplicates(Sort(cats, CategoryLe(collate)))
    ensures forall cat :: Bucket(es, cat) != [] ==> cat in Sort(cats, CategoryLe(collate))
    ensures TotalPreorder(collate) ==> InOrder(Sort(cats, CategoryLe(collate)), collate)
  {
    if TotalPreorder(collate) {
      CategoriesInOrder(cats, collate);
    }
    hide Sort, Bucket, CategoryLe, TotalPreorder, InOrder;
    SortPermutes(cats, CategoryLe(collate));
    PermutedDistinct(cats, Sort(cats, CategoryLe(collate)));
    forall cat | Bucket(es, cat) != []
      ensures cat in Sort(cats, CategoryLe(collate))
    {
      assert BucketIn(buckets, cat) == Bucket(es, cat);
      assert cat in ToSet(cats);
    }
  }

  method SortSpans(spans: seq<Span>, cmp: (string, string) -> int) returns (r: seq<Span>)
    ensures r == Sort(spans, Newest(cmp))
  {
    r := [];
    for k := 0 to |spans|
      invariant r == Sort(spans[|spans| - k..], Newest(cmp))
    {
      var i := |spans| - 1 - k;
      assert spans[i..][0] == spans[i] && spans[i..][1..] == spans[i + 1..];
      r := Insert(spans[i], r, Newest(cmp));
    }
    assert spans[0..] == spans;
  }
}
