/** Writing the release version into a linked addon, and reading it back. Bytes are Latin-1 characters. */
module NativeStamp {
  import opened Prelude

  function Magic(): (m: string)
    ensures |m| == 25 && m[24] == ':' && NUL !in m && forall k :: 0 <= k < 24 ==> m[k] != ':'
  {
    "PI_NATIVES_VERSION_STAMP:"
  }

  const SLOT_SIZE := 64
  const MAX_VERSION := 38
  const NUL: char := '\0'

  predicate OccursAt(s: string, m: string, i: int) {
    0 <= i && i + |m| <= |s| && s[i..i + |m|] == m
  }

  /** The first occurrence at or after `from`, or -1. */
  function IndexOf(s: string, m: string, from: nat): (i: int)
    ensures i == -1 || (from <= i && OccursAt(s, m, i))
    ensures forall j :: from <= j && OccursAt(s, m, j) ==> i != -1 && i <= j
    decreases |s| - from
  {
    if from + |m| > |s| then -1
    else if s[from..from + |m|] == m then from
    else
      assert !OccursAt(s, m, from);
      IndexOf(s, m, from + 1)
  }

  datatype StampError = EmptyVersion | TooLong | HasNul | NotFound | Ambiguous | Truncated
  datatype Stamp = Stamped(changed: bool, bytes: string) | Failed(error: StampError)

  function Zeros(n: nat): (r: string)
    ensures |r| == n && forall i :: 0 <= i < n ==> r[i] == NUL
  {
    seq(n, _ => NUL)
  }

  /** The version and its NUL padding. */
  function Payload(version: string): (r: string)
    requires |version| <= MAX_VERSION
    ensures |r| == SLOT_SIZE - |Magic()| && Last(r) == NUL
  {
    version + Zeros(SLOT_SIZE - |Magic()| - |version|)
  }

  function WriteAt(s: string, at: nat, d: string): (r: string)
    requires at + |d| <= |s|
    ensures |r| == |s| && r[at..at + |d|] == d
    ensures forall i :: 0 <= i < |s| && !(at <= i < at + |d|) ==> r[i] == s[i]
  {
    s[..at] + d + s[at + |d|..]
  }

  function StampBytes(s: string, version: string): Stamp {
    if version == "" then Failed(EmptyVersion)
    else if |version| > MAX_VERSION then Failed(TooLong)
    else if NUL in version then Failed(HasNul)
    else
      var first := IndexOf(s, Magic(), 0);
      if first == -1 then Failed(NotFound)
      else if IndexOf(s, Magic(), first + 1) != -1 then Failed(Ambiguous)
      else if first + SLOT_SIZE > |s| then Failed(Truncated)
      else
        var r := WriteAt(s, first + |Magic()|, Payload(version));
        Stamped(r != s, r)
  }

  lemma WriteSame(s: string, at: nat, d: string)
    requires at + |d| <= |s| && s[at..at + |d|] == d
    ensures WriteAt(s, at, d) == s
  {
  }

  ghost predicate FitsSlot(version: string) {
    1 <= |version| <= 38 && '\0' !in version
  }

  ghost predicate Occurs(s: string, i: int) {
    OccursAt(s, "PI_NATIVES_VERSION_STAMP:", i)
  }

  /** Which error is reported when, and that there is none otherwise. */
  lemma StampErrors(s: string, version: string, at: int)
    ensures var r := StampBytes(s, version);
      && (r == Failed(EmptyVersion) <==> version == "")
      && (r == Failed(TooLong) <==> |version| > 38)
      && (r == Failed(HasNul) <==> 1 <= |version| <= 38 && '\0' in version)
      && (r == Failed(NotFound) <==> FitsSlot(version) && forall i :: !Occurs(s, i))
      && (r == Failed(Ambiguous) <==> FitsSlot(version) && exists i, j :: Occurs(s, i) && Occurs(s, j) && i != j)
      && (Occurs(s, at) && (forall i :: Occurs(s, i) ==> i == at) && FitsSlot(version) ==>
            (r == Failed(Truncated) <==> at + 64 > |s|) && (r.Stamped? <==> at + 64 <= |s|))
  {
    hide OccursAt, WriteAt, Payload;
    var first := IndexOf(s, Magic(), 0);
    assert forall i :: Occurs(s, i) <==> OccursAt(s, Magic(), i);
    OccursInside(s);
    if first != -1 {
      var second := IndexOf(s, Magic(), first + 1);
      assert Occurs(s, first);
      if second != -1 {
        assert Occurs(s, second);
      }
    }
  }

  lemma OccursInside(s: string)
    ensures forall i :: OccursAt(s, Magic(), i) ==> 0 <= i
  {
  }

  method StampNativeBytes(bytes: array<char>, version: string) returns (r: Stamp)
    modifies bytes
    ensures r == StampBytes(old(bytes[..]), version)
    ensures bytes[..] == if r.Stamped? then r.bytes else old(bytes[..])
  {
    if version == "" {
      return Failed(EmptyVersion);
    }
    if |version| > MAX_VERSION {
      return Failed(TooLong);
    }
    if NUL in version {
      return Failed(HasNul);
    }
    hide IndexOf, Magic, OccursAt, Payload, WriteAt;
    ghost var s := bytes[..];
    var first := IndexOf(bytes[..], Magic(), 0);
    if first == -1 {
      return Failed(NotFound);
    }
    if IndexOf(bytes[..], Magic(), first + 1) != -1 {
      return Failed(Ambiguous);
    }
    var start, end := first + |Magic()|, first + SLOT_SIZE;
    if end > bytes.Length {
      return Failed(Truncated);
    }
    var desired := Payload(version);
    if bytes[start..end] == desired {
      WriteSame(s, start, desired);
      return Stamped(false, bytes[..]);
    }
    Copy(bytes, start, desired);
    assert WriteAt(s, start, desired) != s by {
      assert WriteAt(s, start, desired)[start..end] == desired != s[start..end];
    }
    return Stamped(true, bytes[..]);
  }

  method Copy(bytes: array<char>, at: nat, d: string)
    requires at + |d| <= bytes.Length
    modifies bytes
    ensures bytes[..] == WriteAt(old(bytes[..]), at, d)
  {
    for i := 0 to |d|
      invariant forall k :: 0 <= k < bytes.Length ==>
        bytes[k] == if at <= k < at + i then d[k - at] else old(bytes[k])
    {
      bytes[at + i] := d[i];
    }
  }

  // ---------------------------------------------------------------- the magic stays unique

  lemma OccurrenceAt(s: string, m: string, i: int)
    requires OccursAt(s, m, i)
    ensures forall k :: 0 <= k < |m| ==> s[i + k] == m[k]
  {
    forall k | 0 <= k < |m|
      ensures s[i + k] == m[k]
    {
      assert s[i..i + |m|][k] == s[i + k];
    }
  }

  lemma SameOccurrence(a: string, b: string, m: string, i: int)
    requires |a| == |b| && OccursAt(a, m, i) && forall k :: i <= k < i + |m| ==> a[k] == b[k]
    ensures OccursAt(b, m, i)
  {
    assert a[i..i + |m|] == b[i..i + |m|];
  }

  /** The slot after a stamp: its payload, and everything else as before. */
  lemma StampShape(s: string, version: string)
    requires StampBytes(s, version).Stamped?
    ensures var at, r := IndexOf(s, Magic(), 0), StampBytes(s, version).bytes;
      0 <= at && at + SLOT_SIZE <= |s| == |r| && 0 < |version| <= MAX_VERSION && NUL !in version &&
      OccursAt(r, Magic(), at) && (forall i :: OccursAt(s, Magic(), i) <==> i == at) &&
      (forall k :: 0 <= k < |s| && !(at + 25 <= k < at + 64) ==> r[k] == s[k]) &&
      (forall k :: 0 <= k < 39 ==> r[at + 25 + k] == Payload(version)[k])
  {
    hide Magic, Payload;
    var at, r := IndexOf(s, Magic(), 0), StampBytes(s, version).bytes;
    var p := Payload(version);
    hide IndexOf;
    assert r == WriteAt(s, at + 25, p);
    forall k | 0 <= k < 39
      ensures r[at + 25 + k] == p[k]
    {
      assert r[at + 25..at + 25 + |p|][k] == p[k];
    }
    SameOccurrence(s, r, Magic(), at);
  }

  lemma PayloadIs(version: string)
    requires |version| <= MAX_VERSION
    ensures forall k :: 0 <= k < 39 ==> Payload(version)[k] == if k < |version| then version[k] else NUL
    ensures NUL !in version ==> forall k :: 0 <= k < |version| ==> version[k] != NUL
  {
  }

  ghost predicate HoldsMagic(version: string) {
    exists j :: OccursAt(version, Magic(), j)
  }

  lemma InsideVersion(r: string, at: nat, version: string, i: int)
    requires at + 64 <= |r| && |version| <= MAX_VERSION && OccursAt(r, Magic(), i) && at + 25 <= i < at + 40
    requires forall k :: 0 <= k < 39 ==> r[at + 25 + k] == Payload(version)[k]
    ensures HoldsMagic(version)
  {
    PayloadIs(version);
    OccurrenceAt(r, Magic(), i);
    var m, p, o := Magic(), Payload(version), i - at - 25;
    hide Magic, Payload;
    forall k | 0 <= k < 25
      ensures o + k < |version| && version[o + k] == m[k]
    {
      assert r[i + k] == r[at + 25 + (o + k)] == p[o + k];
      assert r[i + k] == m[k] && m[k] in m;
    }
    assert o + 24 < |version|;
    assert version[o..o + 25] == m;
    assert OccursAt(version, m, o);
  }

  /** Any other occurrence after the stamp was there before. */
  lemma OtherOccurrence(s: string, r: string, at: nat, version: string, i: int)
    requires at + 64 <= |s| == |r| && |version| <= MAX_VERSION && !HoldsMagic(version)
    requires forall k :: 0 <= k < |s| && !(at + 25 <= k < at + 64) ==> r[k] == s[k]
    requires forall k :: 0 <= k < 39 ==> r[at + 25 + k] == Payload(version)[k]
    requires OccursAt(r, Magic(), at) && OccursAt(r, Magic(), i) && i != at
    ensures OccursAt(s, Magic(), i)
  {
    PayloadIs(version);
    var m := Magic();
    OccurrenceAt(r, m, at);
    OccurrenceAt(r, m, i);
    assert r[at + 25 + 38] == Payload(version)[38];
    assert i + 25 <= |r|;
    hide Magic, Payload, OccursAt, HoldsMagic;
    assert r[at + 24] == ':' && r[at + 63] == NUL;
    forall j | i <= j < i + 25
      ensures r[j] != NUL && (j < i + 24 ==> r[j] != ':')
    {
      assert r[i + (j - i)] == m[j - i] && m[j - i] in m;
    }
    if at + 25 <= i < at + 40 {
      InsideVersion(r, at, version, i);
    } else {
      SameOccurrence(r, s, m, i);
    }
  }

  /** A version that does not itself hold the magic cannot bring in another occurrence. */
  lemma StampKeepsMagicUnique(s: string, version: string, i: int)
    requires StampBytes(s, version).Stamped? && !HoldsMagic(version)
    ensures OccursAt(StampBytes(s, version).bytes, Magic(), i) <==> i == IndexOf(s, Magic(), 0)
  {
    hide Magic, IndexOf, Payload, OccursAt, StampBytes, HoldsMagic;
    StampShape(s, version);
    var at, r := IndexOf(s, Magic(), 0), StampBytes(s, version).bytes;
    if OccursAt(r, Magic(), i) && i != at {
      OtherOccurrence(s, r, at, version, i);
    }
  }

  /** ...and one that does hold it makes the addon impossible to stamp again. */
  lemma RestampableIff(s: string, version: string, next: string)
    requires StampBytes(s, version).Stamped? && StampBytes(s, next).Stamped?
    ensures StampBytes(StampBytes(s, version).bytes, next).Stamped? <==> !HoldsMagic(version)
  {
    StampShape(s, version);
    var at, r, m := IndexOf(s, Magic(), 0), StampBytes(s, version).bytes, Magic();
    if !HoldsMagic(version) {
      forall i: int
        ensures OccursAt(r, m, i) <==> i == at
      {
        StampKeepsMagicUnique(s, version, i);
      }
      FoundOnce(r, at);
    } else {
      var j :| OccursAt(version, m, j);
      MagicInside(r, at, version, j);
      assert OccursAt(r, m, at) && OccursAt(r, m, at + 25 + j);
    }
  }

  lemma MagicInside(r: string, at: nat, version: string, j: int)
    requires at + 64 <= |r| && |version| <= MAX_VERSION && OccursAt(version, Magic(), j)
    requires forall k :: 0 <= k < 39 ==> r[at + 25 + k] == Payload(version)[k]
    ensures OccursAt(r, Magic(), at + 25 + j)
  {
    PayloadIs(version);
    OccurrenceAt(version, Magic(), j);
    var m := Magic();
    hide Magic, Payload;
    forall k | 0 <= k < 25
      ensures r[at + 25 + j + k] == m[k]
    {
      assert r[at + 25 + (j + k)] == Payload(version)[j + k];
    }
    assert r[at + 25 + j..at + 25 + j + 25] == m;
  }

  lemma FoundOnce(s: string, at: nat)
    requires forall i :: OccursAt(s, Magic(), i) <==> i == at
    ensures IndexOf(s, Magic(), 0) == at && IndexOf(s, Magic(), at + 1) == -1
  {
    assert OccursAt(s, Magic(), at);
  }

  lemma EmptySlot(s: string)
    requires s == Magic() + Zeros(39)
    ensures forall i :: OccursAt(s, Magic(), i) <==> i == 0
  {
    var m := Magic();
    hide Magic;
    assert s[0..25] == m;
    forall i | OccursAt(s, m, i)
      ensures i == 0
    {
      OccurrenceAt(s, m, i);
      assert s[i + 24] == ':' && NUL != ':';
    }
  }

  lemma SlotTakes(s: string, version: string)
    requires s == Magic() + Zeros(39) && version != "" && |version| <= MAX_VERSION && NUL !in version
    ensures StampBytes(s, version).Stamped? && IndexOf(s, Magic(), 0) == 0
  {
    EmptySlot(s);
    FoundOnce(s, 0);
    hide Magic, Payload, IndexOf;
  }

  lemma TwoMagics(r: string, version: string, i: nat, j: nat)
    requires i < j && OccursAt(r, Magic(), i) && OccursAt(r, Magic(), j)
    requires version != "" && |version| <= MAX_VERSION && NUL !in version
    ensures StampBytes(r, version) == Failed(Ambiguous)
  {
    hide Magic, Payload, OccursAt;
    assert IndexOf(r, Magic(), 0) <= i < j;
  }

  lemma HoldsItself(m: string)
    ensures OccursAt(m, m, 0)
  {
    assert m[..|m|] == m;
  }

  lemma MagicTwice(s: string)
    requires s == Magic() + Zeros(39)
    ensures StampBytes(s, Magic()).Stamped?
    ensures var r := StampBytes(s, Magic()).bytes; OccursAt(r, Magic(), 0) && OccursAt(r, Magic(), 25)
  {
    var m := Magic();
    hide Magic, Payload, IndexOf, OccursAt, StampBytes, Zeros, WriteAt;
    HoldsItself(m);
    assert m != "" by { assert |m| == 25; }
    SlotTakes(s, m);
    StampShape(s, m);
    MagicInside(StampBytes(s, m).bytes, 0, m, 0);
  }

  /** For instance the magic itself can be written into an empty slot, and then no version at all. */
  lemma MagicVersionSticks(s: string, next: string)
    requires s == Magic() + Zeros(39) && next != "" && |next| <= MAX_VERSION && NUL !in next
    ensures StampBytes(s, Magic()).Stamped? && StampBytes(s, next).Stamped?
    ensures StampBytes(StampBytes(s, Magic()).bytes, next) == Failed(Ambiguous)
  {
    SlotTakes(s, next);
    MagicTwice(s);
    hide Magic, Payload, IndexOf, OccursAt, StampBytes, Zeros;
    TwoMagics(StampBytes(s, Magic()).bytes, next, 0, 25);
  }

  /** Stamping one version over another leaves no trace of the first. */
  lemma StampOverwrites(s: string, v1: string, v2: string)
    requires StampBytes(s, v1).Stamped? && StampBytes(s, v2).Stamped? && !HoldsMagic(v1)
    ensures StampBytes(StampBytes(s, v1).bytes, v2).Stamped?
    ensures StampBytes(StampBytes(s, v1).bytes, v2).bytes == StampBytes(s, v2).bytes
  {
    hide StampBytes, IndexOf, Magic, Payload, OccursAt, HoldsMagic;
    StampShape(s, v1);
    StampShape(s, v2);
    RestampableIff(s, v1, v2);
    var r, at := StampBytes(s, v1).bytes, IndexOf(s, Magic(), 0);
    forall i: int
      ensures OccursAt(r, Magic(), i) <==> i == at
    {
      StampKeepsMagicUnique(s, v1, i);
    }
    FoundOnce(r, at);
    StampShape(r, v2);
    SamePayload(StampBytes(r, v2).bytes, StampBytes(s, v2).bytes, r, s, at, Payload(v2));
  }

  lemma SamePayload(a: string, b: string, r: string, s: string, at: nat, p: string)
    requires |a| == |b| == |r| == |s| && at + 64 <= |s| && |p| == 39
    requires forall k :: 0 <= k < |s| && !(at + 25 <= k < at + 64) ==> a[k] == r[k] && b[k] == s[k] && r[k] == s[k]
    requires forall k :: 0 <= k < 39 ==> a[at + 25 + k] == p[k] && b[at + 25 + k] == p[k]
    ensures a == b
  {
    forall k | 0 <= k < |a|
      ensures a[k] == b[k]
    {
      if at + 25 <= k < at + 64 {
        assert a[at + 25 + (k - at - 25)] == p[k - at - 25];
      }
    }
  }

  /** Whether the loader accepts the addon for `version`. */
  predicate ContainsVersionStamp(s: string, version: string) {
    version != "" && IndexOf(s, Magic() + version + [NUL], 0) != -1
  }

  /** A slot that starts with a version and its NUL holds that version. */
  lemma PayloadTells(version: string, other: string)
    requires |version| <= MAX_VERSION && NUL !in version && NUL !in other
    requires forall k :: 0 <= k < 39 && k <= |other| ==> Payload(version)[k] == (other + [NUL])[k]
    ensures version == other
  {
    PayloadIs(version);
    hide Payload;
    var p, o := Payload(version), other + [NUL];
    forall k | 0 <= k < |other| && k < 39
      ensures p[k] == other[k] != NUL
    {
      assert p[k] == o[k] && other[k] in other;
    }
    assert p[38] == NUL && o[|other|] == NUL;
    assert p[|version|] == NUL && p[|other|] == NUL;
    assert |version| == |other|;
    assert forall k :: 0 <= k < |other| ==> version[k] == p[k];
  }

  lemma NeedleTells(r: string, at: nat, version: string, other: string)
    requires at + SLOT_SIZE <= |r| && 0 < |version| <= MAX_VERSION && NUL !in version && NUL !in other
    requires forall k :: 0 <= k < 39 ==> r[at + 25 + k] == Payload(version)[k]
    requires OccursAt(r, Magic() + other + [NUL], at)
    ensures version == other
  {
    var m := Magic();
    var needle := m + other + [NUL];
    OccurrenceAt(r, needle, at);
    hide Magic, Payload, OccursAt;
    forall k | 0 <= k < 39 && k <= |other|
      ensures Payload(version)[k] == (other + [NUL])[k]
    {
      assert needle[25 + k] == (other + [NUL])[k];
      assert r[at + (25 + k)] == needle[25 + k];
      assert r[at + 25 + k] == Payload(version)[k];
    }
    PayloadTells(version, other);
  }

  /** A stamped addon is accepted for exactly the version it was stamped with. */
  lemma StampIsReadBack(s: string, version: string, other: string)
    requires StampBytes(s, version).Stamped? && !HoldsMagic(version)
    requires other != "" && NUL !in other
    ensures ContainsVersionStamp(StampBytes(s, version).bytes, other) <==> other == version
  {
    StampShape(s, version);
    hide Magic, StampBytes, Payload, OccursAt, HoldsMagic;
    var r, at, m := StampBytes(s, version).bytes, IndexOf(s, Magic(), 0), Magic();
    var needle := m + other + [NUL];
    if other == version {
      StampFound(r, at, version);
    }
    if i :| OccursAt(r, needle, i) {
      StartsWithMagic(r, other, i);
      StampKeepsMagicUnique(s, version, i);
      NeedleTells(r, at, version, other);
    }
  }

  lemma StartsWithMagic(r: string, other: string, i: int)
    requires OccursAt(r, Magic() + other + [NUL], i)
    ensures OccursAt(r, Magic(), i)
  {
    var m := Magic();
    var needle := m + other + [NUL];
    hide Magic;
    assert needle[..25] == m;
    assert r[i..i + 25] == r[i..i + |needle|][..25];
  }

  lemma StampFound(r: string, at: nat, version: string)
    requires at + SLOT_SIZE <= |r| && 0 < |version| <= MAX_VERSION && OccursAt(r, Magic(), at)
    requires forall k :: 0 <= k < 39 ==> r[at + 25 + k] == Payload(version)[k]
    ensures OccursAt(r, Magic() + version + [NUL], at)
  {
    PayloadIs(version);
    var m := Magic();
    var needle := m + version + [NUL];
    OccurrenceAt(r, m, at);
    hide Magic, Payload;
    forall k | 0 <= k < |needle|
      ensures r[at + k] == needle[k]
    {
      assert k >= 25 ==> r[at + 25 + (k - 25)] == Payload(version)[k - 25];
    }
    assert r[at..at + |needle|] == needle;
  }
}
