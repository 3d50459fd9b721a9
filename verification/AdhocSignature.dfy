/** Refreshing the page hashes of an ad-hoc signature in place. */
module AdhocSignature {
  import opened Prelude
  import opened NativeStamp

  /** The fields of a code directory that the hash loop reads; `base` is where its first code slot lies. */
  datatype Directory = Directory(
    base: nat, slots: nat, codeLimit: nat, adhoc: bool, hashType: nat, hashSize: nat, pageBits: nat)

  datatype SignatureError = SignedByIdentity | UnsupportedHash | SlotOutside
  datatype Refresh = Refreshed(changed: bool) | Refused(error: SignatureError)

  function DigestSize(hashType: nat): Option<nat> {
    if hashType == 1 then Some(20) else if hashType == 2 then Some(32) else if hashType == 3 then Some(20) else None
  }

  function Pow2(n: nat): (r: nat)
    ensures r > 0
  {
    if n == 0 then 1 else 2 * Pow2(n - 1)
  }

  function Slot(d: Directory, page: nat): nat {
    d.base + page * d.hashSize
  }

  function AreaEnd(d: Directory): nat {
    Slot(d, d.slots)
  }

  /** The bytes a slot hashes: its page, cut at the code limit and at the end of the file. */
  function Page(s: string, d: Directory, page: nat): string {
    var start := page * Pow2(d.pageBits);
    var full := start + Pow2(d.pageBits);
    var limit := if full < d.codeLimit then full else d.codeLimit;
    var end := if limit < |s| then limit else |s|;
    if start < end then s[start..end] else ""
  }

  /** What slot `page` should hold; `digest` is the hash function of a type, at least as long as the stored hash. */
  function Hash(digest: (nat, string) -> string, s: string, d: Directory, page: nat): (h: string)
    ensures |h| == d.hashSize
  {
    var full := digest(d.hashType, Page(s, d, page));
    if |full| < d.hashSize then full + Zeros(d.hashSize - |full|) else full[..d.hashSize]
  }

  /** The file after the first `n` slots were refreshed. */
  function Fill(digest: (nat, string) -> string, s: string, d: Directory, n: nat): (r: string)
    requires AreaEnd(d) <= |s| && n <= d.slots
    ensures |r| == |s|
  {
    if n == 0 then s
    else
      var before := Fill(digest, s, d, n - 1);
      SlotsInOrder(d, n - 1, d.slots);
      WriteAt(before, Slot(d, n - 1), Hash(digest, before, d, n - 1))
  }

  lemma NextSlot(d: Directory, p: nat)
    ensures Slot(d, p + 1) == Slot(d, p) + d.hashSize
  {
    assert (p + 1) * d.hashSize == p * d.hashSize + d.hashSize;
  }

  lemma {:induction false} SlotsInOrder(d: Directory, p: nat, q: nat)
    requires p < q
    ensures d.base <= Slot(d, p) && Slot(d, p) + d.hashSize <= Slot(d, q)
    decreases q
  {
    assert Slot(d, p) >= d.base by {
      assert p * d.hashSize >= 0;
    }
    hide Slot;
    NextSlot(d, q - 1);
    if p < q - 1 {
      SlotsInOrder(d, p, q - 1);
    }
  }

  /** SHA-1, SHA-256 and SHA-256 cut to 20 bytes are supported, each with its own hash size. */
  predicate Usable(d: Directory): (usable: bool)
    ensures usable <==> d.adhoc && (d.hashType, d.hashSize) in {(1, 20), (2, 32), (3, 20)}
  {
    d.adhoc && DigestSize(d.hashType) == Some(d.hashSize)
  }

  function FillAll(digest: (nat, string) -> string, s: string, dirs: seq<Directory>, n: nat): (r: string)
    requires n <= |dirs| && forall i :: 0 <= i < n ==> AreaEnd(dirs[i]) <= |s|
    ensures |r| == |s|
  {
    if n == 0 then s
    else
      var before := FillAll(digest, s, dirs, n - 1);
      Fill(digest, before, dirs[n - 1], dirs[n - 1].slots)
  }

  predicate AllUsable(dirs: seq<Directory>, length: nat) {
    forall i :: 0 <= i < |dirs| ==> Usable(dirs[i]) && AreaEnd(dirs[i]) <= length
  }

  // ---------------------------------------------------------------- what a page is

  /** A page has one byte at zero bits, and each bit doubles it. */
  lemma {:induction false} PageSizes(a: nat, b: nat)
    ensures Pow2(0) == 1 && Pow2(a + 1) == 2 * Pow2(a)
    ensures Pow2(a + b) == Pow2(a) * Pow2(b)
  {
    if b > 0 {
      PageSizes(a, b - 1);
      assert Pow2(a + b) == 2 * Pow2(a + (b - 1));
      assert Pow2(a) * (2 * Pow2(b - 1)) == 2 * (Pow2(a) * Pow2(b - 1));
    }
  }

  function Pages(s: string, d: Directory, n: nat): string {
    if n == 0 then "" else Pages(s, d, n - 1) + Page(s, d, n - 1)
  }

  function PageEnd(d: Directory, n: nat): nat {
    if n * Pow2(d.pageBits) < d.codeLimit then n * Pow2(d.pageBits) else d.codeLimit
  }

  /** Each page starts where the one before it ended, and is cut only by the code limit. */
  lemma PageIs(s: string, d: Directory, page: nat)
    requires d.codeLimit <= |s|
    ensures PageEnd(d, page) <= PageEnd(d, page + 1) && Page(s, d, page) == s[PageEnd(d, page)..PageEnd(d, page + 1)]
    ensures (page + 1) * Pow2(d.pageBits) <= d.codeLimit ==> |Page(s, d, page)| == Pow2(d.pageBits)
  {
    hide Pow2;
    var size := Pow2(d.pageBits);
    assert (page + 1) * size == page * size + size;
  }

  /** The pages are the code, cut into equal pieces: together they are the bytes up to the code limit. */
  lemma {:induction false} PagesAreTheCode(s: string, d: Directory, n: nat)
    requires d.codeLimit <= |s|
    ensures Pages(s, d, n) == s[..PageEnd(d, n)]
    ensures n * Pow2(d.pageBits) >= d.codeLimit ==> Pages(s, d, n) == s[..d.codeLimit]
  {
    hide Page, Pow2;
    if n > 0 {
      PagesAreTheCode(s, d, n - 1);
      PageIs(s, d, n - 1);
    } else {
      assert PageEnd(d, 0) == 0 by {
        assert 0 * Pow2(d.pageBits) == 0;
      }
    }
  }

  // ---------------------------------------------------------------- the loop

  method RefreshDirectory(bytes: array<char>, d: Directory, digest: (nat, string) -> string) returns (changed: bool)
    requires AreaEnd(d) <= bytes.Length
    modifies bytes
    ensures bytes[..] == Fill(digest, old(bytes[..]), d, d.slots)
    ensures !changed ==> bytes[..] == old(bytes[..])
  {
    hide Hash, Slot;
    changed := false;
    ghost var s := bytes[..];
    for page := 0 to d.slots
      invariant bytes[..] == Fill(digest, s, d, page)
      invariant !changed ==> bytes[..] == s
    {
      SlotsInOrder(d, page, d.slots);
      var at, want := Slot(d, page), Hash(digest, bytes[..], d, page);
      assert AreaEnd(d) == Slot(d, d.slots);
      if bytes[at..at + d.hashSize] != want {
        Copy(bytes, at, want);
        changed := true;
      } else {
        assert WriteAt(bytes[..], at, want) == bytes[..];
      }
    }
  }

  /** Directory `i` is the first that cannot be refreshed; those before it have been. */
  ghost predicate StopsAt(
    digest: (nat, string) -> string, s: string, dirs: seq<Directory>, i: nat, error: SignatureError, r: string)
  {
    && i < |dirs| && AllUsable(dirs[..i], |s|)
    && (forall j :: 0 <= j < i ==> AreaEnd(dirs[j]) <= |s|) && r == FillAll(digest, s, dirs, i)
    && match error
       case SignedByIdentity => !dirs[i].adhoc
       case UnsupportedHash => dirs[i].adhoc && !Usable(dirs[i])
       case SlotOutside => Usable(dirs[i]) && AreaEnd(dirs[i]) > |s|
  }

  /** Directories are refreshed in turn; the first one that cannot be ends the run. */
  method RefreshAdhocSignature(bytes: array<char>, dirs: seq<Directory>, digest: (nat, string) -> string) returns (r: Refresh)
    modifies bytes
    ensures r.Refreshed? <==> AllUsable(dirs, bytes.Length)
    ensures r.Refreshed? ==> bytes[..] == FillAll(digest, old(bytes[..]), dirs, |dirs|)
    ensures r.Refreshed? && !r.changed ==> bytes[..] == old(bytes[..])
    ensures r.Refused? ==> exists i :: StopsAt(digest, old(bytes[..]), dirs, i, r.error, bytes[..])
  {
    hide Fill, AreaEnd;
    var changed := false;
    for i := 0 to |dirs|
      invariant forall j :: 0 <= j < i ==> Usable(dirs[j]) && AreaEnd(dirs[j]) <= bytes.Length
      invariant bytes[..] == FillAll(digest, old(bytes[..]), dirs, i)
      invariant !changed ==> bytes[..] == old(bytes[..])
    {
      if !dirs[i].adhoc {
        assert StopsAt(digest, old(bytes[..]), dirs, i, SignedByIdentity, bytes[..]);
        return Refused(SignedByIdentity);
      }
      if DigestSize(dirs[i].hashType) != Some(dirs[i].hashSize) {
        assert StopsAt(digest, old(bytes[..]), dirs, i, UnsupportedHash, bytes[..]);
        return Refused(UnsupportedHash);
      }
      if AreaEnd(dirs[i]) > bytes.Length {
        assert StopsAt(digest, old(bytes[..]), dirs, i, SlotOutside, bytes[..]);
        return Refused(SlotOutside);
      }
      var one := RefreshDirectory(bytes, dirs[i], digest);
      changed := changed || one;
    }
    return Refreshed(changed);
  }

  // ---------------------------------------------------------------- what the refreshed file is

  predicate InArea(d: Directory, k: int) {
    d.base <= k < AreaEnd(d)
  }

  /** Signature areas lie past every code limit, and do not overlap. */
  ghost predicate Laid(dirs: seq<Directory>) {
    && (forall i, j :: 0 <= i < |dirs| && 0 <= j < |dirs| ==> dirs[i].codeLimit <= dirs[j].base)
    && (forall i, j, k :: 0 <= i < j < |dirs| && InArea(dirs[i], k) ==> !InArea(dirs[j], k))
  }

  predicate SlotHolds(digest: (nat, string) -> string, s: string, d: Directory, page: nat)
    requires Slot(d, page) + d.hashSize <= |s|
  {
    s[Slot(d, page)..Slot(d, page) + d.hashSize] == Hash(digest, s, d, page)
  }

  lemma SamePage(a: string, b: string, d: Directory, page: nat)
    requires |a| == |b| && forall k :: 0 <= k < d.codeLimit && k < |a| ==> a[k] == b[k]
    ensures Page(a, d, page) == Page(b, d, page)
  {
  }

  lemma {:induction false} FillOutside(digest: (nat, string) -> string, s: string, d: Directory, n: nat, k: nat)
    requires AreaEnd(d) <= |s| && n <= d.slots && k < |s| && !InArea(d, k)
    ensures Fill(digest, s, d, n)[k] == s[k]
  {
    hide Hash, Slot, WriteAt;
    if n > 0 {
      FillOutside(digest, s, d, n - 1, k);
      SlotsInOrder(d, n - 1, d.slots);
    }
  }

  lemma {:induction false} FillHolds(digest: (nat, string) -> string, s: string, d: Directory, n: nat, page: nat)
    requires AreaEnd(d) <= |s| && page < n <= d.slots && d.codeLimit <= d.base
    ensures Slot(d, page) + d.hashSize <= |s| && SlotHolds(digest, Fill(digest, s, d, n), d, page)
    decreases n
  {
    hide WriteAt, Slot, Hash;
    SlotsInOrder(d, page, d.slots);
    SlotsInOrder(d, n - 1, d.slots);
    var before, after := Fill(digest, s, d, n - 1), Fill(digest, s, d, n);
    var at, h := Slot(d, n - 1), Hash(digest, before, d, n - 1);
    assert after == WriteAt(before, at, h);
    if page == n - 1 {
      assert after[at..at + |h|] == h;
      SameHash(digest, before, after, d, page);
    } else {
      FillHolds(digest, s, d, n - 1, page);
      SlotsInOrder(d, page, n - 1);
      KeepsSlot(digest, before, after, d, page);
    }
  }

  lemma SameHash(digest: (nat, string) -> string, a: string, b: string, d: Directory, page: nat)
    requires |a| == |b| && forall k :: 0 <= k < d.codeLimit && k < |a| ==> a[k] == b[k]
    ensures Hash(digest, a, d, page) == Hash(digest, b, d, page)
  {
    SamePage(a, b, d, page);
  }

  ghost predicate InSomeArea(dirs: seq<Directory>, n: nat, k: int)
    requires n <= |dirs|
  {
    exists i :: 0 <= i < n && dirs[i].base <= k < dirs[i].base + dirs[i].slots * dirs[i].hashSize
  }

  lemma {:induction false} FillAllOutside(digest: (nat, string) -> string, s: string, dirs: seq<Directory>, n: nat, k: nat)
    requires n <= |dirs| && (forall i :: 0 <= i < n ==> AreaEnd(dirs[i]) <= |s|) && k < |s| && !InSomeArea(dirs, n, k)
    ensures FillAll(digest, s, dirs, n)[k] == s[k]
  {
    hide Fill;
    if n > 0 {
      assert !InArea(dirs[n - 1], k);
      FillAllOutside(digest, s, dirs, n - 1, k);
      FillOutside(digest, FillAll(digest, s, dirs, n - 1), dirs[n - 1], dirs[n - 1].slots, k);
    }
  }

  lemma SlotInFile(d: Directory, page: nat, length: nat)
    requires page < d.slots && AreaEnd(d) <= length
    ensures Slot(d, page) + d.hashSize <= length
    ensures forall k :: Slot(d, page) <= k < Slot(d, page) + d.hashSize ==> InArea(d, k)
  {
    SlotsInOrder(d, page, d.slots);
  }

  lemma {:induction false} FillAllHolds(digest: (nat, string) -> string, s: string, dirs: seq<Directory>, n: nat, i: nat, page: nat)
    requires n <= |dirs| && AllUsable(dirs, |s|) && Laid(dirs) && i < n && page < dirs[i].slots
    ensures Slot(dirs[i], page) + dirs[i].hashSize <= |s|
    ensures SlotHolds(digest, FillAll(digest, s, dirs, n), dirs[i], page)
    decreases n
  {
    hide Fill, Hash, Slot, Usable, SlotHolds, InArea;
    var d, last := dirs[i], dirs[n - 1];
    var before := FillAll(digest, s, dirs, n - 1);
    SlotInFile(d, page, |s|);
    if i == n - 1 {
      FillHolds(digest, before, d, d.slots, page);
    } else {
      FillAllHolds(digest, s, dirs, n - 1, i, page);
      LaterDirectory(digest, before, d, last, page);
    }
  }

  lemma LaterDirectory(digest: (nat, string) -> string, s: string, d: Directory, last: Directory, page: nat)
    requires page < d.slots && AreaEnd(d) <= |s| && AreaEnd(last) <= |s| && d.codeLimit <= last.base
    requires forall k :: InArea(d, k) ==> !InArea(last, k)
    requires Slot(d, page) + d.hashSize <= |s| && SlotHolds(digest, s, d, page)
    ensures SlotHolds(digest, Fill(digest, s, last, last.slots), d, page)
  {
    hide Fill, Hash, Slot, SlotHolds;
    SlotInFile(d, page, |s|);
    var after := Fill(digest, s, last, last.slots);
    forall k | 0 <= k < |s| && !InArea(last, k)
      ensures after[k] == s[k]
    {
      FillOutside(digest, s, last, last.slots, k);
    }
    KeepsSlot(digest, s, after, d, page);
  }

  lemma KeepsSlot(digest: (nat, string) -> string, a: string, b: string, d: Directory, page: nat)
    requires |a| == |b| && Slot(d, page) + d.hashSize <= |a| && SlotHolds(digest, a, d, page)
    requires forall k :: 0 <= k < d.codeLimit && k < |a| ==> b[k] == a[k]
    requires forall k :: Slot(d, page) <= k < Slot(d, page) + d.hashSize ==> b[k] == a[k]
    ensures SlotHolds(digest, b, d, page)
  {
    SameHash(digest, a, b, d, page);
    var at := Slot(d, page);
    hide Slot, Hash;
    assert b[at..at + d.hashSize] == a[at..at + d.hashSize];
  }

  /** Slot `page` holds the first bytes of the digest of the code from where page `page` starts to where the next one does. */
  ghost predicate Signed(digest: (nat, string) -> string, s: string, d: Directory, page: nat) {
    var at, from, to := d.base + page * d.hashSize, PageEnd(d, page), PageEnd(d, page + 1);
    && from <= to <= |s| && at + d.hashSize <= |s|
    && var full := digest(d.hashType, s[from..to]);
       |full| >= d.hashSize ==> s[at..at + d.hashSize] == full[..d.hashSize]
  }

  lemma HoldsIsSigned(digest: (nat, string) -> string, s: string, d: Directory, page: nat)
    requires d.codeLimit <= |s| && Slot(d, page) + d.hashSize <= |s| && SlotHolds(digest, s, d, page)
    ensures Signed(digest, s, d, page)
  {
    PageIs(s, d, page);
    hide Page, PageEnd;
  }

  /** Every code slot holds the truncated hash of its page, and only slots changed. */
  lemma RefreshedIsValid(digest: (nat, string) -> string, s: string, dirs: seq<Directory>)
    requires AllUsable(dirs, |s|) && Laid(dirs)
    ensures var r := FillAll(digest, s, dirs, |dirs|);
      (forall i, page: nat :: 0 <= i < |dirs| && page < dirs[i].slots ==> Signed(digest, r, dirs[i], page)) &&
      forall k :: 0 <= k < |s| && !InSomeArea(dirs, |dirs|, k) ==> r[k] == s[k]
  {
    assert forall i :: 0 <= i < |dirs| ==> AreaEnd(dirs[i]) <= |s|;
    forall i | 0 <= i < |dirs|
      ensures dirs[i].codeLimit <= |s|
    {
      LimitInFile(dirs[i], |s|);
    }
    hide SlotHolds, Slot, FillAll, InSomeArea, AllUsable, Signed;
    forall i: nat, page: nat | i < |dirs| && page < dirs[i].slots
      ensures Signed(digest, FillAll(digest, s, dirs, |dirs|), dirs[i], page)
    {
      FillAllHolds(digest, s, dirs, |dirs|, i, page);
      HoldsIsSigned(digest, FillAll(digest, s, dirs, |dirs|), dirs[i], page);
    }
    forall k | 0 <= k < |s| && !InSomeArea(dirs, |dirs|, k)
      ensures FillAll(digest, s, dirs, |dirs|)[k] == s[k]
    {
      FillAllOutside(digest, s, dirs, |dirs|, k);
    }
  }

  lemma LimitInFile(d: Directory, length: nat)
    requires d.codeLimit <= d.base && AreaEnd(d) <= length
    ensures d.codeLimit <= length
  {
    assert d.slots * d.hashSize >= 0;
  }

  /** Stamping and refreshing changes the version payload and code slots only, and leaves every slot valid. */
  lemma StampedAndRefreshed(digest: (nat, string) -> string, s: string, version: string, dirs: seq<Directory>)
    requires StampBytes(s, version).Stamped? && AllUsable(dirs, |s|) && Laid(dirs)
    ensures var r := FillAll(digest, StampBytes(s, version).bytes, dirs, |dirs|);
      var at := IndexOf(s, Magic(), 0);
      (forall i, page: nat :: 0 <= i < |dirs| && page < dirs[i].slots ==> Signed(digest, r, dirs[i], page)) &&
      forall k :: 0 <= k < |s| && !(at + 25 <= k < at + 64) && !InSomeArea(dirs, |dirs|, k) ==> r[k] == s[k]
  {
    hide Signed, Slot, FillAll, InSomeArea, Payload, StampBytes, IndexOf, Laid, Magic;
    StampShape(s, version);
    RefreshedIsValid(digest, StampBytes(s, version).bytes, dirs);
  }
}
