/** The deck home as the migration sees it: which paths hold what, and which of them it may touch. */
module DeckHome {
  import opened Prelude

  /** A path relative to the deck home, one component per element. */
  type Path = seq<string>

  /** A directory entry that is not a directory; only regular files can equal a staged copy. */
  datatype Entry = Regular(bytes: string) | Special(size: nat)

  function Size(e: Entry): nat {
    if e.Regular? then |e.bytes| else e.size
  }

  /** The marker file, reduced to the archive it names. */
  datatype Record = Record(movedAside: Option<nat>)

  /** The deck home, and the archive directory each forced run opened, oldest first. */
  datatype Deck = Deck(
    files: map<Path, Entry>,
    dirs: set<Path>,
    archives: seq<map<Path, Entry>>,
    marker: Option<Record>)

  /** What a run migrates: databases first, then all other files, each with its staged copy. */
  datatype Plan = Plan(dbs: seq<Path>, others: seq<Path>, stage: map<Path, string>)

  function Transfer(plan: Plan): seq<Path> {
    plan.dbs + plan.others
  }

  predicate EndsWith(s: string, suffix: string) {
    |suffix| <= |s| && s[|s| - |suffix|..] == suffix
  }

  function Sibling(p: Path, suffix: string): Path {
    if p == [] then [suffix] else p[..|p| - 1] + [Last(p) + suffix]
  }

  const SUFFIXES: set<string> := {"-wal", "-shm", "-journal"}

  /** A database and the journal files SQLite may keep beside it. */
  function Family(db: Path): set<Path> {
    {db, Sibling(db, "-wal"), Sibling(db, "-shm"), Sibling(db, "-journal")}
  }

  function Sidecars(plan: Plan): set<Path> {
    set db, suffix | db in plan.dbs && suffix in SUFFIXES :: Sibling(db, suffix)
  }

  const DECK_STATE: set<Path> := {
    ["deck.db"], ["deck.db-wal"], ["deck.db-shm"],
    ["telegram-bridge.db"], ["telegram-bridge.db-wal"], ["telegram-bridge.db-shm"],
    ["uploads"], ["routine-runs"], [".env"], ["onboarding.json"]
  }

  function StatePaths(plan: Plan): set<Path> {
    DECK_STATE + ToSet(Transfer(plan)) + Sidecars(plan)
  }

  /** Distinct destinations, none inside another, none a journal file; databases are named `*.db`. */
  ghost predicate Good(plan: Plan) {
    && NoDuplicates(Transfer(plan))
    && ToSet(Transfer(plan)) == plan.stage.Keys
    && (forall p, q :: p in plan.stage && q in plan.stage ==> !(p < q))
    && Sidecars(plan) !! plan.stage.Keys
    && (forall p :: p in plan.stage ==> p != [])
    && (forall db :: db in plan.dbs ==> db != [] && EndsWith(Last(db), ".db"))
  }

  lemma EverythingStaged(plan: Plan)
    requires Good(plan)
    ensures ToSet(Transfer(plan)) <= plan.stage.Keys
  {
  }

  // ---------------------------------------------------------------- classification

  predicate IsState(plan: Plan, p: Path) {
    exists s :: s in StatePaths(plan) && s <= p
  }

  function Conflicts(d: Deck, plan: Plan): set<Path> {
    set p | p in d.files && IsState(plan, p)
  }

  predicate SameFile(files: map<Path, Entry>, p: Path, stage: map<Path, string>) {
    p in files && p in stage && files[p] == Regular(stage[p])
  }

  function Identical(d: Deck, plan: Plan): set<Path> {
    set p | p in Conflicts(d, plan) && SameFile(d.files, p, plan.stage)
  }

  /** A leftover of merely opening a database: it holds no data of its own. */
  predicate Inert(plan: Plan, p: Path, e: Entry) {
    p in Sidecars(plan) && ((p != [] && EndsWith(Last(p), "-shm")) || Size(e) == 0)
  }

  function Differing(d: Deck, plan: Plan): set<Path> {
    set p | p in Conflicts(d, plan) && !SameFile(d.files, p, plan.stage) && !Inert(plan, p, d.files[p])
  }

  predicate Owned(plan: Plan, p: Path) {
    p in Sidecars(plan) || exists t :: t in Transfer(plan) && (t <= p || p <= t)
  }

  function OwnDiffering(d: Deck, plan: Plan): set<Path> {
    set p | p in Differing(d, plan) && Owned(plan, p)
  }

  predicate FamilyDisturbed(d: Deck, plan: Plan, db: Path) {
    exists q :: q in Family(db) && q in OwnDiffering(d, plan)
  }

  /** What a forced run moves aside: owned differing files, and whole database families. */
  function Displaced(d: Deck, plan: Plan): set<Path> {
    OwnDiffering(d, plan) +
    set db, p | db in plan.dbs && FamilyDisturbed(d, plan, db) && p in Family(db) && p in Conflicts(d, plan) :: p
  }

  // ---------------------------------------------------------------- the moves

  function Ancestors(p: Path): set<Path> {
    set k | 0 <= k < |p| :: p[..k]
  }

  /** A link to `p` fails: it exists, or a directory on the way is not one. */
  predicate Obstructed(d: Deck, p: Path) {
    p in d.files || p in d.dirs || exists q :: q in Ancestors(p) && q in d.files
  }

  function Install(d: Deck, p: Path, bytes: string): Deck {
    d.(files := d.files[p := Regular(bytes)], dirs := d.dirs + Ancestors(p))
  }

  /** The part of `files` at `s`. */
  function Taken(files: map<Path, Entry>, s: set<Path>): map<Path, Entry> {
    map p | p in s && p in files :: files[p]
  }

  /** The deck after `s` went to a new archive. */
  function MoveAside(d: Deck, s: set<Path>): Deck {
    d.(files := d.files - s, archives := d.archives + [Taken(d.files, s)])
  }

  datatype Outcome =
    | Done(installed: nat)
    | AlreadyMigrated
    | Refused(differing: set<Path>)
    | Blocked(at: Path)
    | Crashed

  datatype Progress = Going(deck: Deck, left: Option<nat>) | Stopped(deck: Deck, why: Outcome)

  function Spend(b: Option<nat>, n: nat): Option<nat> {
    if b.None? || b.value < n then b else Some(b.value - n)
  }

  /** The install loop; `b` counts the moves the run makes before it is cut off. */
  function Fill(d: Deck, stage: map<Path, string>, ts: seq<Path>, b: Option<nat>): Progress
    requires ToSet(ts) <= stage.Keys
    decreases |ts|
  {
    if ts == [] then Going(d, b)
    else
      var p, rest := ts[0], ts[1..];
      assert p in ToSet(ts) && forall q :: q in rest ==> q in ToSet(ts);
      if SameFile(d.files, p, stage) then Fill(d, stage, rest, b)
      else if b == Some(0) then Stopped(d, Crashed)
      else if Obstructed(d, p) then Stopped(d, Blocked(p))
      else Fill(Install(d, p, stage[p]), stage, rest, Spend(b, 1))
  }

  /** The destinations that do not yet hold their staged copy. */
  function Missing(files: map<Path, Entry>, stage: map<Path, string>, ts: seq<Path>): seq<Path> {
    if ts == [] then []
    else
      (if SameFile(files, ts[0], stage) then [] else [ts[0]]) + Missing(files, stage, ts[1..])
  }

  ghost predicate Enumerates(order: seq<Path>, s: set<Path>) {
    NoDuplicates(order) && ToSet(order) == s
  }

  function Min(b: Option<nat>, n: nat): (m: nat)
    ensures m <= n
  {
    if b.Some? && b.value < n then b.value else n
  }

  datatype Result = Result(deck: Deck, outcome: Outcome)

  function Publish(d: Deck, plan: Plan, out: set<Path>, start: Deck, b: Option<nat>): Result
    requires ToSet(Transfer(plan)) <= plan.stage.Keys
  {
    var installed := |Missing(start.files, plan.stage, Transfer(plan))|;
    match Fill(start, plan.stage, Transfer(plan), b)
    case Stopped(at, why) => Result(at, why)
    case Going(at, left) =>
      if left == Some(0) then Result(at, Crashed)
      else if d.marker.None? || installed > 0 || out != {} then
        Result(at.(marker := Some(Record(if out != {} then Some(|d.archives|) else None))), Done(installed))
      else Result(at, Done(installed))
  }

  /** One attempt; `order` is the order in which it moves files aside, `b` when it is cut off, if ever. */
  function Attempt(d: Deck, plan: Plan, force: bool, order: seq<Path>, b: Option<nat>): Result
    requires ToSet(Transfer(plan)) <= plan.stage.Keys
  {
    var out := Displaced(d, plan);
    if d.marker.Some? && !force then Result(d, AlreadyMigrated)
    else if Differing(d, plan) != {} && !force then Result(d, Refused(Differing(d, plan)))
    else if out == {} then Publish(d, plan, out, d, b)
    else
      var start := MoveAside(d, ToSet(order[..Min(b, |order|)]));
      if b.Some? && b.value < |order| then Result(start, Crashed)
      else Publish(d, plan, out, start, Spend(b, |order|))
  }
}
