/** Credential records, as values: lookup, and the operations on a vector of records. */
module Records {
  import opened Prelude

  type Uuid = nat

  datatype Record = Record(
    id: Uuid,
    origin: string,
    username: string,
    password: string,
    title: string,      // the source's `label`
    color: int,
    archived: bool,
    notes: Option<string>,
    createdAt: nat,
    lastUsedAt: nat)

  /** What a record is matched on. */
  datatype Key = Key(origin: string, username: string)

  function KeyOf(r: Record): Key {
    Key(r.origin, r.username)
  }

  /** Position of the first record with the key. */
  function Find(rs: seq<Record>, k: Key): (p: Option<nat>)
    ensures p.Some? ==> p.value < |rs| && KeyOf(rs[p.value]) == k
    ensures p.Some? ==> forall j :: 0 <= j < p.value ==> KeyOf(rs[j]) != k
    ensures p.None? ==> forall j :: 0 <= j < |rs| ==> KeyOf(rs[j]) != k
  {
    if rs == [] then None
    else if KeyOf(rs[0]) == k then Some(0)
    else
      var p := Find(rs[1..], k);
      if p.None? then None else Some(p.value + 1)
  }

  /** Position of the first record with the id. */
  function FindId(rs: seq<Record>, id: Uuid): (p: Option<nat>)
    ensures p.Some? ==> p.value < |rs| && rs[p.value].id == id
    ensures p.Some? ==> forall j :: 0 <= j < p.value ==> rs[j].id != id
    ensures p.None? ==> forall j :: 0 <= j < |rs| ==> rs[j].id != id
  {
    if rs == [] then None
    else if rs[0].id == id then Some(0)
    else
      var p := FindId(rs[1..], id);
      if p.None? then None else Some(p.value + 1)
  }

  ghost predicate UniqueKeys(rs: seq<Record>) {
    forall i, j {:trigger rs[i], rs[j]} :: 0 <= i < j < |rs| ==> KeyOf(rs[i]) != KeyOf(rs[j])
  }

  ghost predicate DistinctIds(rs: seq<Record>) {
    forall i, j {:trigger rs[i], rs[j]} :: 0 <= i < j < |rs| ==> rs[i].id != rs[j].id
  }

  function Ids(rs: seq<Record>): set<Uuid> {
    set i: nat | i < |rs| :: rs[i].id
  }

  // ----- fresh ids ------------------------------------------------------------

  predicate HasUnused(tape: seq<Uuid>, used: set<Uuid>) {
    exists i :: 0 <= i < |tape| && tape[i] !in used
  }

  /** Larger than every id in use. */
  ghost function AboveAll(used: set<Uuid>): (id: Uuid)
    ensures forall u :: u in used ==> u < id
  {
    if used == {} then 0
    else
      var u :| u in used;
      var rest := AboveAll(used - {u});
      assert forall v :: v in used ==> v == u || v in used - {u};
      if u < rest then rest else u + 1
  }

  ghost function OneAbove(used: set<Uuid>): (tape: seq<Uuid>)
    ensures HasUnused(tape, used)
  {
    var tape := [AboveAll(used)];
    assert tape[0] !in used;
    tape
  }

  /**
   * The random ids a caller would draw while the given ids are in use, up to an unused one.
   * Any such source is allowed; only that drawing ends is assumed.
   */
  type IdSource = f: set<Uuid> -> seq<Uuid> | forall used :: HasUnused(f(used), used)
    ghost witness OneAbove

  function FirstUnused(tape: seq<Uuid>, used: set<Uuid>): (id: Uuid)
    requires HasUnused(tape, used)
    ensures id in tape && id !in used
  {
    if tape[0] !in used then tape[0]
    else
      assert HasUnused(tape[1..], used) by {
        var i :| 0 <= i < |tape| && tape[i] !in used;
        assert tape[1..][i - 1] == tape[i];
      }
      FirstUnused(tape[1..], used)
  }

  /** The preferred id if unused, else the first unused draw. */
  function UniqueId(source: IdSource, used: set<Uuid>, preferred: Uuid): (id: Uuid)
    ensures id !in used
    ensures preferred !in used ==> id == preferred
  {
    if preferred !in used then preferred else FirstUnused(source(used), used)
  }

  // ----- automatic colours ----------------------------------------------------

  const I32: nat := 0x1_0000_0000
  const FIRST_AUTOMATIC_COLOR: int := 5
  const CARD_COLOR_COUNT: int := 9

  /** The i32 with the same low 32 bits. */
  function WrapI32(n: int): int {
    var low := n % I32;
    if low < I32 / 2 then low else low - I32
  }

  /** Rust's remainder takes the sign of the dividend. */
  function RustRem(a: int, b: int): int
    requires b > 0
  {
    if a >= 0 then a % b else -((-a) % b)
  }

  /** Colour for the next record of a store with `count` records. */
  function AutomaticColor(count: nat): int {
    RustRem(WrapI32(FIRST_AUTOMATIC_COLOR + WrapI32(count)), CARD_COLOR_COUNT)
  }

  lemma AutomaticColorInRange(count: nat)
    requires FIRST_AUTOMATIC_COLOR + count < I32 / 2
    ensures AutomaticColor(count) == (5 + count) % 9
  {
  }

  // ----- operations of the store ----------------------------------------------

  /** What creating a record takes from the outside: a random id and the clock. */
  datatype Mint = Mint(id: Uuid, now: nat)

  function NewRecord(k: Key, password: string, mint: Mint): Record {
    Record(mint.id, k.origin, k.username, password, "", FIRST_AUTOMATIC_COLOR, false, None, mint.now, mint.now)
  }

  /** The first match, live or archived, is updated in place and made live; else a record is added. */
  function Upsert(rs: seq<Record>, k: Key, password: string, title: Option<string>, mint: Mint): seq<Record> {
    var p := Find(rs, k);
    if p.Some? then
      var r := rs[p.value];
      rs[p.value := r.(password := password, title := if title.Some? then title.value else r.title,
                       archived := false, lastUsedAt := mint.now)]
    else
      rs + [NewRecord(k, password, mint)
            .(color := AutomaticColor(|rs|), title := if title.Some? then title.value else "")]
  }

  datatype Existing = Absent | Live | Archived

  function Probe(rs: seq<Record>, k: Key): Existing {
    var p := Find(rs, k);
    if p.None? then Absent else if rs[p.value].archived then Archived else Live
  }

  /** The live records of an origin, in order. */
  function LiveOf(rs: seq<Record>, origin: string): (live: seq<Record>)
    ensures forall i :: 0 <= i < |live| ==> live[i].origin == origin && !live[i].archived && live[i] in rs
  {
    if rs == [] then []
    else (if !rs[0].archived && rs[0].origin == origin then [rs[0]] else []) + LiveOf(rs[1..], origin)
  }

  /** The first of the records with the username. */
  function Named(rs: seq<Record>, username: string): (r: Option<Record>)
    ensures r.Some? ==> r.value in rs && r.value.username == username
    ensures r.None? ==> forall i :: 0 <= i < |rs| ==> rs[i].username != username
  {
    if rs == [] then None
    else if rs[0].username == username then Some(rs[0])
    else Named(rs[1..], username)
  }

  /**
   * Upsert fixes the first match of any kind; the fill path then picks the first live match.
   * They are the same record, duplicates and archived copies notwithstanding.
   */
  lemma {:induction false} UpsertThenFill(rs: seq<Record>, k: Key, password: string, title: Option<string>, mint: Mint)
    ensures var r := Named(LiveOf(Upsert(rs, k, password, title, mint), k.origin), k.username);
            r.Some? && r.value.password == password
  {
    var after := Upsert(rs, k, password, title, mint);
    var p := if Find(rs, k).Some? then Find(rs, k).value else |rs|;
    FindIs(after, k, p);
    assert !after[p].archived && after[p].password == password;
    FirstLiveIsFirst(after, k);
  }

  lemma {:induction false} FindIs(rs: seq<Record>, k: Key, p: nat)
    requires p < |rs| && KeyOf(rs[p]) == k && forall j :: 0 <= j < p ==> KeyOf(rs[j]) != k
    ensures Find(rs, k) == Some(p)
  {
  }

  lemma {:induction false} FirstLiveIsFirst(rs: seq<Record>, k: Key)
    requires Find(rs, k).Some? ==> !rs[Find(rs, k).value].archived
    ensures Named(LiveOf(rs, k.origin), k.username)
         == if Find(rs, k).Some? then Some(rs[Find(rs, k).value]) else None
  {
    if rs != [] {
      var later := LiveOf(rs[1..], k.origin);
      if rs[0].archived || rs[0].origin != k.origin {
        assert LiveOf(rs, k.origin) == later;
      } else {
        assert LiveOf(rs, k.origin) == [rs[0]] + later;
        assert ([rs[0]] + later)[1..] == later;
      }
      if KeyOf(rs[0]) != k {
        FirstLiveIsFirst(rs[1..], k);
      }
    }
  }

  /** Upsert touches one record: every other position is unchanged, and no key or id changes. */
  lemma UpsertFrame(rs: seq<Record>, k: Key, password: string, title: Option<string>, mint: Mint)
    ensures var after := Upsert(rs, k, password, title, mint);
            && |rs| <= |after|
            && (forall j :: 0 <= j < |rs| ==> KeyOf(after[j]) == KeyOf(rs[j]) && after[j].id == rs[j].id)
            && (forall j :: 0 <= j < |rs| && Find(rs, k) != Some(j) ==> after[j] == rs[j])
            && (UniqueKeys(rs) ==> UniqueKeys(after))
  {
    var after := Upsert(rs, k, password, title, mint);
    forall i, j | 0 <= i < j < |after| && UniqueKeys(rs) ensures KeyOf(after[i]) != KeyOf(after[j]) {
      assert i < |rs| && KeyOf(after[i]) == KeyOf(rs[i]);
    }
  }

  datatype StoreError = NotFound | NotArchived

  function UpdateById(rs: seq<Record>, id: Uuid, f: Record -> Record): Result<seq<Record>, StoreError> {
    var p := FindId(rs, id);
    if p.None? then Err(NotFound) else Ok(rs[p.value := f(rs[p.value])])
  }

  function DeleteForever(rs: seq<Record>, id: Uuid): Result<seq<Record>, StoreError> {
    var p := FindId(rs, id);
    if p.None? then Err(NotFound)
    else if !rs[p.value].archived then Err(NotArchived)
    else Ok(rs[..p.value] + rs[p.value + 1..])
  }
}
