/**
 * Bulk merges into the store: backup records (`restore_many`) and CSV items (`import_many`)
 * under the three conflict policies, as one fold over the batch.
 */
module BulkMerge {
  import opened Prelude
  import opened Records

  datatype Policy = Skip | Replace | KeepBoth

  datatype ImportItem =
    ImportItem(origin: string, username: string, password: string, title: string, notes: string)

  /** One element of a batch; a CSV item comes with what creating its record would take. */
  datatype Incoming =
    | Backup(record: Record)
    | Csv(item: ImportItem, mint: Mint)

  function KeyIn(inc: Incoming): Key {
    match inc
    case Backup(r) => KeyOf(r)
    case Csv(item, _) => Key(item.origin, item.username)
  }

  function Marked(title: string, mark: string): string {
    if title == "" then mark else title + " " + mark
  }

  function NotesOf(notes: string, otherwise: Option<string>): Option<string> {
    if notes != "" then Some(notes) else otherwise
  }

  /** The record a conflict overwrites: a backup keeps the row's id, a CSV item its native fields. */
  function Overwrite(old_: Record, inc: Incoming): Record {
    match inc
    case Backup(r) => r.(id := old_.id)
    case Csv(item, _) =>
      old_.(password := item.password,
            title := if item.title != "" then item.title else old_.title,
            notes := NotesOf(item.notes, old_.notes),
            archived := false)
  }

  /** The record added to a store with `count` records and the given ids. */
  function Added(count: nat, used: set<Uuid>, inc: Incoming, source: IdSource): Record {
    match inc
    case Backup(r) => r.(id := UniqueId(source, used, r.id))
    case Csv(item, mint) =>
      NewRecord(Key(item.origin, item.username), item.password, mint)
      .(color := AutomaticColor(count), title := item.title, notes := NotesOf(item.notes, None))
  }

  /** The copy kept beside an existing record says where it came from. */
  function Mark(r: Record, inc: Incoming): Record {
    r.(title := Marked(r.title, if inc.Backup? then "(restored)" else "(imported)"))
  }

  datatype Merged = Merged(records: seq<Record>, imported: nat, skipped: nat, replaced: nat)

  function MergeOne(m: Merged, inc: Incoming, policy: Policy, source: IdSource): Merged {
    var rs := m.records;
    var added := Added(|rs|, Ids(rs), inc, source);
    match Find(rs, KeyIn(inc))
    case None => m.(records := rs + [added], imported := m.imported + 1)
    case Some(p) =>
      match policy
      case Skip => m.(skipped := m.skipped + 1)
      case Replace => m.(records := rs[p := Overwrite(rs[p], inc)], replaced := m.replaced + 1)
      case KeepBoth => m.(records := rs + [Mark(added, inc)], imported := m.imported + 1)
  }

  function Merge(rs: seq<Record>, batch: seq<Incoming>, policy: Policy, source: IdSource): Merged {
    if batch == [] then Merged(rs, 0, 0, 0)
    else
      var n := |batch| - 1;
      MergeOne(Merge(rs, batch[..n], policy, source), batch[n], policy, source)
  }

  lemma MergeLast(rs: seq<Record>, batch: seq<Incoming>, policy: Policy, source: IdSource)
    requires batch != []
    ensures var n := |batch| - 1;
            Merge(rs, batch, policy, source)
            == MergeOne(Merge(rs, batch[..n], policy, source), batch[n], policy, source)
  {
  }

  function Backups(records: seq<Record>): seq<Incoming> {
    seq(|records|, i requires 0 <= i < |records| => Backup(records[i]))
  }

  lemma BackupsSnoc(records: seq<Record>, n: nat)
    requires n < |records|
    ensures Backups(records[..n + 1])[..n] == Backups(records[..n])
    ensures Backups(records[..n + 1])[n] == Backup(records[n])
  {
  }

  // ----- every policy ---------------------------------------------------------

  /** Nothing is lost: every batch element is counted once, and the store grows by the imported. */
  lemma {:induction false} Conservation(rs: seq<Record>, batch: seq<Incoming>, policy: Policy, source: IdSource)
    ensures var m := Merge(rs, batch, policy, source);
            && m.imported + m.skipped + m.replaced == |batch|
            && |m.records| == |rs| + m.imported
            && (policy != Skip ==> m.skipped == 0) && (policy != Replace ==> m.replaced == 0)
  {
    if batch != [] {
      Conservation(rs, batch[..|batch| - 1], policy, source);
    }
  }

  /** A merge that counts nothing imported or replaced left every record as it was. */
  lemma {:induction false} NothingCountedNothingChanged(rs: seq<Record>, batch: seq<Incoming>, policy: Policy,
                                                        source: IdSource)
    requires var m := Merge(rs, batch, policy, source); m.imported == 0 && m.replaced == 0
    ensures Merge(rs, batch, policy, source).records == rs
  {
    if batch != [] {
      NothingCountedNothingChanged(rs, batch[..|batch| - 1], policy, source);
    }
  }

  /** Existing rows keep their position, key and id. */
  lemma {:induction false} RowsStay(rs: seq<Record>, batch: seq<Incoming>, policy: Policy, source: IdSource)
    ensures var after := Merge(rs, batch, policy, source).records;
            && |rs| <= |after|
            && forall j :: 0 <= j < |rs| ==> KeyOf(after[j]) == KeyOf(rs[j]) && after[j].id == rs[j].id
  {
    if batch != [] {
      RowsStay(rs, batch[..|batch| - 1], policy, source);
    }
  }

  /** Distinct ids stay distinct when restoring, even if the backup repeats ids. */
  lemma {:induction false} IdsStayDistinct(rs: seq<Record>, records: seq<Record>, policy: Policy, source: IdSource)
    requires DistinctIds(rs)
    ensures DistinctIds(Merge(rs, Backups(records), policy, source).records)
  {
    if records != [] {
      var n := |records| - 1;
      assert records[..n + 1] == records;
      BackupsSnoc(records, n);
      IdsStayDistinct(rs, records[..n], policy, source);
      var before := Merge(rs, Backups(records[..n]), policy, source).records;
      assert forall j :: 0 <= j < |before| ==> before[j].id in Ids(before);
    }
  }

  /** Old records keep their colour, added ones have the automatic colour of their index. */
  ghost predicate ColoredFrom(rs: seq<Record>, after: seq<Record>) {
    && |rs| <= |after|
    && (forall j :: 0 <= j < |rs| ==> after[j].color == rs[j].color)
    && forall j :: |rs| <= j < |after| ==> after[j].color == AutomaticColor(j)
  }

  /** Each record a CSV import adds at index i gets the i-th automatic colour. */
  lemma {:induction false} ImportedColors(rs: seq<Record>, batch: seq<Incoming>, policy: Policy, source: IdSource)
    requires forall i :: 0 <= i < |batch| ==> batch[i].Csv?
    ensures ColoredFrom(rs, Merge(rs, batch, policy, source).records)
  {
    if batch != [] {
      var n := |batch| - 1;
      ImportedColors(rs, batch[..n], policy, source);
      MergeLast(rs, batch, policy, source);
      ColorsOfMergeOne(rs, Merge(rs, batch[..n], policy, source), batch[n], policy, source);
    }
  }

  lemma ColorsOfMergeOne(rs: seq<Record>, m: Merged, inc: Incoming, policy: Policy, source: IdSource)
    requires inc.Csv? && ColoredFrom(rs, m.records)
    ensures ColoredFrom(rs, MergeOne(m, inc, policy, source).records)
  {
    assert Added(|m.records|, Ids(m.records), inc, source).color == AutomaticColor(|m.records|);
  }

  // ----- KeepBoth -------------------------------------------------------------

  function KeysOf(rs: seq<Record>): seq<Key> {
    seq(|rs|, i requires 0 <= i < |rs| => KeyOf(rs[i]))
  }

  function KeysIn(batch: seq<Incoming>): seq<Key> {
    seq(|batch|, i requires 0 <= i < |batch| => KeyIn(batch[i]))
  }

  ghost predicate NoRepeats(ks: seq<Key>) {
    forall i, j {:trigger ks[i], ks[j]} :: 0 <= i < j < |ks| ==> ks[i] != ks[j]
  }

  /** KeepBoth appends the whole batch and leaves the old records alone. */
  lemma {:induction false} KeepBothAppends(rs: seq<Record>, batch: seq<Incoming>, source: IdSource)
    ensures var after := Merge(rs, batch, KeepBoth, source).records;
            rs <= after && KeysOf(after) == KeysOf(rs) + KeysIn(batch)
  {
    if batch != [] {
      var n := |batch| - 1;
      KeepBothAppends(rs, batch[..n], source);
      var before := Merge(rs, batch[..n], KeepBoth, source);
      MergeLast(rs, batch, KeepBoth, source);
      KeepBothAppendsOne(before, batch[n], source);
      assert KeysIn(batch) == KeysIn(batch[..n]) + [KeyIn(batch[n])];
      assert KeysOf(rs) + KeysIn(batch) == KeysOf(before.records) + [KeyIn(batch[n])];
    } else {
      assert KeysOf(rs) + KeysIn(batch) == KeysOf(rs);
    }
  }

  lemma KeepBothAppendsOne(m: Merged, inc: Incoming, source: IdSource)
    ensures var after := MergeOne(m, inc, KeepBoth, source).records;
            m.records <= after && KeysOf(after) == KeysOf(m.records) + [KeyIn(inc)]
  {
    var rs, after := m.records, MergeOne(m, inc, KeepBoth, source).records;
    assert |after| == |rs| + 1 && after[..|rs|] == rs;
    assert KeyOf(after[|rs|]) == KeyIn(inc);
  }

  /** So it keeps keys unique exactly when the batch brings no conflict at all. */
  lemma {:induction false} KeepBothUnique(rs: seq<Record>, batch: seq<Incoming>, source: IdSource)
    ensures UniqueKeys(Merge(rs, batch, KeepBoth, source).records) <==> NoRepeats(KeysOf(rs) + KeysIn(batch))
  {
    KeepBothAppends(rs, batch, source);
    var after := Merge(rs, batch, KeepBoth, source).records;
    var ks := KeysOf(after);
    assert forall i :: 0 <= i < |after| ==> ks[i] == KeyOf(after[i]);
    if NoRepeats(ks) {
      forall i, j | 0 <= i < j < |after| ensures KeyOf(after[i]) != KeyOf(after[j]) {
        assert ks[i] != ks[j];
      }
    }
    if UniqueKeys(after) {
      forall i, j | 0 <= i < j < |ks| ensures ks[i] != ks[j] {
        assert KeyOf(after[i]) != KeyOf(after[j]);
      }
    }
  }

  // ----- Skip and Replace refine a map ----------------------------------------

  /** Key to record; the first record of a key wins. */
  function Abs(rs: seq<Record>): map<Key, Record> {
    if rs == [] then map[] else Abs(rs[1..])[KeyOf(rs[0]) := rs[0]]
  }

  lemma {:induction false} AbsIsFind(rs: seq<Record>, k: Key)
    ensures k in Abs(rs) <==> Find(rs, k).Some?
    ensures k in Abs(rs) ==> Abs(rs)[k] == rs[Find(rs, k).value]
  {
    if rs != [] && KeyOf(rs[0]) != k {
      AbsIsFind(rs[1..], k);
    }
  }

  function IdsInMap(m: map<Key, Record>): set<Uuid> {
    set k | k in m :: m[k].id
  }

  /** The policy on a map: one record per key, so only the conflict rule is left. */
  function MapMergeOne(m: map<Key, Record>, inc: Incoming, policy: Policy, source: IdSource): map<Key, Record> {
    var k := KeyIn(inc);
    if k !in m then m[k := Added(|m|, IdsInMap(m), inc, source)]
    else if policy == Replace then m[k := Overwrite(m[k], inc)]
    else m
  }

  function MapMerge(m: map<Key, Record>, batch: seq<Incoming>, policy: Policy, source: IdSource): map<Key, Record> {
    if batch == [] then m
    else
      var n := |batch| - 1;
      MapMergeOne(MapMerge(m, batch[..n], policy, source), batch[n], policy, source)
  }

  /** On unique keys the map has as many entries and the same ids. */
  lemma {:induction false} AbsOfUnique(rs: seq<Record>)
    requires UniqueKeys(rs)
    ensures |Abs(rs)| == |rs|
  {
    if rs != [] {
      AbsOfUnique(rs[1..]);
      AbsIsFind(rs[1..], KeyOf(rs[0]));
      var rest := Abs(rs[1..]);
      assert Abs(rs).Keys == rest.Keys + {KeyOf(rs[0])};
    }
  }

  lemma {:induction false} AbsIds(rs: seq<Record>)
    requires UniqueKeys(rs)
    ensures IdsInMap(Abs(rs)) == Ids(rs)
  {
    forall id | id in Ids(rs) ensures id in IdsInMap(Abs(rs)) {
      var i :| 0 <= i < |rs| && rs[i].id == id;
      FindIs(rs, KeyOf(rs[i]), i);
      AbsIsFind(rs, KeyOf(rs[i]));
    }
    forall id | id in IdsInMap(Abs(rs)) ensures id in Ids(rs) {
      var k :| k in Abs(rs) && Abs(rs)[k].id == id;
      AbsIsFind(rs, k);
    }
  }

  /** Two maps built from vectors are equal if lookup agrees. */
  lemma {:induction false} MapByFind(rs: seq<Record>, m: map<Key, Record>)
    requires forall k :: k in m <==> Find(rs, k).Some?
    requires forall k :: k in m ==> m[k] == rs[Find(rs, k).value]
    ensures Abs(rs) == m
  {
    forall k ensures (k in Abs(rs) <==> k in m) && (k in m ==> Abs(rs)[k] == m[k]) {
      AbsIsFind(rs, k);
    }
  }

  lemma {:induction false} MergeOneRefines(m: Merged, inc: Incoming, policy: Policy, source: IdSource)
    requires policy != KeepBoth && UniqueKeys(m.records)
    ensures var after := MergeOne(m, inc, policy, source).records;
            UniqueKeys(after) && Abs(after) == MapMergeOne(Abs(m.records), inc, policy, source)
  {
    var rs := m.records;
    var after := MergeOne(m, inc, policy, source).records;
    AbsOfUnique(rs);
    AbsIds(rs);
    forall i, j | 0 <= i < j < |after| ensures KeyOf(after[i]) != KeyOf(after[j]) {
      assert i < |rs| && KeyOf(after[i]) == KeyOf(rs[i]);
    }
    AbsIsFind(rs, KeyIn(inc));
    var target := MapMergeOne(Abs(rs), inc, policy, source);
    forall k
      ensures k in target <==> Find(after, k).Some?
      ensures k in target ==> target[k] == after[Find(after, k).value]
    {
      AbsIsFind(rs, k);
      FindAfterMergeOne(m, inc, policy, source, k);
    }
    MapByFind(after, target);
  }

  /** Lookup after one merge: only the merged key may move, to the end, and only if it was absent. */
  lemma {:induction false} FindAfterMergeOne(m: Merged, inc: Incoming, policy: Policy, source: IdSource, k: Key)
    ensures var rs, after := m.records, MergeOne(m, inc, policy, source).records;
            Find(after, k) == if Find(rs, k).None? && k == KeyIn(inc) then Some(|rs|) else Find(rs, k)
  {
    var rs, after := m.records, MergeOne(m, inc, policy, source).records;
    assert |rs| <= |after|;
    assert forall j :: 0 <= j < |rs| ==> KeyOf(after[j]) == KeyOf(rs[j]);
    assert forall j :: |rs| <= j < |after| ==> KeyOf(after[j]) == KeyIn(inc);
    if Find(rs, k).Some? {
      FindIs(after, k, Find(rs, k).value);
    } else if k == KeyIn(inc) {
      FindIs(after, k, |rs|);
    }
  }

  /** On unique-key stores both merges refine the map, and keys stay unique even if the batch repeats keys. */
  lemma {:induction false} MergeRefines(rs: seq<Record>, batch: seq<Incoming>, policy: Policy, source: IdSource)
    requires policy != KeepBoth && UniqueKeys(rs)
    ensures var after := Merge(rs, batch, policy, source).records;
            UniqueKeys(after) && Abs(after) == MapMerge(Abs(rs), batch, policy, source)
  {
    if batch != [] {
      var n := |batch| - 1;
      MergeRefines(rs, batch[..n], policy, source);
      MergeOneRefines(Merge(rs, batch[..n], policy, source), batch[n], policy, source);
    }
  }

  /** An upsert on a map: an entry is refreshed, or one is added with the colour of its index. */
  function MapUpsert(m: map<Key, Record>, k: Key, password: string, title: Option<string>, mint: Mint)
    : map<Key, Record>
  {
    if k in m then
      m[k := m[k].(password := password, title := if title.Some? then title.value else m[k].title,
                   archived := false, lastUsedAt := mint.now)]
    else
      m[k := Record(mint.id, k.origin, k.username, password, if title.Some? then title.value else "",
                    AutomaticColor(|m|), false, None, mint.now, mint.now)]
  }

  /** Upsert refines the map's, on any store that has the key or no duplicates; probing reads the map. */
  lemma {:induction false} UpsertRefines(rs: seq<Record>, k: Key, password: string, title: Option<string>, mint: Mint)
    ensures UniqueKeys(rs) || k in Abs(rs) ==>
              Abs(Upsert(rs, k, password, title, mint)) == MapUpsert(Abs(rs), k, password, title, mint)
    ensures UniqueKeys(rs) ==> UniqueKeys(Upsert(rs, k, password, title, mint))
    ensures Probe(rs, k) == if k !in Abs(rs) then Absent else if Abs(rs)[k].archived then Archived else Live
  {
    AbsIsFind(rs, k);
    UpsertFrame(rs, k, password, title, mint);
    if UniqueKeys(rs) || k in Abs(rs) {
      if UniqueKeys(rs) { AbsOfUnique(rs); }
      var after, target := Upsert(rs, k, password, title, mint), MapUpsert(Abs(rs), k, password, title, mint);
      forall key
        ensures key in target <==> Find(after, key).Some?
        ensures key in target ==> target[key] == after[Find(after, key).value]
      {
        AbsIsFind(rs, key);
        FindAfterUpsert(rs, k, password, title, mint, key);
      }
      MapByFind(after, target);
    }
  }

  /** Lookup after an upsert: only its key may move, to the end, and only if it was absent. */
  lemma {:induction false} FindAfterUpsert(rs: seq<Record>, k: Key, password: string, title: Option<string>,
                                           mint: Mint, key: Key)
    ensures Find(Upsert(rs, k, password, title, mint), key)
         == if Find(rs, key).None? && key == k then Some(|rs|) else Find(rs, key)
  {
    var after := Upsert(rs, k, password, title, mint);
    assert forall j :: 0 <= j < |rs| ==> KeyOf(after[j]) == KeyOf(rs[j]);
    if Find(rs, key).Some? {
      FindIs(after, key, Find(rs, key).value);
    } else if key == k {
      FindIs(after, key, |rs|);
    }
  }

  // ----- restoring: idempotence and fixed points -------------------------------

  /** The last backup record with the key. */
  function LastOf(records: seq<Record>, k: Key): (r: Option<Record>)
    ensures r.Some? ==> KeyOf(r.value) == k && r.value in records
    ensures r.None? ==> forall i :: 0 <= i < |records| ==> KeyOf(records[i]) != k
  {
    if records == [] then None
    else
      var n := |records| - 1;
      if KeyOf(records[n]) == k then Some(records[n]) else LastOf(records[..n], k)
  }

  lemma {:induction false} LastOfSnoc(records: seq<Record>, n: nat, k: Key)
    requires n < |records|
    ensures LastOf(records[..n + 1], k)
         == if KeyOf(records[n]) == k then Some(records[n]) else LastOf(records[..n], k)
  {
    assert records[..n + 1][..n] == records[..n];
  }

  /** What position `j` of a store holds once the batch replaced into it. */
  function Settled(rs: seq<Record>, records: seq<Record>, j: nat): Record
    requires j < |rs|
  {
    var k := KeyOf(rs[j]);
    var last := LastOf(records, k);
    if last.Some? && Find(rs, k) == Some(j) then last.value.(id := rs[j].id) else rs[j]
  }

  lemma {:induction false} MergeSnoc(rs: seq<Record>, records: seq<Record>, n: nat, policy: Policy, source: IdSource)
    requires n < |records|
    ensures Merge(rs, Backups(records[..n + 1]), policy, source)
         == MergeOne(Merge(rs, Backups(records[..n]), policy, source), Backup(records[n]), policy, source)
  {
    BackupsSnoc(records, n);
  }

  lemma {:induction false} SettlesOne(rs: seq<Record>, records: seq<Record>, n: nat, m: Merged, j: nat,
                                      source: IdSource)
    requires n < |records| && j < |rs| <= |m.records|
    requires forall i :: 0 <= i < |rs| ==> KeyOf(m.records[i]) == KeyOf(rs[i]) && m.records[i].id == rs[i].id
    requires m.records[j] == Settled(rs, records[..n], j)
    ensures MergeOne(m, Backup(records[n]), Replace, source).records[j] == Settled(rs, records[..n + 1], j)
  {
    var inc := records[n];
    FindInLonger(rs, m.records, KeyOf(inc));
    LastOfSnoc(records, n, KeyOf(rs[j]));
    var after := MergeOne(m, Backup(inc), Replace, source).records;
    if KeyOf(rs[j]) == KeyOf(inc) && Find(rs, KeyOf(inc)) == Some(j) {
      assert after[j] == inc.(id := rs[j].id);
    } else {
      assert after[j] == m.records[j];
    }
  }

  /** Replacing settles every old row: first matches take the batch's last word, the rest stay. */
  lemma {:induction false} ReplaceSettles(rs: seq<Record>, records: seq<Record>, n: nat, source: IdSource)
    requires n <= |records|
    ensures var after := Merge(rs, Backups(records[..n]), Replace, source).records;
            && |rs| <= |after|
            && forall j :: 0 <= j < |rs| ==> after[j] == Settled(rs, records[..n], j)
  {
    RowsStay(rs, Backups(records[..n]), Replace, source);
    var after := Merge(rs, Backups(records[..n]), Replace, source).records;
    forall j | 0 <= j < |rs| ensures after[j] == Settled(rs, records[..n], j) {
      SettlesUpTo(rs, records, n, j, source);
    }
  }

  /** After `n` elements of the batch, position `j` holds what they settle it to. */
  predicate SettlesAt(rs: seq<Record>, records: seq<Record>, n: nat, j: nat, source: IdSource)
    requires n <= |records| && j < |rs|
  {
    var after := Merge(rs, Backups(records[..n]), Replace, source).records;
    j < |after| && after[j] == Settled(rs, records[..n], j)
  }

  lemma {:induction false} SettlesUpTo(rs: seq<Record>, records: seq<Record>, n: nat, j: nat, source: IdSource)
    requires n <= |records| && j < |rs|
    ensures SettlesAt(rs, records, n, j, source)
  {
    if n > 0 {
      SettlesUpTo(rs, records, n - 1, j, source);
      SettlesNext(rs, records, n - 1, j, source);
    }
  }

  lemma {:induction false} SettlesNext(rs: seq<Record>, records: seq<Record>, n: nat, j: nat, source: IdSource)
    requires n < |records| && j < |rs| && SettlesAt(rs, records, n, j, source)
    ensures SettlesAt(rs, records, n + 1, j, source)
  {
    RowsStay(rs, Backups(records[..n]), Replace, source);
    RowsStay(rs, Backups(records[..n + 1]), Replace, source);
    SettlesOne(rs, records, n, Merge(rs, Backups(records[..n]), Replace, source), j, source);
    MergeSnoc(rs, records, n, Replace, source);
  }

  lemma FindInLonger(rs: seq<Record>, longer: seq<Record>, k: Key)
    requires |rs| <= |longer| && forall j :: 0 <= j < |rs| ==> KeyOf(longer[j]) == KeyOf(rs[j])
    ensures Find(rs, k).Some? ==> Find(longer, k) == Find(rs, k)
    ensures Find(rs, k).None? && Find(longer, k).Some? ==> Find(longer, k).value >= |rs|
  {
    if Find(rs, k).Some? { FindIs(longer, k, Find(rs, k).value); }
  }

  /** The first match of the key is the given record, up to the id. */
  predicate Installed(rs: seq<Record>, k: Key, r: Record) {
    var p := Find(rs, k);
    p.Some? && rs[p.value] == r.(id := rs[p.value].id)
  }

  /** After a Replace every key of the batch is present, and its first match has the batch's last word. */
  lemma {:induction false} ReplaceInstalls(rs: seq<Record>, records: seq<Record>, n: nat, k: Key, source: IdSource)
    requires n <= |records| && LastOf(records[..n], k).Some?
    ensures Installed(Merge(rs, Backups(records[..n]), Replace, source).records, k, LastOf(records[..n], k).value)
  {
    LastOfSnoc(records, n - 1, k);
    if KeyOf(records[n - 1]) != k {
      ReplaceInstalls(rs, records, n - 1, k, source);
    }
    InstallsNext(rs, records, n - 1, k, source);
  }

  lemma {:induction false} InstallsNext(rs: seq<Record>, records: seq<Record>, n: nat, k: Key, source: IdSource)
    requires n < |records|
    ensures var before := Merge(rs, Backups(records[..n]), Replace, source).records;
            var after := Merge(rs, Backups(records[..n + 1]), Replace, source).records;
            && (KeyOf(records[n]) == k ==> Installed(after, k, records[n]))
            && (KeyOf(records[n]) != k ==> forall r :: Installed(before, k, r) ==> Installed(after, k, r))
  {
    MergeSnoc(rs, records, n, Replace, source);
    InstallsOne(Merge(rs, Backups(records[..n]), Replace, source), records[n], k, source);
  }

  lemma {:induction false} InstallsOne(m: Merged, inc: Record, k: Key, source: IdSource)
    ensures KeyOf(inc) == k ==> Installed(MergeOne(m, Backup(inc), Replace, source).records, k, inc)
    ensures KeyOf(inc) != k ==> forall r :: Installed(m.records, k, r) ==>
              Installed(MergeOne(m, Backup(inc), Replace, source).records, k, r)
  {
    FindAfterMergeOne(m, Backup(inc), Replace, source, k);
  }

  /** With every key of the batch already present, Replace adds no rows. */
  lemma {:induction false} ReplaceAddsNone(rs: seq<Record>, records: seq<Record>, n: nat, source: IdSource)
    requires n <= |records|
    requires forall i :: 0 <= i < |records| ==> Find(rs, KeyOf(records[i])).Some?
    ensures |Merge(rs, Backups(records[..n]), Replace, source).records| == |rs|
  {
    if n > 0 {
      ReplaceAddsNone(rs, records, n - 1, source);
      ReplaceAddsNoNext(rs, records, n - 1, source);
    }
  }

  lemma {:induction false} ReplaceAddsNoNext(rs: seq<Record>, records: seq<Record>, n: nat, source: IdSource)
    requires n < |records| && Find(rs, KeyOf(records[n])).Some?
    ensures |Merge(rs, Backups(records[..n + 1]), Replace, source).records|
         == |Merge(rs, Backups(records[..n]), Replace, source).records|
  {
    RowsStay(rs, Backups(records[..n]), Replace, source);
    FindInLonger(rs, Merge(rs, Backups(records[..n]), Replace, source).records, KeyOf(records[n]));
    MergeSnoc(rs, records, n, Replace, source);
  }

  /** Replace leaves a store that has all the batch's keys unchanged iff each first match already settled. */
  lemma {:induction false} ReplaceFixes(rs: seq<Record>, records: seq<Record>, source: IdSource)
    requires forall i :: 0 <= i < |records| ==> Find(rs, KeyOf(records[i])).Some?
    ensures Merge(rs, Backups(records), Replace, source).records == rs
       <==> forall j :: 0 <= j < |rs| ==> Settled(rs, records, j) == rs[j]
  {
    assert records[..|records|] == records;
    ReplaceSettles(rs, records, |records|, source);
    ReplaceAddsNone(rs, records, |records|, source);
    var after := Merge(rs, Backups(records), Replace, source).records;
    if forall j :: 0 <= j < |rs| ==> Settled(rs, records, j) == rs[j] {
      assert forall j :: 0 <= j < |rs| ==> after[j] == rs[j];
    }
  }

  /** Restoring twice under Replace is restoring once, ids included, whatever repeats in store or backup. */
  lemma {:induction false} ReplaceIdempotent(rs: seq<Record>, records: seq<Record>, source: IdSource)
    ensures var once := Merge(rs, Backups(records), Replace, source).records;
            Merge(once, Backups(records), Replace, source).records == once
  {
    assert records[..|records|] == records;
    var once := Merge(rs, Backups(records), Replace, source).records;
    forall k | LastOf(records, k).Some?
      ensures Installed(once, k, LastOf(records, k).value)
    {
      ReplaceInstalls(rs, records, |records|, k, source);
    }
    forall i | 0 <= i < |records| ensures Find(once, KeyOf(records[i])).Some? {
      assert LastOf(records, KeyOf(records[i])).Some?;
    }
    ReplaceFixes(once, records, source);
  }

  /** Restoring a store's own records under Skip changes nothing. */
  lemma {:induction false} SkipKnown(rs: seq<Record>, batch: seq<Incoming>, source: IdSource)
    requires forall i :: 0 <= i < |batch| ==> Find(rs, KeyIn(batch[i])).Some?
    ensures Merge(rs, batch, Skip, source).records == rs
  {
    if batch != [] {
      SkipKnown(rs, batch[..|batch| - 1], source);
    }
  }

  /**
   * Restoring a store's own export into it: Skip never changes anything; Replace changes nothing
   * iff the last record of every key agrees with the first, the id aside.
   */
  lemma {:induction false} RestoreOwnBackup(rs: seq<Record>, source: IdSource)
    ensures Merge(rs, Backups(rs), Skip, source).records == rs
    ensures Merge(rs, Backups(rs), Replace, source).records == rs
       <==> forall j :: 0 <= j < |rs| ==> Settled(rs, rs, j) == rs[j]
    ensures UniqueKeys(rs) ==> Merge(rs, Backups(rs), Replace, source).records == rs
  {
    forall i | 0 <= i < |rs| ensures Find(rs, KeyIn(Backups(rs)[i])).Some? {
      assert KeyIn(Backups(rs)[i]) == KeyOf(rs[i]);
    }
    SkipKnown(rs, Backups(rs), source);
    ReplaceFixes(rs, rs, source);
    if UniqueKeys(rs) {
      forall j | 0 <= j < |rs| ensures Settled(rs, rs, j) == rs[j] {
        UniqueIsSettled(rs, j);
      }
    }
  }

  lemma UniqueIsSettled(rs: seq<Record>, j: nat)
    requires UniqueKeys(rs) && j < |rs|
    ensures Settled(rs, rs, j) == rs[j]
  {
    var last := LastOf(rs, KeyOf(rs[j]));
    var i :| 0 <= i < |rs| && rs[i] == last.value;
    assert KeyOf(rs[i]) == KeyOf(rs[j]);
    assert i == j;
  }

  // ----- restoring into an empty store ------------------------------------------

  /** Position `n` brings a key and an id that no earlier position has. */
  predicate NewAt(records: seq<Record>, n: nat)
    requires n < |records|
  {
    Find(records[..n], KeyOf(records[n])).None? && records[n].id !in Ids(records[..n])
  }

  lemma {:induction false} RestoreNew(records: seq<Record>, policy: Policy, source: IdSource, n: nat)
    requires n <= |records| && forall i :: 0 <= i < |records| ==> NewAt(records, i)
    ensures Merge([], Backups(records[..n]), policy, source).records == records[..n]
  {
    if n > 0 {
      RestoreNew(records, policy, source, n - 1);
      MergeSnoc([], records, n - 1, policy, source);
      RestoreOneNew(Merge([], Backups(records[..n - 1]), policy, source), records, policy, source, n - 1);
    } else {
      assert Backups(records[..0]) == [];
    }
  }

  lemma {:induction false} RestoreOneNew(m: Merged, records: seq<Record>, policy: Policy, source: IdSource, n: nat)
    requires n < |records| && m.records == records[..n]
    requires forall i :: 0 <= i < |records| ==> NewAt(records, i)
    ensures MergeOne(m, Backup(records[n]), policy, source).records == records[..n + 1]
  {
    assert NewAt(records, n);
    NewIsAppended(m, records[n], policy, source);
    Extended(records, n);
  }

  lemma Extended(records: seq<Record>, n: nat)
    requires n < |records|
    ensures records[..n] + [records[n]] == records[..n + 1]
  {
  }

  lemma NewIsAppended(m: Merged, r: Record, policy: Policy, source: IdSource)
    requires Find(m.records, KeyOf(r)).None? && r.id !in Ids(m.records)
    ensures MergeOne(m, Backup(r), policy, source).records == m.records + [r]
  {
  }

  lemma UniqueIsNew(records: seq<Record>, n: nat)
    requires UniqueKeys(records) && DistinctIds(records) && n < |records|
    ensures NewAt(records, n)
  {
    var before := records[..n];
    forall j | 0 <= j < n ensures KeyOf(before[j]) != KeyOf(records[n]) && before[j].id != records[n].id {
      assert before[j] == records[j];
    }
  }

  lemma {:induction false} MergePrefix(rs: seq<Record>, batch: seq<Incoming>, n: nat, policy: Policy, source: IdSource)
    requires n < |batch|
    ensures Merge(rs, batch[..n + 1], policy, source)
         == MergeOne(Merge(rs, batch[..n], policy, source), batch[n], policy, source)
  {
    assert batch[..n + 1][..n] == batch[..n];
  }

  lemma {:induction false} GrowsNext(rs: seq<Record>, batch: seq<Incoming>, policy: Policy, source: IdSource, n: nat)
    requires n < |batch| && Merge(rs, batch[..n + 1], policy, source).imported == n + 1
    ensures Merge(rs, batch[..n], policy, source).imported == n
    ensures Merge(rs, batch[..n], policy, source).records <= Merge(rs, batch[..n + 1], policy, source).records
  {
    Conservation(rs, batch[..n], policy, source);
    MergePrefix(rs, batch, n, policy, source);
  }

  lemma {:induction false} AllImported(rs: seq<Record>, batch: seq<Incoming>, policy: Policy, source: IdSource, n: nat)
    requires n <= |batch| && Merge(rs, batch, policy, source).imported == |batch|
    ensures Merge(rs, batch[..n], policy, source).imported == n
    decreases |batch| - n
  {
    if n < |batch| {
      AllImported(rs, batch, policy, source, n + 1);
      GrowsNext(rs, batch, policy, source, n);
    } else {
      assert batch[..n] == batch;
    }
  }

  lemma {:induction false} GrowsThroughout(trail: seq<seq<Record>>, lo: nat, hi: nat)
    requires lo <= hi < |trail| && forall i: nat :: lo <= i < hi ==> trail[i] <= trail[i + 1]
    ensures trail[lo] <= trail[hi]
    decreases hi - lo
  {
    if lo < hi {
      GrowsThroughout(trail, lo + 1, hi);
      assert trail[lo] <= trail[lo + 1];
    }
  }

  /** The store after each prefix of the batch. */
  function Trail(rs: seq<Record>, batch: seq<Incoming>, policy: Policy, source: IdSource): seq<seq<Record>> {
    seq(|batch| + 1, n requires 0 <= n <= |batch| => Merge(rs, batch[..n], policy, source).records)
  }

  lemma {:induction false} TrailGrows(rs: seq<Record>, batch: seq<Incoming>, policy: Policy, source: IdSource, n: nat)
    requires n < |batch| && Merge(rs, batch, policy, source).imported == |batch|
    ensures Trail(rs, batch, policy, source)[n] <= Trail(rs, batch, policy, source)[n + 1]
  {
    AllImported(rs, batch, policy, source, n + 1);
    GrowsNext(rs, batch, policy, source, n);
  }

  /** While every element is imported, the result only grows at the end. */
  lemma {:induction false} ImportedOnlyGrows(rs: seq<Record>, batch: seq<Incoming>, policy: Policy, source: IdSource,
                                             n: nat)
    requires n <= |batch| && Merge(rs, batch, policy, source).imported == |batch|
    ensures Merge(rs, batch[..n], policy, source).records <= Merge(rs, batch, policy, source).records
  {
    var trail := Trail(rs, batch, policy, source);
    forall i: nat | i < |batch| ensures trail[i] <= trail[i + 1] {
      TrailGrows(rs, batch, policy, source, i);
    }
    GrowsThroughout(trail, n, |batch|);
    assert batch[..|batch|] == batch;
  }

  /** Restoring into an empty store reproduces the backup exactly iff its keys and its ids are unique. */
  lemma {:induction false} RestoreIntoEmpty(records: seq<Record>, policy: Policy, source: IdSource)
    ensures Merge([], Backups(records), policy, source).records == records
       <==> UniqueKeys(records) && DistinctIds(records)
  {
    assert records[..|records|] == records;
    if UniqueKeys(records) && DistinctIds(records) {
      forall i | 0 <= i < |records| ensures NewAt(records, i) {
        UniqueIsNew(records, i);
      }
      RestoreNew(records, policy, source, |records|);
    }
    if Merge([], Backups(records), policy, source).records == records {
      forall i, j | 0 <= i < j < |records|
        ensures KeyOf(records[i]) != KeyOf(records[j]) && records[i].id != records[j].id
      {
        RestoredIsNew(records, policy, source, j);
        assert records[..j][i] == records[i];
      }
    }
  }

  /** If the result is the backup itself, every step appended its record as it is. */
  lemma {:induction false} RestoredIsNew(records: seq<Record>, policy: Policy, source: IdSource, j: nat)
    requires Merge([], Backups(records), policy, source).records == records && j < |records|
    ensures NewAt(records, j)
  {
    PrefixRestored(records, policy, source, j);
    PrefixRestored(records, policy, source, j + 1);
    MergeSnoc([], records, j, policy, source);
    var m := Merge([], Backups(records[..j]), policy, source);
    assert records[..j + 1][j] == records[j];
    AppendedAsIs(m, records[j], policy, source);
  }

  lemma {:induction false} PrefixRestored(records: seq<Record>, policy: Policy, source: IdSource, n: nat)
    requires Merge([], Backups(records), policy, source).records == records && n <= |records|
    ensures Merge([], Backups(records[..n]), policy, source).records == records[..n]
    ensures Merge([], Backups(records[..n]), policy, source).imported == n
  {
    var batch := Backups(records);
    assert batch[..n] == Backups(records[..n]);
    Conservation([], batch, policy, source);
    AllImported([], batch, policy, source, n);
    ImportedOnlyGrows([], batch, policy, source, n);
    Conservation([], batch[..n], policy, source);
  }

  /** A backup record appended exactly as it is met no record with its key, nor its id. */
  lemma AppendedAsIs(m: Merged, r: Record, policy: Policy, source: IdSource)
    requires var next := MergeOne(m, Backup(r), policy, source);
             next.imported == m.imported + 1 && next.records[|m.records|] == r
    ensures Find(m.records, KeyOf(r)).None? && r.id !in Ids(m.records)
  {
    MarkedDiffers(r.title, "(restored)");
  }

  lemma MarkedDiffers(title: string, mark: string)
    requires mark != ""
    ensures Marked(title, mark) != title
  {
    assert |Marked(title, mark)| > |title|;
  }
}
