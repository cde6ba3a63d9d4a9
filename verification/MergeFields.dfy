/**
 * What bulk merges leave in the records, field by field: stated on the items, the creation data and the
 * old records alone.
 */
module MergeFields {
  import opened Prelude
  import opened Records
  import opened BulkMerge
  import opened Store

  // ----- the items for a key --------------------------------------------------

  datatype Bearing = Any | Titled | Noted

  /** Item `i` is for the key, and has a title or notes if those are asked for. */
  predicate Bears(items: seq<ImportItem>, k: Key, b: Bearing, i: nat)
    requires i < |items|
  {
    && items[i].origin == k.origin && items[i].username == k.username
    && (b == Titled ==> items[i].title != "") && (b == Noted ==> items[i].notes != "")
  }

  /** The last of the first `n` items that bears it. */
  function Last(items: seq<ImportItem>, n: nat, k: Key, b: Bearing): (i: Option<nat>)
    requires n <= |items|
    ensures i.Some? ==> i.value < n && Bears(items, k, b, i.value)
    ensures forall j :: (if i.Some? then i.value + 1 else 0) <= j < n ==> !Bears(items, k, b, j)
  {
    if n == 0 then None
    else if Bears(items, k, b, n - 1) then Some(n - 1)
    else Last(items, n - 1, k, b)
  }

  /** The first of the first `n` items for the key. */
  function First(items: seq<ImportItem>, n: nat, k: Key): (i: Option<nat>)
    requires n <= |items|
    ensures i.Some? ==> i.value < n && Bears(items, k, Any, i.value)
    ensures forall j :: 0 <= j < (if i.Some? then i.value else n) ==> !Bears(items, k, Any, j)
  {
    if n == 0 then None
    else if First(items, n - 1, k).Some? then First(items, n - 1, k)
    else if Bears(items, k, Any, n - 1) then Some(n - 1)
    else None
  }

  function TitleAfter(items: seq<ImportItem>, n: nat, k: Key, otherwise: string): string
    requires n <= |items|
  {
    var i := Last(items, n, k, Titled);
    if i.Some? then items[i.value].title else otherwise
  }

  function NotesAfter(items: seq<ImportItem>, n: nat, k: Key, otherwise: Option<string>): Option<string>
    requires n <= |items|
  {
    var i := Last(items, n, k, Noted);
    if i.Some? then Some(items[i.value].notes) else otherwise
  }

  // ----- importing under Replace ----------------------------------------------

  /** The first record of a key, and where it is. */
  datatype Placed = Placed(at: nat, record: Record)

  function Lookup(rs: seq<Record>, k: Key): Option<Placed> {
    var p := Find(rs, k);
    if p.Some? then Some(Placed(p.value, rs[p.value])) else None
  }

  function NotesField(notes: string): Option<string> {
    if notes == "" then None else Some(notes)
  }

  /** One item overwrites the first record of its key or, in a store of `size` records, adds one. */
  function AfterItem(item: ImportItem, mint: Mint, k: Key, size: nat, before: Option<Placed>): Option<Placed> {
    if item.origin != k.origin || item.username != k.username then before
    else if before.Some? then
      var r := before.value.record;
      Some(Placed(before.value.at,
                  r.(password := item.password, archived := false,
                     title := if item.title == "" then r.title else item.title,
                     notes := if item.notes == "" then r.notes else Some(item.notes))))
    else
      Some(Placed(size, Record(mint.id, k.origin, k.username, item.password, item.title, AutomaticColor(size),
                               false, NotesField(item.notes), mint.now, mint.now)))
  }

  lemma {:induction false} ReplaceOne(m: Merged, item: ImportItem, mint: Mint, source: IdSource, k: Key)
    ensures Lookup(MergeOne(m, Csv(item, mint), Replace, source).records, k)
         == AfterItem(item, mint, k, |m.records|, Lookup(m.records, k))
  {
    FindAfterMergeOne(m, Csv(item, mint), Replace, source, k);
  }

  /** The record a key had, after the items for it. */
  function Overwritten(items: seq<ImportItem>, n: nat, k: Key, was: Record): Record
    requires n <= |items| && Last(items, n, k, Any).Some?
  {
    was.(password := items[Last(items, n, k, Any).value].password, archived := false,
         title := TitleAfter(items, n, k, was.title), notes := NotesAfter(items, n, k, was.notes))
  }

  /** The record added at `p` for a key that had none. */
  function Imported(items: seq<ImportItem>, mints: seq<Mint>, n: nat, k: Key, p: nat): Record
    requires n <= |items| == |mints| && Last(items, n, k, Any).Some? && First(items, n, k).Some?
  {
    var first := mints[First(items, n, k).value];
    Record(first.id, k.origin, k.username, items[Last(items, n, k, Any).value].password,
           TitleAfter(items, n, k, ""), AutomaticColor(p), false, NotesAfter(items, n, k, None), first.now, first.now)
  }

  /** What a store holds for a key after `n` items, given what it held before. */
  ghost predicate ReplacedTo(items: seq<ImportItem>, mints: seq<Mint>, n: nat, k: Key, size: nat,
                             was: Option<Placed>, now: Option<Placed>)
    requires n <= |items| == |mints|
  {
    if Last(items, n, k, Any).None? then now == was
    else
      && First(items, n, k).Some? && now.Some?
      && (was.Some? ==> now.value == Placed(was.value.at, Overwritten(items, n, k, was.value.record)))
      && (was.None? ==> now.value.at >= size && now.value.record == Imported(items, mints, n, k, now.value.at))
  }

  /**
   * Importing under Replace, for every key: the password is that of the last item for it, and the record is
   * not archived. A record that was there keeps its place, id, colour and times; its title and notes are
   * those of the last item with a non-empty one, else its own. One added has the id and times its first item
   * came with, and the colour of its place. A key no item mentions is as before.
   */
  lemma {:induction false} ReplaceImports(rs: seq<Record>, items: seq<ImportItem>, mints: seq<Mint>, n: nat,
                                          source: IdSource, k: Key)
    requires n <= |items| == |mints|
    ensures ReplacedTo(items, mints, n, k, |rs|, Lookup(rs, k),
                       Lookup(Merge(rs, CsvBatch(items, mints)[..n], Replace, source).records, k))
  {
    if n > 0 {
      ReplaceImports(rs, items, mints, n - 1, source, k);
      NextLookup(rs, items, mints, n - 1, source, k);
      var m := Merge(rs, CsvBatch(items, mints)[..n - 1], Replace, source);
      ReplaceNext(items, mints, n - 1, k, |rs|, |m.records|, Lookup(rs, k), Lookup(m.records, k));
    }
  }

  lemma {:induction false} NextLookup(rs: seq<Record>, items: seq<ImportItem>, mints: seq<Mint>, n: nat,
                                      source: IdSource, k: Key)
    requires n < |items| == |mints|
    ensures var before := Merge(rs, CsvBatch(items, mints)[..n], Replace, source).records;
            && |rs| <= |before|
            && Lookup(Merge(rs, CsvBatch(items, mints)[..n + 1], Replace, source).records, k)
               == AfterItem(items[n], mints[n], k, |before|, Lookup(before, k))
  {
    RowsStay(rs, CsvBatch(items, mints)[..n], Replace, source);
    MergePrefix(rs, CsvBatch(items, mints), n, Replace, source);
    ReplaceOne(Merge(rs, CsvBatch(items, mints)[..n], Replace, source), items[n], mints[n], source, k);
  }

  lemma {:induction false} ReplaceNext(items: seq<ImportItem>, mints: seq<Mint>, n: nat, k: Key, size: nat,
                                       sizeNow: nat, was: Option<Placed>, before: Option<Placed>)
    requires n < |items| == |mints| && size <= sizeNow && ReplacedTo(items, mints, n, k, size, was, before)
    ensures ReplacedTo(items, mints, n + 1, k, size, was, AfterItem(items[n], mints[n], k, sizeNow, before))
  {
    NoneBears(items, n, k);
  }

  /** Without an item for the key there is none with a title or notes either. */
  lemma NoneBears(items: seq<ImportItem>, n: nat, k: Key)
    requires n <= |items|
    ensures Last(items, n, k, Any).Some? <==> First(items, n, k).Some?
    ensures Last(items, n, k, Any).None? ==> Last(items, n, k, Titled).None? && Last(items, n, k, Noted).None?
  {
    var any, first := Last(items, n, k, Any), First(items, n, k);
    assert forall b :: Last(items, n, k, b).Some? ==> Bears(items, k, Any, Last(items, n, k, b).value);
    assert first.Some? ==> Bears(items, k, Any, first.value);
  }

  /** Rows that are not the first of their key, or whose key no item mentions, stay exactly as they are. */
  lemma {:induction false} ReplaceSpares(rs: seq<Record>, items: seq<ImportItem>, mints: seq<Mint>, n: nat,
                                         source: IdSource, j: nat)
    requires n <= |items| == |mints| && j < |rs|
    requires Find(rs, KeyOf(rs[j])) == Some(j) ==> Last(items, n, KeyOf(rs[j]), Any).None?
    ensures var after := Merge(rs, CsvBatch(items, mints)[..n], Replace, source).records;
            j < |after| && after[j] == rs[j]
  {
    if n > 0 {
      ReplaceSpares(rs, items, mints, n - 1, source, j);
      RowsStay(rs, CsvBatch(items, mints)[..n - 1], Replace, source);
      MergePrefix(rs, CsvBatch(items, mints), n - 1, Replace, source);
      SparesOne(rs, Merge(rs, CsvBatch(items, mints)[..n - 1], Replace, source), items, mints, n - 1, source, j);
    }
  }

  lemma SparesOne(rs: seq<Record>, m: Merged, items: seq<ImportItem>, mints: seq<Mint>, n: nat, source: IdSource,
                  j: nat)
    requires n < |items| == |mints| && j < |rs| <= |m.records| && m.records[j] == rs[j]
    requires forall i :: 0 <= i < |rs| ==> KeyOf(m.records[i]) == KeyOf(rs[i])
    requires Find(rs, KeyOf(rs[j])) == Some(j) ==> !Bears(items, KeyOf(rs[j]), Any, n)
    ensures var after := MergeOne(m, Csv(items[n], mints[n]), Replace, source).records;
            j < |after| && after[j] == rs[j]
  {
    FindInLonger(rs, m.records, KeyOf(rs[j]));
  }

  // ----- importing beside what is there ---------------------------------------

  function Beside(title: string, mark: string): string {
    if title == "" then mark else title + " " + mark
  }

  /** The key was in the store, or an earlier item brought it. */
  predicate Taken(rs: seq<Record>, items: seq<ImportItem>, i: nat)
    requires i < |items|
  {
    var k := Key(items[i].origin, items[i].username);
    Find(rs, k).Some? || First(items, i, k).Some?
  }

  /** The record item `i` adds at position `p`, its title marked if its key was taken. */
  function AddedFor(item: ImportItem, mint: Mint, p: nat, taken: bool): Record {
    Record(mint.id, item.origin, item.username, item.password,
           if taken then Beside(item.title, "(imported)") else item.title,
           AutomaticColor(p), false, NotesField(item.notes), mint.now, mint.now)
  }

  /** Importing under KeepBoth adds one record per item, in order, behind the old ones, which stay. */
  lemma {:induction false} KeepBothImports(rs: seq<Record>, items: seq<ImportItem>, mints: seq<Mint>, source: IdSource,
                                           i: nat)
    requires i < |items| == |mints|
    ensures var after := Merge(rs, CsvBatch(items, mints), KeepBoth, source).records;
            && |after| == |rs| + |items| && rs <= after
            && after[|rs| + i] == AddedFor(items[i], mints[i], |rs| + i, Taken(rs, items, i))
  {
    KeepBothLater(rs, CsvBatch(items, mints), i + 1, source);
    KeepBothNext(rs, items, mints, i, source);
  }

  /** KeepBoth only adds behind what is there. */
  lemma {:induction false} KeepBothLater(rs: seq<Record>, batch: seq<Incoming>, n: nat, source: IdSource)
    requires n <= |batch|
    ensures var mid := Merge(rs, batch[..n], KeepBoth, source).records;
            var after := Merge(rs, batch, KeepBoth, source).records;
            |mid| == |rs| + n && |after| == |rs| + |batch| && rs <= after && mid <= after
  {
    Conservation(rs, batch, KeepBoth, source);
    Conservation(rs, batch[..n], KeepBoth, source);
    KeepBothAppends(rs, batch, source);
    ImportedOnlyGrows(rs, batch, KeepBoth, source, n);
  }

  lemma {:induction false} KeepBothNext(rs: seq<Record>, items: seq<ImportItem>, mints: seq<Mint>, n: nat,
                                        source: IdSource)
    requires n < |items| == |mints|
    ensures var mid := Merge(rs, CsvBatch(items, mints)[..n + 1], KeepBoth, source).records;
            |mid| == |rs| + n + 1
            && mid[|rs| + n] == AddedFor(items[n], mints[n], |rs| + n, Taken(rs, items, n))
  {
    var batch := CsvBatch(items, mints);
    MergePrefix(rs, batch, n, KeepBoth, source);
    KeepBothAppends(rs, batch[..n], source);
    var m := Merge(rs, batch[..n], KeepBoth, source);
    KeysSoFar(items, mints, n);
    TakenIs(rs, m.records, items, n);
    Lengths(m.records, rs, items, n);
    KeepBothOne(m, items[n], mints[n], source);
  }

  function ItemKeys(items: seq<ImportItem>, n: nat): seq<Key>
    requires n <= |items|
  {
    seq(n, i requires 0 <= i < n => Key(items[i].origin, items[i].username))
  }

  lemma KeysSoFar(items: seq<ImportItem>, mints: seq<Mint>, n: nat)
    requires n <= |items| == |mints|
    ensures KeysIn(CsvBatch(items, mints)[..n]) == ItemKeys(items, n)
  {
  }

  lemma Lengths(before: seq<Record>, rs: seq<Record>, items: seq<ImportItem>, n: nat)
    requires n <= |items| && KeysOf(before) == KeysOf(rs) + ItemKeys(items, n)
    ensures |before| == |rs| + n
  {
    assert |KeysOf(before)| == |before|;
  }

  lemma KeepBothOne(m: Merged, item: ImportItem, mint: Mint, source: IdSource)
    ensures MergeOne(m, Csv(item, mint), KeepBoth, source).records
         == m.records + [AddedFor(item, mint, |m.records|, Find(m.records, Key(item.origin, item.username)).Some?)]
  {
  }

  lemma {:induction false} TakenIs(rs: seq<Record>, before: seq<Record>, items: seq<ImportItem>, n: nat)
    requires n < |items| && KeysOf(before) == KeysOf(rs) + ItemKeys(items, n)
    ensures Find(before, Key(items[n].origin, items[n].username)).Some? <==> Taken(rs, items, n)
  {
    var k := Key(items[n].origin, items[n].username);
    var first := First(items, n, k);
    Lengths(before, rs, items, n);
    assert forall j :: 0 <= j < |before| ==> KeyOf(before[j]) == KeysOf(before)[j];
    assert forall j :: 0 <= j < |rs| ==> KeysOf(before)[j] == KeyOf(rs[j]);
    assert forall j :: 0 <= j < n ==> KeysOf(before)[|rs| + j] == Key(items[j].origin, items[j].username);
    if Find(rs, k).Some? {
      assert KeyOf(before[Find(rs, k).value]) == k;
    } else if first.Some? {
      assert KeyOf(before[|rs| + first.value]) == k;
    } else {
      forall j | 0 <= j < |before| ensures KeyOf(before[j]) != k {
        if j >= |rs| { assert KeysOf(before)[|rs| + (j - |rs|)] != k by { assert !Bears(items, k, Any, j - |rs|); } }
      }
    }
  }

  // ----- importing under Skip -------------------------------------------------

  /** Under Skip a key that had a record keeps it, and one that had none gets that of its first item. */
  ghost predicate SkippedTo(items: seq<ImportItem>, mints: seq<Mint>, n: nat, k: Key, size: nat,
                            was: Option<Placed>, now: Option<Placed>)
    requires n <= |items| == |mints|
  {
    var first := First(items, n, k);
    if was.Some? || first.None? then now == was
    else
      && now.Some? && now.value.at >= size
      && now.value.record == AddedFor(items[first.value], mints[first.value], now.value.at, false)
  }

  lemma {:induction false} SkipImports(rs: seq<Record>, items: seq<ImportItem>, mints: seq<Mint>, n: nat,
                                       source: IdSource, k: Key)
    requires n <= |items| == |mints|
    ensures var after := Merge(rs, CsvBatch(items, mints)[..n], Skip, source).records;
            rs <= after && SkippedTo(items, mints, n, k, |rs|, Lookup(rs, k), Lookup(after, k))
  {
    if n > 0 {
      SkipImports(rs, items, mints, n - 1, source, k);
      MergePrefix(rs, CsvBatch(items, mints), n - 1, Skip, source);
      SkipOne(Merge(rs, CsvBatch(items, mints)[..n - 1], Skip, source), items[n - 1], mints[n - 1], source, k);
    }
  }

  lemma {:induction false} SkipOne(m: Merged, item: ImportItem, mint: Mint, source: IdSource, k: Key)
    ensures var rs, after := m.records, MergeOne(m, Csv(item, mint), Skip, source).records;
            && rs <= after
            && Lookup(after, k) == if Find(rs, k).None? && item.origin == k.origin && item.username == k.username
                                   then Some(Placed(|rs|, AddedFor(item, mint, |rs|, false))) else Lookup(rs, k)
  {
    FindAfterMergeOne(m, Csv(item, mint), Skip, source, k);
  }

  // ----- restoring beside what is there ---------------------------------------

  /** The first of the first `n` backup records with the key. */
  function FirstOf(records: seq<Record>, n: nat, k: Key): (i: Option<nat>)
    requires n <= |records|
    ensures i.Some? ==> i.value < n && records[i.value].origin == k.origin && records[i.value].username == k.username
    ensures forall j :: 0 <= j < (if i.Some? then i.value else n) ==>
              records[j].origin != k.origin || records[j].username != k.username
  {
    if n == 0 then None
    else if FirstOf(records, n - 1, k).Some? then FirstOf(records, n - 1, k)
    else if records[n - 1].origin == k.origin && records[n - 1].username == k.username then Some(n - 1)
    else None
  }

  /** Restoring under Skip: a key that had none gets the backup's first record of it, under a fresh id. */
  lemma {:induction false} SkipRestores(rs: seq<Record>, records: seq<Record>, n: nat, source: IdSource, k: Key)
    requires n <= |records|
    ensures var after := Merge(rs, Backups(records[..n]), Skip, source).records;
            var first, now := FirstOf(records, n, k), Lookup(after, k);
            && rs <= after
            && if Find(rs, k).Some? || first.None? then now == Lookup(rs, k)
               else now.Some? && now.value.at >= |rs|
                    && now.value.record == records[first.value].(id := now.value.record.id)
  {
    if n > 0 {
      SkipRestores(rs, records, n - 1, source, k);
      MergeSnoc(rs, records, n - 1, Skip, source);
      SkipRestoresOne(Merge(rs, Backups(records[..n - 1]), Skip, source), records[n - 1], source, k);
    } else {
      assert Backups(records[..0]) == [];
    }
  }

  lemma {:induction false} SkipRestoresOne(m: Merged, r: Record, source: IdSource, k: Key)
    ensures var rs, after := m.records, MergeOne(m, Backup(r), Skip, source).records;
            && rs <= after
            && Lookup(after, k) == if Find(rs, k).None? && r.origin == k.origin && r.username == k.username
                                   then Some(Placed(|rs|, r.(id := UniqueId(source, Ids(rs), r.id)))) else Lookup(rs, k)
  {
    FindAfterMergeOne(m, Backup(r), Skip, source, k);
  }

  /** What KeepBoth adds for backup record `r` behind `rs`: itself, marked if its key is taken, its id if unused. */
  predicate RestoredBeside(rs: seq<Record>, r: Record, added: Record) {
    var taken := Find(rs, Key(r.origin, r.username)).Some?;
    && added == r.(id := added.id, title := if taken then Beside(r.title, "(restored)") else r.title)
    && added.id !in Ids(rs) && (added.id == r.id || r.id in Ids(rs))
  }

  /** Such a record stands at `p`. */
  ghost predicate RestoredAt(after: seq<Record>, p: nat, r: Record) {
    p < |after| && RestoredBeside(after[..p], r, after[p])
  }

  /** Restoring under KeepBoth adds every backup record, in order, behind the old ones, which stay. */
  lemma {:induction false} KeepBothRestores(rs: seq<Record>, records: seq<Record>, source: IdSource, i: nat)
    requires i < |records|
    ensures var after := Merge(rs, Backups(records), KeepBoth, source).records;
            |after| == |rs| + |records| && rs <= after && RestoredAt(after, |rs| + i, records[i])
  {
    assert Backups(records)[..i + 1] == Backups(records[..i + 1]);
    KeepBothLater(rs, Backups(records), i + 1, source);
    KeepBothGrows(rs, records, i, source);
    RestoredStays(Merge(rs, Backups(records[..i + 1]), KeepBoth, source).records,
                  Merge(rs, Backups(records), KeepBoth, source).records, |rs| + i, records[i]);
  }

  /** One more backup record, behind everything that was there before. */
  lemma {:induction false} KeepBothGrows(rs: seq<Record>, records: seq<Record>, n: nat, source: IdSource)
    requires n < |records|
    ensures RestoredAt(Merge(rs, Backups(records[..n + 1]), KeepBoth, source).records, |rs| + n, records[n])
  {
    var m := Merge(rs, Backups(records[..n]), KeepBoth, source);
    KeepBothAppends(rs, Backups(records[..n]), source);
    Conservation(rs, Backups(records[..n]), KeepBoth, source);
    MergeSnoc(rs, records, n, KeepBoth, source);
    KeepBothRestoresOne(m, records[n], source);
  }

  lemma {:induction false} RestoredStays(before: seq<Record>, after: seq<Record>, p: nat, r: Record)
    requires before <= after && RestoredAt(before, p, r)
    ensures RestoredAt(after, p, r)
  {
    assert after[..p] == before[..p];
  }

  lemma KeepBothRestoresOne(m: Merged, r: Record, source: IdSource)
    ensures var rs, after := m.records, MergeOne(m, Backup(r), KeepBoth, source).records;
            && |after| == |rs| + 1 && after[..|rs|] == rs && RestoredBeside(rs, r, after[|rs|])
  {
    assert Key(r.origin, r.username) == KeyOf(r);
  }
}
