/** The in-memory keystore: a vector of records updated in place. */
module Store {
  import opened Prelude
  import opened Records
  import opened BulkMerge

  datatype Summary = Summary(imported: nat, skipped: nat, replaced: nat)

  function CsvBatch(items: seq<ImportItem>, mints: seq<Mint>): seq<Incoming>
    requires |items| == |mints|
  {
    seq(|items|, i requires 0 <= i < |items| => Csv(items[i], mints[i]))
  }

  class Keystore {
    var records: seq<Record>

    constructor (records: seq<Record>)
      ensures this.records == records
    {
      this.records := records;
    }

    method Add(r: Record)
      modifies this
      ensures records == old(records) + [r]
    {
      records := records + [r];
    }

    method Edit(id: Uuid, title: string, color: int, username: string, password: string)
      returns (done: Result<(), StoreError>)
      modifies this
      ensures match UpdateById(old(records), id, (r: Record) =>
                      r.(title := title, color := color, username := username, password := password))
              case Ok(after) => done == Ok(()) && records == after
              case Err(e) => done == Err(e) && records == old(records)
    {
      var p := FindId(records, id);
      if p.None? {
        return Err(NotFound);
      }
      records := records[p.value := records[p.value].(title := title, color := color,
                                                      username := username, password := password)];
      return Ok(());
    }

    method SetArchived(id: Uuid, archived: bool) returns (done: Result<(), StoreError>)
      modifies this
      ensures match UpdateById(old(records), id, (r: Record) => r.(archived := archived))
              case Ok(after) => done == Ok(()) && records == after
              case Err(e) => done == Err(e) && records == old(records)
    {
      var p := FindId(records, id);
      if p.None? {
        return Err(NotFound);
      }
      records := records[p.value := records[p.value].(archived := archived)];
      return Ok(());
    }

    method SetColor(id: Uuid, color: int) returns (done: Result<(), StoreError>)
      modifies this
      ensures match UpdateById(old(records), id, (r: Record) => r.(color := color))
              case Ok(after) => done == Ok(()) && records == after
              case Err(e) => done == Err(e) && records == old(records)
    {
      var p := FindId(records, id);
      if p.None? {
        return Err(NotFound);
      }
      records := records[p.value := records[p.value].(color := color)];
      return Ok(());
    }

    /** Only archived records can be deleted. */
    method Delete(id: Uuid) returns (done: Result<(), StoreError>)
      modifies this
      ensures match DeleteForever(old(records), id)
              case Ok(after) => done == Ok(()) && records == after
              case Err(e) => done == Err(e) && records == old(records)
    {
      var p := FindId(records, id);
      if p.None? {
        return Err(NotFound);
      }
      if !records[p.value].archived {
        return Err(NotArchived);
      }
      records := records[..p.value] + records[p.value + 1..];
      return Ok(());
    }

    method UpsertCredential(k: Key, password: string, title: Option<string>, mint: Mint)
      modifies this
      ensures records == Upsert(old(records), k, password, title, mint)
    {
      var p := Find(records, k);
      if p.Some? {
        var rec := records[p.value].(password := password);
        if title.Some? {
          rec := rec.(title := title.value);
        }
        rec := rec.(archived := false, lastUsedAt := mint.now);
        records := records[p.value := rec];
        return;
      }
      var rec := NewRecord(k, password, mint).(color := AutomaticColor(|records|));
      if title.Some? {
        rec := rec.(title := title.value);
      }
      rec := rec.(lastUsedAt := mint.now);
      records := records + [rec];
    }

    /** The retry loop: draw until an id is unused. */
    method UniqueRecordId(source: IdSource, preferred: Uuid) returns (id: Uuid)
      ensures id == UniqueId(source, Ids(records), preferred)
    {
      var used := Ids(records);
      if preferred !in used {
        return preferred;
      }
      var tape := source(used);
      while tape[0] in used
        invariant HasUnused(tape, used) && FirstUnused(tape, used) == FirstUnused(source(used), used)
        decreases |tape|
      {
        LaterUnused(tape, used);
        tape := tape[1..];
      }
      return tape[0];
    }

    method RestoreMany(backup: seq<Record>, policy: Policy, source: IdSource) returns (summary: Summary)
      modifies this
      ensures var m := Merge(old(records), Backups(backup), policy, source);
              records == m.records && summary == Summary(m.imported, m.skipped, m.replaced)
    {
      var imported, skipped, replaced := 0, 0, 0;
      for i := 0 to |backup|
        invariant Merged(records, imported, skipped, replaced)
               == Merge(old(records), Backups(backup[..i]), policy, source)
      {
        MergeSnoc(old(records), backup, i, policy, source);
        var incoming := backup[i];
        var pos := Find(records, KeyOf(incoming));
        match (pos, policy) {
          case (Some(_), Skip) =>
            skipped := skipped + 1;
          case (Some(p), Replace) =>
            records := records[p := incoming.(id := records[p].id)];
            replaced := replaced + 1;
          case (Some(_), KeepBoth) =>
            var id := UniqueRecordId(source, incoming.id);
            records := records + [incoming.(id := id, title := Marked(incoming.title, "(restored)"))];
            imported := imported + 1;
          case (None, _) =>
            var id := UniqueRecordId(source, incoming.id);
            records := records + [incoming.(id := id)];
            imported := imported + 1;
        }
      }
      assert backup[..|backup|] == backup;
      summary := Summary(imported, skipped, replaced);
    }

    /** `mints[i]` is the id and time that creating a record for `items[i]` would take. */
    method ImportMany(items: seq<ImportItem>, mints: seq<Mint>, policy: Policy, ghost source: IdSource)
      returns (summary: Summary)
      requires |items| == |mints|
      modifies this
      ensures var m := Merge(old(records), CsvBatch(items, mints), policy, source);
              records == m.records && summary == Summary(m.imported, m.skipped, m.replaced)
    {
      var imported, skipped, replaced := 0, 0, 0;
      ghost var batch := CsvBatch(items, mints);
      for i := 0 to |items|
        invariant Merged(records, imported, skipped, replaced) == Merge(old(records), batch[..i], policy, source)
      {
        assert batch[..i + 1][..i] == batch[..i];
        var item := items[i];
        var k := Key(item.origin, item.username);
        var pos := Find(records, k);
        match (pos, policy) {
          case (Some(_), Skip) =>
            skipped := skipped + 1;
          case (Some(p), Replace) =>
            var rec := records[p].(password := item.password);
            if item.title != "" {
              rec := rec.(title := item.title);
            }
            if item.notes != "" {
              rec := rec.(notes := Option.Some(item.notes));
            }
            records := records[p := rec.(archived := false)];
            replaced := replaced + 1;
          case (Some(_), KeepBoth) =>
            var rec := NewRecord(k, item.password, mints[i]).(color := AutomaticColor(|records|));
            rec := rec.(title := if item.title == "" then "(imported)" else item.title + " " + "(imported)");
            if item.notes != "" {
              rec := rec.(notes := Option.Some(item.notes));
            }
            records := records + [rec];
            imported := imported + 1;
          case (None, _) =>
            var rec := NewRecord(k, item.password, mints[i]).(color := AutomaticColor(|records|));
            rec := rec.(title := item.title);
            if item.notes != "" {
              rec := rec.(notes := Option.Some(item.notes));
            }
            records := records + [rec];
            imported := imported + 1;
        }
      }
      assert batch[..|items|] == batch;
      summary := Summary(imported, skipped, replaced);
    }
  }

  lemma LaterUnused(tape: seq<Uuid>, used: set<Uuid>)
    requires HasUnused(tape, used) && tape[0] in used
    ensures HasUnused(tape[1..], used)
  {
    var i :| 0 <= i < |tape| && tape[i] !in used;
    assert tape[1..][i - 1] == tape[i];
  }

  /** Archiving undoes restoring and restoring archiving; only an archived record can be deleted. */
  lemma {:induction false} ArchiveRestores(rs: seq<Record>, id: Uuid)
    requires FindId(rs, id).Some?
    ensures var was := rs[FindId(rs, id).value].archived;
            var flipped := UpdateById(rs, id, (r: Record) => r.(archived := !was)).value;
            && UpdateById(flipped, id, (r: Record) => r.(archived := was)) == Ok(rs)
            && (if was then DeleteForever(rs, id).Ok? else DeleteForever(rs, id) == Err(NotArchived))
            && (if was then DeleteForever(flipped, id) == Err(NotArchived) else DeleteForever(flipped, id).Ok?)
  {
    var p := FindId(rs, id).value;
    var was := rs[p].archived;
    var flipped := UpdateById(rs, id, (r: Record) => r.(archived := !was)).value;
    assert flipped[p].id == id && forall j :: 0 <= j < p ==> flipped[j].id != id;
    FindIdIs(flipped, id, p);
    assert flipped[p := flipped[p].(archived := was)] == rs;
  }

  lemma {:induction false} FindIdIs(rs: seq<Record>, id: Uuid, p: nat)
    requires p < |rs| && rs[p].id == id && forall j :: 0 <= j < p ==> rs[j].id != id
    ensures FindId(rs, id) == Some(p)
  {
  }
}
