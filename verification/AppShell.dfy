/** The UI handlers' snapshot / mutate / persist / restore pattern, and serial runs of the whole app. */
module AppShell {
  import opened Prelude
  import opened Crypto
  import opened Records
  import opened BulkMerge
  import opened Store
  import opened Engine
  import Approvals
  import Sessions
  import HostSession

  datatype UiOp =
    | SaveNew(record: Record)
    | EditSave(id: Uuid, title: string, color: int, username: string, password: string)
    | SetArchived(id: Uuid, archived: bool)
    | Delete(id: Uuid)
    | ChangeColor(id: Uuid, color: int)
    | MergeConfirm(batch: seq<Incoming>, policy: Policy, source: IdSource)

  /** The mutated records, and whether the handler goes on to persist them. */
  datatype Mutation = Mutation(records: seq<Record>, persist: bool)

  function IfDone(rs: seq<Record>, done: Result<seq<Record>, StoreError>): Mutation {
    if done.Ok? then Mutation(done.value, true) else Mutation(rs, false)
  }

  /** An empty password in the edit form keeps the current one. */
  function EditedPassword(rs: seq<Record>, id: Uuid, password: string): string {
    if password != "" then password
    else
      var p := FindId(rs, id);
      if p.None? then "" else rs[p.value].password
  }

  function Mutate(rs: seq<Record>, op: UiOp): Mutation {
    match op
    case SaveNew(r) => Mutation(rs + [r], true)
    case EditSave(id, title, color, username, password) =>
      var kept := EditedPassword(rs, id, password);
      IfDone(rs, UpdateById(rs, id, (r: Record) =>
                                r.(title := title, color := color, username := username, password := kept)))
    case SetArchived(id, archived) =>
      // a missing record is ignored, and the unchanged records are persisted
      var done := UpdateById(rs, id, (r: Record) => r.(archived := archived));
      Mutation(if done.Ok? then done.value else rs, true)
    case Delete(id) => IfDone(rs, DeleteForever(rs, id))
    case ChangeColor(id, color) => IfDone(rs, UpdateById(rs, id, (r: Record) => r.(color := color)))
    case MergeConfirm(batch, policy, source) =>
      var m := Merge(rs, batch, policy, source);
      Mutation(m.records, m.imported > 0 || m.replaced > 0)
  }

  datatype Memory = Memory(records: seq<Record>, durable: seq<Record>)

  /** A whole handler call, under the store lock throughout. */
  function UiStep(m: Memory, op: UiOp, persistOk: bool): Memory {
    var mutated := Mutate(m.records, op);
    if !mutated.persist then Memory(mutated.records, m.durable)
    else if persistOk then Memory(mutated.records, mutated.records)
    else m
  }

  class App {
    const keystore: Keystore
    var durable: seq<Record>

    function View(): Memory
      reads this, keystore
    {
      Memory(keystore.records, durable)
    }

    constructor (keystore: Keystore)
      ensures this.keystore == keystore && View() == Memory(keystore.records, keystore.records)
    {
      this.keystore, this.durable := keystore, keystore.records;
    }

    /** Seal and write the store, or put the snapshot back. */
    method PersistOrRestore(snapshot: seq<Record>, persistOk: bool) returns (saved: bool)
      modifies this`durable, keystore
      ensures saved == persistOk
      ensures View() == if persistOk then Memory(old(keystore.records), old(keystore.records))
                        else Memory(snapshot, old(durable))
    {
      if !persistOk {
        keystore.records := snapshot;
        return false;
      }
      durable := keystore.records;
      return true;
    }

    method OnSaveNew(r: Record, persistOk: bool) returns (saved: bool)
      modifies this`durable, keystore
      ensures View() == UiStep(old(View()), SaveNew(r), persistOk)
    {
      var snapshot := keystore.records;
      keystore.Add(r);
      saved := PersistOrRestore(snapshot, persistOk);
    }

    method OnEditSave(id: Uuid, title: string, color: int, username: string, password: string, persistOk: bool)
      returns (saved: bool)
      modifies this`durable, keystore
      ensures View() == UiStep(old(View()), EditSave(id, title, color, username, password), persistOk)
    {
      var snapshot := keystore.records;
      var newPassword := EditedPassword(keystore.records, id, password);
      var done := keystore.Edit(id, title, color, username, newPassword);
      if done.Err? {
        return false;
      }
      saved := PersistOrRestore(snapshot, persistOk);
    }

    method OnSetArchived(id: Uuid, archived: bool, persistOk: bool) returns (saved: bool)
      modifies this`durable, keystore
      ensures View() == UiStep(old(View()), SetArchived(id, archived), persistOk)
    {
      var snapshot := keystore.records;
      var _ := keystore.SetArchived(id, archived);
      saved := PersistOrRestore(snapshot, persistOk);
    }

    method OnDeleteForever(id: Uuid, persistOk: bool) returns (saved: bool)
      modifies this`durable, keystore
      ensures View() == UiStep(old(View()), Delete(id), persistOk)
    {
      var snapshot := keystore.records;
      var done := keystore.Delete(id);
      if done.Err? {
        return false;
      }
      saved := PersistOrRestore(snapshot, persistOk);
    }

    method OnChangeColor(id: Uuid, color: int, persistOk: bool) returns (saved: bool)
      modifies this`durable, keystore
      ensures View() == UiStep(old(View()), ChangeColor(id, color), persistOk)
    {
      var snapshot := keystore.records;
      var done := keystore.SetColor(id, color);
      if done.Err? {
        return false;
      }
      saved := PersistOrRestore(snapshot, persistOk);
    }

    method OnImportConfirm(items: seq<ImportItem>, mints: seq<Mint>, policy: Policy, ghost source: IdSource,
                           persistOk: bool)
      returns (summary: Option<Summary>)
      requires |items| == |mints|
      modifies this`durable, keystore
      ensures View() == UiStep(old(View()), MergeConfirm(CsvBatch(items, mints), policy, source), persistOk)
    {
      var snapshot := keystore.records;
      var counts := keystore.ImportMany(items, mints, policy, source);
      if counts.imported > 0 || counts.replaced > 0 {
        var saved := PersistOrRestore(snapshot, persistOk);
        if !saved {
          return None;
        }
      }
      return Some(counts);
    }

    method OnBackupRestoreConfirm(backup: seq<Record>, policy: Policy, source: IdSource, persistOk: bool)
      returns (summary: Option<Summary>)
      modifies this`durable, keystore
      ensures View() == UiStep(old(View()), MergeConfirm(Backups(backup), policy, source), persistOk)
    {
      var snapshot := keystore.records;
      var counts := keystore.RestoreMany(backup, policy, source);
      if counts.imported > 0 || counts.replaced > 0 {
        var saved := PersistOrRestore(snapshot, persistOk);
        if !saved {
          return None;
        }
      }
      return Some(counts);
    }
  }

  // ----- serial runs ----------------------------------------------------------

  /** Everything that happens to the app when one thing happens at a time. */
  datatype Op =
    | Handshake(hostHex: string, secret: nat, now: u64)
    | ReleaseOp(r: ReleaseParams, now: u64, decision: Approvals.Decision, iv: Iv)
    | StoreOp(s: StoreParams, now: u64, decision: Approvals.Decision, mint: Mint, persistOk: bool)
    | GenerateOp(g: GenerateParams, now: u64, decision: Approvals.Decision, password: string,
                 mint: Mint, persistOk: bool, iv: Iv)
    | Ui(op: UiOp, persistOk: bool)

  function Apply(w: World, env: Env, op: Op): World {
    match op
    case Handshake(hostHex, secret, now) =>
      w.(session := Sessions.Accept(w.session, env.suite, hostHex, secret, now).data)
    case ReleaseOp(r, now, decision, iv) => ServeRelease(w, env, r, now, decision, iv).world
    case StoreOp(s, now, decision, mint, ok) => ServeStore(w, env, s, now, decision, mint, ok).world
    case GenerateOp(g, now, decision, password, mint, ok, iv) =>
      ServeGenerate(w, env, g, now, decision, password, mint, ok, iv).world
    case Ui(op, ok) =>
      var m := UiStep(Memory(w.store, w.durable), op, ok);
      w.(store := m.records, durable := m.durable)
  }

  function Run(w: World, env: Env, ops: seq<Op>): World {
    if ops == [] then w else Apply(Run(w, env, ops[..|ops| - 1]), env, ops[|ops| - 1])
  }

  predicate FirstWithId(rs: seq<Record>, id: Uuid, j: int) {
    0 <= j < |rs| && rs[j].id == id && forall i :: 0 <= i < j ==> rs[i].id != id
  }

  /** The one record `j` changed to `r`, and persisted. */
  predicate Rewrites(rs: seq<Record>, m: Mutation, j: int, r: Record) {
    && m.persist && 0 <= j < |rs| && |m.records| == |rs| && m.records[j] == r
    && forall i :: 0 <= i < |rs| && i != j ==> m.records[i] == rs[i]
  }

  /** What each operation on a record does to the first record with its id, `j`. */
  ghost predicate Acts(rs: seq<Record>, op: UiOp, m: Mutation, j: int)
    requires 0 <= j < |rs|
  {
    match op
    case EditSave(_, title, color, username, password) =>
      Rewrites(rs, m, j, rs[j].(title := title, color := color, username := username,
                                password := if password == "" then rs[j].password else password))
    case SetArchived(_, archived) => Rewrites(rs, m, j, rs[j].(archived := archived))
    case ChangeColor(_, color) => Rewrites(rs, m, j, rs[j].(color := color))
    case Delete(_) =>
      if !rs[j].archived then m == Mutation(rs, false)
      else
        && m.persist && |m.records| == |rs| - 1
        && (forall i :: 0 <= i < j ==> m.records[i] == rs[i])
        && (forall i :: j < i < |rs| ==> m.records[i - 1] == rs[i])
    case _ => true
  }

  /**
   * The UI operations in the records' own terms: an edit, an archiving, a deletion or a colour acts on the
   * first record with the id alone, deletion only if it is archived; without one nothing changes, and only
   * the archive switch persists. Adding appends. A merge is persisted iff it imported or replaced anything.
   */
  lemma {:induction false} UiMeans(rs: seq<Record>, op: UiOp)
    ensures op.SaveNew? ==> Mutate(rs, op) == Mutation(rs + [op.record], true)
    ensures op.MergeConfirm? ==>
              var m := Merge(rs, op.batch, op.policy, op.source);
              Mutate(rs, op) == Mutation(m.records, m.imported + m.replaced > 0)
    ensures !op.SaveNew? && !op.MergeConfirm? ==>
              && (forall j :: FirstWithId(rs, op.id, j) ==> Acts(rs, op, Mutate(rs, op), j))
              && ((forall j :: 0 <= j < |rs| ==> rs[j].id != op.id) ==> Mutate(rs, op) == Mutation(rs, op.SetArchived?))
  {
    if !op.SaveNew? && !op.MergeConfirm? {
      forall j | FirstWithId(rs, op.id, j) ensures Acts(rs, op, Mutate(rs, op), j) {
        ActsOnFirst(rs, op, j);
      }
      if forall j :: 0 <= j < |rs| ==> rs[j].id != op.id {
        ActsOnNone(rs, op);
      }
    }
  }

  lemma {:induction false} ActsOnFirst(rs: seq<Record>, op: UiOp, j: nat)
    requires !op.SaveNew? && !op.MergeConfirm? && FirstWithId(rs, op.id, j)
    ensures Acts(rs, op, Mutate(rs, op), j)
  {
    FindIdIs(rs, op.id, j);
    if op.Delete? && rs[j].archived {
      Removed(rs, j);
    }
  }

  lemma {:induction false} Removed(rs: seq<Record>, j: nat)
    requires j < |rs|
    ensures var after := rs[..j] + rs[j + 1..];
            && |after| == |rs| - 1
            && (forall i :: 0 <= i < j ==> after[i] == rs[i])
            && (forall i :: j < i < |rs| ==> after[i - 1] == rs[i])
  {
  }

  lemma {:induction false} ActsOnNone(rs: seq<Record>, op: UiOp)
    requires !op.SaveNew? && !op.MergeConfirm? && forall j :: 0 <= j < |rs| ==> rs[j].id != op.id
    ensures Mutate(rs, op) == Mutation(rs, op.SetArchived?)
  {
    assert FindId(rs, op.id).None?;
  }

  /** A handler that does not persist has not changed the records. */
  lemma {:induction false} UnpersistedIsUnchanged(rs: seq<Record>, op: UiOp)
    ensures !Mutate(rs, op).persist ==> Mutate(rs, op).records == rs
  {
    if op.MergeConfirm? && !Mutate(rs, op).persist {
      NothingCountedNothingChanged(rs, op.batch, op.policy, op.source);
    }
  }

  /** In serial runs memory and durable state agree after every operation, persisted or not. */
  lemma {:induction false} MemoryMatchesDurable(w: World, env: Env, ops: seq<Op>)
    requires w.store == w.durable
    ensures Run(w, env, ops).store == Run(w, env, ops).durable
  {
    if ops != [] {
      var n := |ops| - 1;
      MemoryMatchesDurable(w, env, ops[..n]);
      var before := Run(w, env, ops[..n]);
      if ops[n].Ui? {
        UnpersistedIsUnchanged(before.store, ops[n].op);
      }
    }
  }

  predicate PersistFails(op: Op) {
    (op.StoreOp? || op.GenerateOp? || op.Ui?) && !op.persistOk
  }

  /** When persisting fails, the operation leaves the store as it found it. */
  lemma {:induction false} FailedPersistRollsBack(w: World, env: Env, op: Op)
    requires PersistFails(op)
    ensures Apply(w, env, op).store == w.store && Apply(w, env, op).durable == w.durable
  {
    if op.Ui? {
      UnpersistedIsUnchanged(w.store, op.op);
    }
  }

  /** A store request answers ok exactly when it has written both copies, and else writes neither. */
  lemma StoreIsAtomic(w: World, env: Env, p: StoreParams, now: u64, decision: Approvals.Decision, mint: Mint,
                      persistOk: bool)
    ensures var s := ServeStore(w, env, p, now, decision, mint, persistOk);
            && (s.result.Err? ==> s.world.store == w.store && s.world.durable == w.durable)
            && (s.result.Ok? ==>
                  decision == Approvals.Approve && persistOk && s.world.store == s.world.durable
                  && exists k, password :: CheckWrite(env, p.origin, p.username, p.title) == Ok(k)
                                           && s.world.store == Upsert(w.store, k, password, p.title, mint))
  {
  }

  /**
   * A generate request that answers ok has stored, durably, the very password it sends. It can also
   * fail after storing, but only because sealing the reply failed.
   */
  lemma {:induction false} GeneratedIsStored(w: World, env: Env, p: GenerateParams, now: u64,
                                             decision: Approvals.Decision, password: string, mint: Mint,
                                             persistOk: bool, iv: Iv)
    ensures var s := ServeGenerate(w, env, p, now, decision, password, mint, persistOk, iv);
            && (s.result.Ok? ==>
                  && decision == Approvals.Approve && s.world.store == s.world.durable
                  && CheckWrite(env, p.origin, p.username, p.title).Ok?
                  && s.world.store
                     == Upsert(w.store, CheckWrite(env, p.origin, p.username, p.title).value, password, p.title, mint)
                  && w.session.key.Some?
                  && HostSession.Unsealed(env.suite, w.session.key.value, s.result.value.sealed)
                     == Ok(env.utf8.encode(password)))
            && (Sessions.KeyInvariant(w.session) && s.result.Err? && s.world.store != w.store ==>
                  w.session.key.Some?
                  && Seal(env.suite.cipher, w.session.key.value, iv, env.utf8.encode(password)).None?)
  {
    var gated := GateSession(w.session, p.nonce, now, env.idleMs);
    GateOpensExactly(w.session, p.nonce, now, env.idleMs);
    if ServeGenerate(w, env, p, now, decision, password, mint, persistOk, iv).result.Ok? {
      HostSession.DeviceToHost(env.suite, gated.session, iv, env.utf8.encode(password), now);
    }
  }

  // ----- store, then release --------------------------------------------------

  /** The request the host makes to store `plain`, accepted by the device. */
  ghost predicate Stored(w: World, env: Env, p: StoreParams, now: u64, mint: Mint,
                         iv: Iv, plain: seq<byte>, after: World)
  {
    && w.session.key.Some?
    && HostSession.SealedHex(env.suite, w.session.key.value, iv, plain) == Ok(p.sealed)
    && ServeStore(w, env, p, now, Approvals.Approve, mint, true).result.Ok?
    && after == ServeStore(w, env, p, now, Approvals.Approve, mint, true).world
  }

  lemma {:induction false} StoredPassword(w: World, env: Env, p: StoreParams, now: u64, mint: Mint, iv: Iv,
                                          plain: seq<byte>, after: World)
    returns (k: Key, password: string)
    requires Stored(w, env, p, now, mint, iv, plain, after)
    ensures CheckWrite(env, p.origin, p.username, p.title) == Ok(k) && k.username == p.username
    ensures env.utf8.encode(password) == plain
    ensures after.store == Upsert(w.store, k, password, p.title, mint)
  {
    k := CheckWrite(env, p.origin, p.username, p.title).value;
    var gated := GateSession(w.session, p.nonce, now, env.idleMs);
    GateOpensExactly(w.session, p.nonce, now, env.idleMs);
    HostSession.HostToDevice(env.suite, gated.session, iv, plain, now);
    password := OpenPassword(env, gated.session, p.sealed, now).password.value;
  }

  /**
   * Store then release: with the store untouched in between (the session may be a new one), a release
   * for the same origin and user succeeds iff it is gated, approved and encrypted, and then the host
   * opens the reply to the very bytes it stored, whatever duplicate or archived records there are.
   */
  lemma {:induction false} StoreThenRelease(w: World, env: Env, p: StoreParams, now: u64, mint: Mint, iv: Iv,
                                            plain: seq<byte>, after: World, later: World, q: ReleaseParams, now2: u64,
                                            decision: Approvals.Decision, iv2: Iv)
    requires Stored(w, env, p, now, mint, iv, plain, after)
    requires later.store == after.store
    requires CheckRelease(env, q) == Ok(CheckWrite(env, p.origin, p.username, p.title).value.origin)
    requires q.hint == Some(p.username)
    ensures var s := ServeRelease(later, env, q, now2, decision, iv2);
            var gated := GateSession(later.session, q.nonce, now2, env.idleMs);
            && (s.result.Ok? <==> gated.result.Ok? && decision == Approvals.Approve
                                  && Sessions.SealPayload(gated.session, env.suite, iv2, plain, now2).hex.Ok?)
            && (s.result.Ok? ==>
                  && s.result.value.username == p.username
                  && later.session.key.Some?
                  && HostSession.Unsealed(env.suite, later.session.key.value, s.result.value.sealed) == Ok(plain))
  {
    var k, password := StoredPassword(w, env, p, now, mint, iv, plain, after);
    UpsertThenFill(w.store, k, password, p.title, mint);
    var live := LiveOf(later.store, k.origin);
    assert Named(live, k.username).Some?;
    assert live != [];
    var gated := GateSession(later.session, q.nonce, now2, env.idleMs);
    GateOpensExactly(later.session, q.nonce, now2, env.idleMs);
    if ServeRelease(later, env, q, now2, decision, iv2).result.Ok? {
      HostSession.DeviceToHost(env.suite, gated.session, iv2, plain, now2);
    }
  }
}
