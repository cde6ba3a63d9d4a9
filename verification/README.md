# Passport Passwords: a verified model

A Dafny model of the logic of a hardware password manager and its browser extension: the device's
protocol engine, session, approval slot, keystore, import and backup, the line framing between host and
device, and the extension's RPC chain and transport table. `dafny verify dfyconfig.toml` checks it.

How the parts are modelled:

- Code that updates state in place is a class (`Sessions.Session`, `Store.Keystore`, `Engine.Engine`,
  `AppShell.App`, `Approvals.ApprovalDesk`, `Framing.LineSplitter`, `Framing.Reader`, `Framing.JsReadLoop`,
  `Csv.RowIter`, `Password.OsRng`, `HostChain.Background`, `UsbTransport.WebUsbTransport`). Its methods are
  proved against functions on values, and the properties are proved about those functions.
- Requests in flight together are a transition system (`Protocol`): every lock acquisition of a handler is
  one step, and steps of different requests, taps, timeouts, cancels, handshakes and UI operations
  interleave freely. `SerialRuns` proves that the one-at-a-time engine is a special case of it.
- What requests answer, who decides an approval and what merges leave in a record are also stated on plain
  positions and fields, away from the functions that compute them (`Outcomes`, `Deliveries`, `Secrets`,
  `MergeFields`).
- AEAD, HMAC, key agreement, JSON, UTF-8 and URL parsing are arbitrary functions with only their inverse or
  agreement laws. Randomness is an arbitrary tape, arbitrary ids, or an arbitrary id source that eventually
  yields an unused id. Clocks are parameters.

Places where the code does not do what its documentation or comments promise, each with a lemma:

- A line over 16 KiB is not rejected by the device's reader (docs/PROTOCOL.md says it is): the line is cut
  to its last (length mod 16385) bytes, which are delivered as a payload unless there are none
  (`Framing.ReaderOneLine`). `LineSplitter` does reject it, but with it the complete lines of the same push
  (`Framing.OverflowDiscardsEarlierLines`).
- The extension's read loop counts the newline: a reply of exactly the cap, which both Rust splitters accept,
  tears the transport down, and this is exactly when a lone reply does (`Framing.JsSingleFrame`).
- The header the comments give for Apple exports is taken for 1Password, and Proton's for Google
  (`Import.AppleIsOnePassword`, `Import.ProtonIsGoogle`); Apple's signature is reached exactly without a notes
  column. The columns are mapped alike either way (`Import.AppleNeedsNoNotes`, `Import.ShadowedSourcesMapAlike`).
- Memory and durable state agree after every operation when operations do not overlap. They can come apart
  exactly by a clash: a second request or UI operation enters a commit under way and makes a difference
  (`Overlap.ClashesExactly`). Any two approved writes can end with both persisted, the host told so, and
  neither in memory (`Overlap.OverlapDiverges`, `Overlap.LostAfterSaved`).
- The FIFO chain alone does not keep nonces in order. After a run without hazards a step makes reuse possible
  exactly if it begins a handshake while another may still succeed, or resets the session while an action is
  past its last look at the session key and has not numbered its request (`HostChain.HazardsExactly`). An
  extension that begins no handshake during another, and no reset during an action, is safe. Reuse is shown
  for keys the device accepts with some secret of its own, and a positive idle timeout.
- A transport teardown leaves no RPC pending exactly when none was pending or no earlier teardown is still
  closing the device (`UsbTransport.TearDownEmptiesExactly`, `UsbTransport.TearDownCanLeavePending`).
- A generate request can answer with an error after the password was saved, but only if sealing the reply
  failed (`AppShell.GeneratedIsStored`, `ProtocolSafety.GeneratedReplies`); a handshake that fails while the
  approval is pending is enough (`Overlap.StoredButRefused`).
- After an overflow `LineSplitter` does not skip to the next line: it goes on in the middle of the oversize one
  (`Framing.OverflowResumesMidLine`).

The Rust field `label` is `title` here.

## Model

| member | source | states |
|---|---|---|
| ProtocolSafety.EffectsAreApproved | logic/vaults-bridge-core/src/engine.rs:194-419 | In every run, under any interleaving, before a password is sent or a record written, an approval raised for that very request, with that origin and username and the right kind of action, has been answered Approve |
| Deliveries.EffectsFollowTaps | logic/vaults-bridge-core/src/engine.rs:194-419 | In every run each such effect follows a tap on approve taken while the slot held the question of that very request, with its origin, username and kind of action |
| Deliveries.DecisionsAreDelivered | src/main.rs:95-119 | In every run a decision went to what was in the slot: Approve by an approving tap only, Reject by a rejecting tap, a cancel or a raise, Timeout by the worker not before the deadline |
| Deliveries.TapsAndCancels | src/main.rs:634-654 | An approving tap appends Approve for what is in the slot, a rejecting tap and a host's cancel Reject, and each empties the slot; an empty slot stays |
| Deliveries.TimeoutPasses | src/main.rs:669-685 | The worker appends Timeout for what is in the slot and empties it iff its deadline has come |
| Deliveries.Raises | src/main.rs:584-597 | A raise puts its question in the slot for 60 seconds and appends Reject for what was there |
| Deliveries.Withdrawals | src/main.rs:615-621 | A card that cannot be shown is taken out of the slot if still there, and its request is refused |
| ProtocolSafety.ReleaseReplies | logic/vaults-bridge-core/src/engine.rs:238-263 | Every successful release reply is such an effect, for the origin requested and with the username the reply carries |
| ProtocolSafety.ReleasedPassword | logic/vaults-bridge-core/src/engine.rs:213-263 | Under any interleaving a release reply opens, with the key of the session it was sealed in, to the password that a live record of exactly the requested origin and the replied username had when that request looked it up |
| Secrets.StoredWasSent | logic/vaults-bridge-core/src/engine.rs:285-337 | Under any interleaving what a store request writes is what its sealed text opened to in the session of that moment |
| Secrets.SentWasStored | logic/vaults-bridge-core/src/engine.rs:394-413 | Under any interleaving the password a generate request sends is the one it wrote, of its length and classes |
| ProtocolSafety.GeneratedReplies | logic/vaults-bridge-core/src/engine.rs:394-418 | A persisted generated password is answered with iff the session is still active with its key and encryption succeeds, and the reply opens to it; the stores keep it either way, and exactly the reply counts as sent |
| ProtocolSafety.StoreChanges | logic/vaults-bridge-core/src/engine.rs:329-337 | Apart from UI operations and rollbacks the store changes only by an upsert of the requested key, for which that very request's approval was answered Approve |
| ProtocolSafety.ApprovalsAreNotReused | src/main.rs:584-632 | Two effects of the same kind never rest on the same approval |
| ProtocolSafety.SlotInRuns | src/main.rs:51-55 | The slot's invariant holds in every state of every protocol run |
| ProtocolSafety.SessionOfRun | logic/vaults-bridge-core/src/engine.rs:421-439 | Every protocol run is, for its session, a run of the session state machine, with the gate's accepted nonces in the same order |
| ProtocolSafety.NoncesIncreaseInRuns | logic/vaults-bridge-core/src/engine.rs:421-428 | Under any interleaving the nonces let through since the last handshake strictly increase; an active session has a key and an expired one none |
| ProtocolSafety.LoneRunsAgree | logic/vaults-bridge-core/src/engine.rs:441-463 | In runs with no other writer during a commit, memory equals durable state whenever no commit is under way, and the snapshot equals it during one |
| ProtocolSafety.ClashFreeRunsAgree | logic/vaults-bridge-core/src/engine.rs:441-463 | The same in runs in which writers may enter a commit as long as none makes a difference: a request changing the store or finding the copies different, a UI operation changing the durable copy |
| Overlap.ClashesExactly | logic/vaults-bridge-core/src/engine.rs:441-463 | After a run without clashes a step is a clash iff memory and durable state can come apart after it without another clash |
| Overlap.LostAfterSaved | logic/vaults-bridge-core/src/engine.rs:447-458 | A run from an empty vault in which a host is told its generated password is saved, the durable copy has it, no commit is under way, and memory is empty |
| Overlap.StoredButRefused | logic/vaults-bridge-core/src/engine.rs:376-418 | A run in which a handshake fails while a generate request waits for its approval: the password is stored and persisted, the host gets SessionExpired |
| Overlap.OverlapDiverges | logic/vaults-bridge-core/src/engine.rs:441-463 | From any state with two approved writes, store or generate, an ending is reachable in which the durable copy has both, memory neither, the second host got its reply and the first an error |
| ProtocolRuns.AskAndAnswer | src/main.rs:584-632 | With the slot free every answer to a question is reachable, and asking changes nothing but slot, question and the request itself |
| SerialRuns.ReleaseIsARun | src/transport/webusb.rs:214-222 | Whatever the serial engine answers and leaves behind for a well-formed release is reached by a protocol run of that request alone |
| SerialRuns.StoreIsARun | src/transport/webusb.rs:214-222 | The same for store requests, persisted or not |
| SerialRuns.GenerateIsARun | src/transport/webusb.rs:214-222 | The same for generate requests |
| Approvals.DeskInvariantHolds | src/main.rs:95-119 | In every run each approval is raised once and settled at most once, after it was raised and a timeout never before its deadline; the only open one is the one in the slot |
| Approvals.SupersededIsRejected | src/main.rs:587-597 | In every run an approval still open when another is raised is settled by Reject at that moment, and by nothing else ever |
| Approvals.WorkerDecidesOverdue | src/main.rs:665-703 | One worker pass at or after the deadline leaves the approval settled |
| Approvals.ApprovalDesk.Request | src/main.rs:584-597 | A fresh id, the slot replaced with a 60 s deadline, the old pending rejected |
| Approvals.ApprovalDesk.ScheduleFailed | src/main.rs:615-621 | The slot is cleared only if it still holds this approval |
| Approvals.ApprovalDesk.OnApprove | src/main.rs:98-106 | A tap empties the slot and delivers Approve to what was in it |
| Approvals.ApprovalDesk.OnReject | src/main.rs:111-119 | A tap empties the slot and delivers Reject to what was in it |
| Approvals.ApprovalDesk.CancelPending | src/main.rs:634-654 | Reject to what was pending, and whether there was anything |
| Approvals.ApprovalDesk.TimeoutPass | src/main.rs:669-685 | Timeout to what is in the slot exactly if its deadline has come |
| AppShell.MemoryMatchesDurable | src/main.rs:155-464 | In serial runs of handshakes, requests and UI operations memory equals durable state after every one, persisted or not |
| AppShell.UnpersistedIsUnchanged | src/main.rs:344-360 | A handler that does not persist has changed no record; for imports and restores this is imported = replaced = 0 |
| AppShell.UiMeans | src/main.rs:155-464 | An edit, archiving, deletion or colour acts on the first record with the id alone, deletion only if archived, an empty password keeping the old one; without such a record nothing changes; a merge persists iff it imported or replaced anything |
| AppShell.FailedPersistRollsBack | logic/vaults-bridge-core/src/engine.rs:453-460 | When persisting fails, the store and the durable copy are as before |
| AppShell.StoreIsAtomic | logic/vaults-bridge-core/src/engine.rs:266-338 | A store request answers ok only approved and persisted, with both copies written; on any error neither changed |
| AppShell.GeneratedIsStored | logic/vaults-bridge-core/src/engine.rs:340-419 | An ok generate reply opens at the host to the password durably stored; an error after storing means sealing failed |
| AppShell.StoreThenRelease | logic/vaults-bridge-core/src/engine.rs:213-263 | After a store, with the store untouched since, a release for that origin and user succeeds iff gated, approved and encrypted, and the host opens it to the bytes it stored, duplicates and archived records notwithstanding |
| AppShell.App.PersistOrRestore | src/main.rs:185-192 | Both copies equal on success; snapshot and old durable copy on failure |
| AppShell.App.OnSaveNew | src/main.rs:160-203 | The add handler's effect on memory and durable copy |
| AppShell.App.OnEditSave | src/main.rs:209-253 | The edit handler's effect, an empty password keeping the current one |
| AppShell.App.OnSetArchived | src/main.rs:261-296 | The archive and restore handlers' effect; a missing record is ignored and the rest persisted |
| AppShell.App.OnDeleteForever | src/main.rs:301-318 | The delete handler's effect |
| AppShell.App.OnChangeColor | src/main.rs:448-464 | The colour handler's effect |
| AppShell.App.OnImportConfirm | src/main.rs:335-369 | The import handler's effect, persisting only if something was imported or replaced |
| AppShell.App.OnBackupRestoreConfirm | src/main.rs:400-434 | The restore handler's effect, likewise |
| Engine.GateOpensExactly | logic/vaults-bridge-core/src/engine.rs:421-428 | The gate opens iff the session is active, idle time is under the threshold and the nonce exceeds the last; what it changes and which errors it gives otherwise |
| Engine.ChosenIsLive | logic/vaults-bridge-core/src/engine.rs:213-236 | What may be released is a live record of exactly that origin, and the hinted user's, or the only live one |
| Outcomes.ChooseWithoutHint | logic/vaults-bridge-core/src/engine.rs:216-236 | Without a hint: the record released is the one live record of the origin; UnknownOrigin iff there is none, MultipleMatches iff there are two |
| Outcomes.ChooseWithHint | logic/vaults-bridge-core/src/engine.rs:220-228 | With a hint: the first live record of that origin and username, UnknownOrigin iff there is none |
| Outcomes.ReleaseAnswers | logic/vaults-bridge-core/src/engine.rs:194-264 | Result and question of every release on every path: what is well formed, whether the gate opens, which credential is meant, the decision, and whether it can be sealed |
| Outcomes.ReleaseSucceeds | logic/vaults-bridge-core/src/engine.rs:194-264 | A release succeeds iff it is well formed, the gate opens, the credential meant exists, the user approves and encryption succeeds |
| Outcomes.StoreAnswers | logic/vaults-bridge-core/src/engine.rs:266-338 | Result, question and stores of every store on every path; the question and the answer are Save, Update or RestoreAndUpdate as the old store has no record, a live or an archived first record of the key |
| Outcomes.StoreSucceeds | logic/vaults-bridge-core/src/engine.rs:266-338 | A store succeeds as Saved, Updated or RestoredAndUpdated iff it is well formed, the gate opens, the text opens to UTF-8 of at most 512 bytes, the user approves, persisting succeeds, and the old store has it so |
| Outcomes.GenerateAnswers | logic/vaults-bridge-core/src/engine.rs:340-419 | Likewise for every generate request; it has stored what it cannot send |
| Outcomes.GateAnswers | logic/vaults-bridge-core/src/engine.rs:421-428 | The gate in the session's own fields, with the error and the session left for each reason to stay shut |
| Outcomes.SealAnswers | logic/vaults-bridge-core/src/session.rs:193-210 | Sealing succeeds iff there is a key and encryption succeeds, and resets the idle timer only then |
| Engine.Engine.Gate | logic/vaults-bridge-core/src/engine.rs:421-428 | The gate on the session object |
| Engine.Engine.CommitUpsert | logic/vaults-bridge-core/src/engine.rs:441-463 | Both copies updated, or the snapshot restored and Internal returned |
| Engine.Engine.HandleRelease | logic/vaults-bridge-core/src/engine.rs:194-264 | Result, session, stores and questions asked of a release, on every path |
| Engine.Engine.HandleStore | logic/vaults-bridge-core/src/engine.rs:266-338 | The same for a store |
| Engine.Engine.HandleGenerate | logic/vaults-bridge-core/src/engine.rs:340-419 | The same for a generate |
| Sessions.NoncesIncrease | logic/vaults-bridge-core/src/session.rs:163-178 | Over any run of session operations the nonces accepted since the last completed handshake strictly increase, and the last is what the session remembers |
| Sessions.AcceptedExactly | logic/vaults-bridge-core/src/session.rs:163-178 | A nonce is accepted iff the session is active and the nonce is above all accepted since the handshake |
| Sessions.KeyInvariantHolds | logic/vaults-bridge-core/src/session.rs:231-236 | In every run an active session has a key and an expired one has none |
| Sessions.FailedHandshakeKeepsKey | logic/vaults-bridge-core/src/session.rs:99-115 | A failed handshake leaves the old key, in Handshaking or Idle |
| Sessions.ActivityIsLastTouch | logic/vaults-bridge-core/src/session.rs:99-229 | In every run the idle timer was set by the last completed handshake, accepted nonce, or text sealed or opened |
| Sessions.AcceptAnswers | logic/vaults-bridge-core/src/session.rs:99-122 | The device's answer and session for every host key, well formed or not |
| Sessions.CompleteAnswers | logic/vaults-bridge-core/src/session.rs:133-152 | The host side's for every device key |
| Sessions.Session.AcceptHost | logic/vaults-bridge-core/src/session.rs:99-122 | The device side of the handshake, on every path |
| Sessions.Session.BeginHost | logic/vaults-bridge-core/src/session.rs:126-131 | The start of the host side: handshaking, with the key's public part |
| Sessions.Session.Complete | logic/vaults-bridge-core/src/session.rs:133-152 | The host side of the handshake, on every path |
| Sessions.Session.TakeNonce | logic/vaults-bridge-core/src/session.rs:165-178 | Nonce acceptance and its errors |
| Sessions.Session.CheckIdle | logic/vaults-bridge-core/src/session.rs:182-191 | Expires exactly an active session idle for the threshold or longer |
| Sessions.Session.SealText | logic/vaults-bridge-core/src/session.rs:193-210 | Sealing to hex(iv, ciphertext), touching the idle timer on success only |
| Sessions.Session.OpenText | logic/vaults-bridge-core/src/session.rs:212-229 | Opening, with every error, touching the idle timer on success only |
| HostSession.HandshakeAgrees | extension/background.js:198-259 | Device and browser end a handshake with the same key, or both refuse it |
| HostSession.SealedLayout | logic/vaults-bridge-core/src/session.rs:193-210 | On the wire both ends send the 12-byte iv, then the ciphertext with its 16-byte tag, in hex |
| HostSession.HostsAgree | logic/vaults-bridge-core/src/session.rs:133-152 | The Rust host side and the browser derive the same key |
| HostSession.DeviceToHost | extension/background.js:261-269 | What the device seals the browser opens to the same bytes |
| HostSession.HostToDevice | extension/background.js:271-283 | What the browser seals an active device opens to the same bytes |
| HostSession.SealPassword | extension/background.js:271-283 | The browser's sealing, iv then ciphertext, in hex |
| HostSession.UnsealPassword | extension/background.js:261-269 | The browser's opening, with every error |
| Hex.HexToBytes | extension/background.js:584-593 | The byte at i is read off digits 2i and 2i+1; odd length and other characters are refused |
| Hex.DigitsMean | extension/background.js:580-593 | The digits are 0 to 9 and a to f, read in either case and written in lower case |
| Hex.DecodeEncode | extension/background.js:580-593 | Decoding inverts encoding on all byte strings |
| Hex.EncodeDecode | extension/background.js:580-593 | Encoding what was decoded gives the text in lower case |
| HostChain.NoncesArriveInOrder | extension/background.js:182-259 | In every run without hazards, over any interleaving of actions, handshakes and resets, the device never answers NonceReused |
| HostChain.HazardsExactly | extension/background.js:182-259 | After a run without hazards a step is a hazard (a handshake begun while another may still succeed, a reset while a request is about to be numbered) iff NonceReused can follow without another hazard |
| HostChain.OverlappingHandshakesReuse | extension/background.js:198-259 | Whenever a handshake is begun while another may still succeed, at any stage of it, nonce 1 can be used twice |
| HostChain.ResetReuses | extension/background.js:68-87 | Whenever the session is reset while an action is past ensureSession, or past the key check of sealPassword, and not yet numbered, nonce 1 can be used twice |
| HostChain.ResetForgets | extension/background.js:82-87 | A reset forgets both keys and the count, so no waiting handshake derives a key and no action seals until new ones are there; queued calls stay |
| HostChain.Background.CallWithNonce | extension/background.js:478-483 | The nonce is allocated and its call queued in one turn, whatever has become of the session key |
| HostChain.Background.SessionEstablished | extension/background.js:251-258 | The derived key is installed and the counter restarts, a turn of its own after the reply was settled |
| HostChain.Background.EnsureSession | extension/background.js:198-199 | An action goes on at once iff a session key is set |
| HostChain.Background.KeyPairMade | extension/background.js:201-206 | The host key is set, replacing that of any other handshake |
| HostChain.Background.CallDevice | extension/background.js:207-210 | The handshake call is queued |
| HostChain.Background.TakeNext | extension/background.js:187-194 | The first call queued is the next in flight |
| HostChain.Background.ResetSession | extension/background.js:82-87 | The key is dropped and the counter restarts |
| UsbTransport.EveryRpcSettledOnce | extension/webusb-transport.js:243-388 | In every run each RPC issued is pending or was settled exactly once, across reply, timeout, overflow, read and write errors, probe failure and teardown |
| UsbTransport.SettledFor | extension/webusb-transport.js:243-388 | In every run an RPC was settled as it was because a step of that kind found it pending |
| UsbTransport.StepSettles | extension/webusb-transport.js:243-388 | A step settles exactly the pending RPCs it is about, each with its own outcome, and keeps what was settled |
| UsbTransport.ConnectedAfter | extension/webusb-transport.js:243-272 | When there is a device to talk to, and a teardown in progress, after each step |
| UsbTransport.TearDownEmptiesExactly | extension/webusb-transport.js:243-256 | A teardown leaves nothing pending iff nothing was pending or no teardown was in progress |
| UsbTransport.TearDownCanLeavePending | extension/webusb-transport.js:243-272 | A legal run in which a teardown leaves an RPC pending |
| UsbTransport.WebUsbTransport.RawRpc | extension/webusb-transport.js:359-381 | An RPC is entered in the table only when connected |
| UsbTransport.WebUsbTransport.RejectAll | extension/webusb-transport.js:253-256 | Every pending RPC is settled, in order, and the table emptied |
| UsbTransport.WebUsbTransport.TearDownNow | extension/webusb-transport.js:243-256 | Teardown, or nothing if one is in progress |
| UsbTransport.WebUsbTransport.OnOverflow | extension/webusb-transport.js:292-303 | All pending settled as overflow, then teardown |
| UsbTransport.WebUsbTransport.OnReadError | extension/webusb-transport.js:321-327 | All pending settled as failed, then teardown |
| UsbTransport.WebUsbTransport.OnWriteError | extension/webusb-transport.js:382-386 | That RPC settled if still pending, then teardown |
| BulkMerge.ReplaceIdempotent | logic/vaults-bridge-keystore/src/lib.rs:210-254 | Restoring twice under Replace is restoring once, ids included, for any store and any backup |
| BulkMerge.ReplaceSettles | logic/vaults-bridge-keystore/src/lib.rs:228-234 | Under Replace the first match of each key takes the backup's last record of that key, keeping its id; all other old rows are unchanged |
| MergeFields.ReplaceImports | logic/vaults-bridge-keystore/src/lib.rs:328-384 | After an import under Replace, for every key: the password of its last item, not archived; a record that was there keeps place, id, colour and times, and takes the last non-empty title and notes; one added has the id and times of its first item and the colour of its place; other keys are as before |
| MergeFields.ReplaceSpares | logic/vaults-bridge-keystore/src/lib.rs:336-350 | Rows that are not the first of their key, or whose key no item mentions, stay exactly as they are |
| MergeFields.KeepBothImports | logic/vaults-bridge-keystore/src/lib.rs:351-374 | An import under KeepBoth adds one record per item with the item's fields, the id and times it came with and the colour of its place, its title marked iff its key was taken |
| MergeFields.SkipImports | logic/vaults-bridge-keystore/src/lib.rs:328-384 | An import under Skip leaves old rows alone and gives a key that had none the record of its first item |
| MergeFields.SkipRestores | logic/vaults-bridge-keystore/src/lib.rs:210-254 | A restore under Skip likewise, with the backup's first record under an id of its own |
| MergeFields.KeepBothRestores | logic/vaults-bridge-keystore/src/lib.rs:235-245 | A restore under KeepBoth adds every backup record, its title marked iff its key was taken, its id kept iff unused |
| BulkMerge.IdsStayDistinct | logic/vaults-bridge-keystore/src/lib.rs:413-423 | Under every policy distinct ids stay distinct, even if the backup repeats ids |
| BulkMerge.Conservation | logic/vaults-bridge-keystore/src/lib.rs:249-253 | imported + skipped + replaced is the batch size and the store grows by exactly imported, for restores and imports |
| BulkMerge.NothingCountedNothingChanged | logic/vaults-bridge-keystore/src/lib.rs:328-384 | imported = replaced = 0 means no record changed |
| BulkMerge.RowsStay | logic/vaults-bridge-keystore/src/lib.rs:210-384 | Old rows keep position, key and id under every policy |
| BulkMerge.MergeRefines | logic/vaults-bridge-keystore/src/lib.rs:210-384 | On unique-key stores Skip and Replace refine a map from key to record, ids and colours included, and keep keys unique even if the batch repeats keys |
| BulkMerge.UpsertRefines | logic/vaults-bridge-keystore/src/lib.rs:455-522 | On a store that has the key or no duplicates upsert refines the map's: the entry refreshed and made live, or added with the colour of its index; probing reads off the map whether a key is absent, live or archived |
| BulkMerge.KeepBothUnique | logic/vaults-bridge-keystore/src/lib.rs:235-240 | KeepBoth keeps keys unique iff the batch has no conflict with the store or itself |
| BulkMerge.KeepBothAppends | logic/vaults-bridge-keystore/src/lib.rs:235-245 | KeepBoth leaves old records alone and appends one record per batch element, in order |
| BulkMerge.ImportedColors | logic/vaults-bridge-keystore/src/lib.rs:357-374 | Each record an import adds at index i gets the i-th automatic colour |
| BulkMerge.RestoreIntoEmpty | logic/vaults-bridge-keystore/src/lib.rs:210-254 | Restoring into an empty vault, under any policy, reproduces the records iff their keys and their ids are unique |
| BulkMerge.RestoreOwnBackup | logic/vaults-bridge-keystore/src/lib.rs:210-254 | Restoring a vault into itself changes nothing under Skip; under Replace iff the last record of each key agrees with the first but for the id, in particular when keys are unique |
| Records.AutomaticColorInRange | logic/vaults-bridge-keystore/src/lib.rs:271-273 | In i32 range the automatic colour for count n is (5 + n) mod 9 |
| Records.UpsertThenFill | logic/vaults-bridge-keystore/src/lib.rs:455-522 | After an upsert the first live match of the key has the new password, even with duplicates or archived records |
| Records.UpsertFrame | logic/vaults-bridge-keystore/src/lib.rs:488-522 | An upsert changes one record, no key and no id, and keeps keys unique |
| Records.Find | logic/vaults-bridge-keystore/src/lib.rs:220-223 | The first position with the key, or none has it |
| Records.UniqueId | logic/vaults-bridge-keystore/src/lib.rs:413-423 | The id is unused, and the preferred one if that is unused |
| Store.Keystore.UniqueRecordId | logic/vaults-bridge-keystore/src/lib.rs:413-423 | The retry loop returns the first unused draw |
| Store.Keystore.RestoreMany | logic/vaults-bridge-keystore/src/lib.rs:210-254 | The loop's records and counts are those of the merge |
| Store.Keystore.ImportMany | logic/vaults-bridge-keystore/src/lib.rs:328-384 | The loop's records and counts are those of the merge |
| Store.Keystore.UpsertCredential | logic/vaults-bridge-keystore/src/lib.rs:488-522 | The first match updated and made live, or a record added |
| Store.Keystore.Edit | logic/vaults-bridge-keystore/src/lib.rs:284-302 | Four fields of the first record with the id, or NotFound and no change |
| Store.Keystore.Delete | logic/vaults-bridge-keystore/src/lib.rs:387-398 | An archived record removed, else NotFound or NotArchived and no change |
| Store.ArchiveRestores | logic/vaults-bridge-keystore/src/lib.rs:304-398 | Archiving undoes unarchiving and unarchiving archiving; deleting works iff the record is archived |
| PortableBackup.BackupRoundTrip | logic/vaults-bridge-keystore/src/lib.rs:129-199 | A backup read with its passphrase gives back the records it was made from |
| PortableBackup.OnlySupported | logic/vaults-bridge-keystore/src/lib.rs:151-199 | Exactly the files of another format are Unsupported, and exactly those of this one with a bad field Malformed |
| PortableBackup.FileLayout | logic/vaults-bridge-keystore/src/lib.rs:129-149 | The file names its format and holds salt, iv and ciphertext in hex, each in its field |
| PortableBackup.OpenSealedStore | logic/vaults-bridge-keystore/src/lib.rs:114-124 | The sealed store opens under the same key to the same records |
| PortableBackup.ExportBackup | logic/vaults-bridge-keystore/src/lib.rs:129-149 | The file written, and the errors |
| PortableBackup.RecordsFromBackup | logic/vaults-bridge-keystore/src/lib.rs:168-199 | The records read, and every error in its order |
| BackupKey.DeriveBackupKey | logic/vaults-bridge-keystore/src/lib.rs:539-556 | For every iteration count c of at least 1 the loop computes U_1 xor ... xor U_c of PBKDF2 (section 5.2 of RFC 8018); zero is refused |
| BackupKey.XorInto | logic/vaults-bridge-keystore/src/lib.rs:551-553 | The in-place loop is the exclusive or of the blocks |
| BackupKey.XorByteAt | logic/vaults-bridge-keystore/src/lib.rs:551-553 | Each bit of the exclusive or is set iff the two bits differ |
| BackupKey.XorOfUsSnoc | logic/vaults-bridge-keystore/src/lib.rs:549-554 | Accumulating from the left agrees with the RFC's sum |
| BackupKey.FirstKeys | logic/vaults-bridge-keystore/src/lib.rs:539-556 | The keys for one, two and three iterations written out from the HMAC, with the block number 1 behind the salt |
| Csv.RoundTrip | logic/vaults-bridge-import/src/lib.rs:309-374 | Any rows of at least one field, quoted as needed (section 2 of RFC 4180) and each ended by LF or CRLF, are read back exactly, whatever follows |
| Csv.ReadLastRow | logic/vaults-bridge-import/src/lib.rs:359-373 | An unterminated last row is read back unless all its fields are empty |
| Csv.ParseSplits | logic/vaults-bridge-import/src/lib.rs:316-374 | For any text, parsing splits over concatenation at a row end; a CR and an LF meeting there are one line break |
| Csv.ReadPrintedRow | logic/vaults-bridge-import/src/lib.rs:316-358 | One printed row is read whole and nothing after it is consumed |
| Csv.ReadRowBeforeCR | logic/vaults-bridge-import/src/lib.rs:340-358 | A CR that no LF follows ends a row too, and nothing after it is consumed |
| Csv.RowIter.Next | logic/vaults-bridge-import/src/lib.rs:316-374 | The loop returns the next row and leaves the rest |
| Csv.CollectRows | logic/vaults-bridge-import/src/lib.rs:303-313 | Draining the iterator gives exactly the parsed rows |
| Import.CredentialRoundTrip | logic/vaults-bridge-import/src/lib.rs:91-158 | Credentials printed under the Google header come back in order from Google with the same usernames, passwords, names and notes, all but those with neither username nor password; if none is left, NoRows |
| Import.AcceptedHeadersMap | logic/vaults-bridge-import/src/lib.rs:194-295 | Under every accepted header url and password, and username unless Proton, map to the first column bearing a name detection tested |
| Import.SourceExactly | logic/vaults-bridge-import/src/lib.rs:194-234 | Which headers are accepted at all, and exactly which columns make a header each source's |
| Import.TitlesAndNotes | logic/vaults-bridge-import/src/lib.rs:236-295 | Under every header the columns titles and notes are read from, and the second choice where there is one |
| Import.BomIsDropped | logic/vaults-bridge-import/src/lib.rs:91-100 | One byte order mark at the front is dropped and nothing else |
| Import.ProtonUsername | logic/vaults-bridge-import/src/lib.rs:251-257 | A Proton header has a username column iff it has username or email, preferring username |
| Import.AppleNeedsNoNotes | logic/vaults-bridge-import/src/lib.rs:209-223 | Apple is detected iff its four columns are there, notes is not, and neither Proton's nor Bitwarden's signature is |
| Import.AppleIsOnePassword | logic/vaults-bridge-import/src/lib.rs:212-223 | The documented Apple header is taken for 1Password, with the same columns |
| Import.ProtonIsGoogle | logic/vaults-bridge-import/src/lib.rs:200-211 | Any header that begins with the documented Proton columns is taken for Google, with the same columns |
| Import.ShadowedSourcesMapAlike | logic/vaults-bridge-import/src/lib.rs:236-295 | Google and Proton map the same columns under Google's signature; 1Password and Apple always do |
| Import.SameComparison | logic/vaults-bridge-import/src/lib.rs:195-242 | Detection's and mapping's ways of comparing a cell with a name agree |
| Import.FindSpec | logic/vaults-bridge-import/src/lib.rs:237-241 | A column is found iff one bears the name, and it is the first |
| Import.Parse | logic/vaults-bridge-import/src/lib.rs:91-122 | The whole import, with its errors in order |
| Framing.PushAllIsPush | logic/vaults-bridge-protocol/src/frame.rs:48-63 | Over any chunking some push fails iff the stream has a line over the cap, and otherwise the lines and tail are those of the whole stream |
| Framing.LineSplitter.Push | logic/vaults-bridge-protocol/src/frame.rs:48-63 | All lines of buffer plus input, or an error and an empty buffer iff some line is over the cap |
| Framing.OverflowDiscardsEarlierLines | logic/vaults-bridge-protocol/src/frame.rs:48-63 | In one push the complete lines before an oversize one are lost; pushed first, they are delivered |
| Framing.OverflowResumesMidLine | logic/vaults-bridge-protocol/src/frame.rs:48-63 | What the pushes after an overflowing one deliver are the lines of the rest of the stream, the first of them the rest of the oversize line |
| Framing.ReaderDelivers | src/transport/webusb.rs:305-334 | On every stream, what the reader delivers and holds: per line without CRs, the last (length mod (cap + 1)) bytes unless none |
| Framing.ReaderOneLine | src/transport/webusb.rs:322-330 | A single line is delivered whole up to the cap, and beyond it as that suffix |
| Framing.StripCRMeans | src/transport/webusb.rs:305-334 | Every CR is dropped wherever it stands, and everything else is kept in order |
| Framing.ReadBytesSplits | src/transport/webusb.rs:305-334 | The reader sees only the byte stream, not its chunks |
| Framing.DeliveredAreShort | src/transport/webusb.rs:322-330 | No payload is empty or over the cap |
| Framing.Reader.Feed | src/transport/webusb.rs:305-334 | One read of the byte automaton |
| Framing.Reader.Disconnect | src/transport/webusb.rs:285-294 | A disconnect drops the partial line only |
| Framing.JsFeedAllIsOneFeed | extension/webusb-transport.js:290-320 | With lines a packet short of the cap, packet boundaries do not matter to the read loop |
| Framing.JsSingleFrame | extension/webusb-transport.js:290-303 | A lone reply, in any chunking, is delivered iff payload plus newline is within the cap, and else tears down |
| Framing.JsReadLoop.OnText | extension/webusb-transport.js:290-320 | One transfer of the read loop |
| Framing.SplittersAgree | logic/vaults-bridge-protocol/src/frame.rs:48-63 | With no CR, no blank line and lines at most cap - 64, all three splitters give the same lines and tail for every chunking |
| Framing.WritePackets | src/transport/webusb.rs:236-238 | 64-byte packets, only the last possibly shorter, together exactly the bytes |
| Framing.PacketingUnique | extension/webusb-transport.js:340-343 | There is only one such packeting, so host and device chunk alike |
| Framing.HostToDevice | extension/webusb-transport.js:331-356 | The payloads the host writes are the payloads the reader delivers |
| Shuffle.ShuffleInjective | logic/vaults-bridge-core/src/engine.rs:554-562 | Different choice vectors give different orders of distinct elements |
| Shuffle.ShuffleOnto | logic/vaults-bridge-core/src/engine.rs:554-562 | Every order with the same elements is reached by a choice vector, repeated elements allowed |
| Shuffle.ShufflePermutes | logic/vaults-bridge-core/src/engine.rs:554-562 | The multiset of elements is kept |
| Shuffle.DrawIsChoices | logic/vaults-bridge-core/src/engine.rs:554-575 | Whatever the random source delivers, the shuffle is that of some choice vector |
| Shuffle.ChoicesAreDrawn | logic/vaults-bridge-core/src/engine.rs:554-575 | Every choice vector is delivered by some output of the source |
| Shuffle.UnbiasedByte | logic/vaults-bridge-core/src/engine.rs:540-552 | Below 256 - 256 mod n every residue has the same number of samples |
| Shuffle.UnbiasedWord | logic/vaults-bridge-core/src/engine.rs:564-575 | Below MAX - MAX mod n every residue has the same number of u32 samples |
| Shuffle.PickIsUnbiased | logic/vaults-bridge-core/src/engine.rs:540-552 | A draw below n: every index is drawn by exactly 256 / n bytes, whatever follows, and every other byte is skipped |
| Shuffle.IndexIsUnbiased | logic/vaults-bridge-core/src/engine.rs:564-575 | A shuffle step's draw below n: every index is drawn by exactly MAX / n words, and every other word is skipped |
| Shuffle.IndexFirst | logic/vaults-bridge-core/src/engine.rs:564-575 | The four bytes are read little-endian |
| Password.GeneratorSupport | logic/vaults-bridge-core/src/engine.rs:507-538 | The passwords the generator can produce are exactly those of the right length over the enabled classes with a character of each class there is room for |
| Password.HandlerPasswords | logic/vaults-bridge-core/src/engine.rs:364-373 | At the clamped length every enabled class is in the password |
| Password.ClassesAreComplete | logic/vaults-bridge-core/src/engine.rs:510-523 | The classes are all ASCII letters, all digits, and 26 printable characters |
| Password.OsRng.GeneratePassword | logic/vaults-bridge-core/src/engine.rs:507-538 | Seeding, filling and shuffling, as a function of the random source |
| Password.OsRng.PickByte | logic/vaults-bridge-core/src/engine.rs:540-552 | The first byte below the limit, reduced |
| Password.OsRng.NextIndex | logic/vaults-bridge-core/src/engine.rs:564-575 | The first little-endian word below the limit, reduced |
| Password.OsRng.ShuffleInPlace | logic/vaults-bridge-core/src/engine.rs:554-562 | The in-place swaps are the shuffle of the array's contents |

## Left out

- Origin parsing and url reduction: they rest on the `url` crate, which is not part of this model; the canonical form is an arbitrary function.
- `list_origins` and `list_credentials`: sorted listings of live records; only their session gate is in the protocol.
- `registrable_domain` and `origin_match_key`: not on the release path.
- Length and field validation of the edit forms, search, "last used" text, themes, pages, overlays and form detection: presentation.
- USB descriptors, endpoint registration, file pickers, file storage and WebSocket plumbing: input and output. Persisting is one step that replaces the durable copy or leaves it.
- Failed packet writes in `serve_blocking`, which skip that packet: only successful writes are modelled.
- The incremental UTF-8 decoding of the extension's read loop, and its JSON parsing: the loop works on decoded code units below 256 and hands lines on.
- HostSession.UnsealPassword: ends at the decrypted bytes; the browser's text decoding of them, which strips a byte order mark and replaces malformed sequences, is not modelled.
- `list_credentials` and `ping` RPCs of the extension: they carry no nonce and only take their turn in the chain; a listing action is one that ends after its handshake.
- Termination of the rejection-sampling loops: the random source is a finite tape, and a loop still rejecting at its end reports that.
- Password.OsRng.GeneratePassword: lengths are below 2^32, where the code's cast of an index bound to u32 is exact.
- Store.Keystore.ImportMany: the ids and times of new records are given per item; each is one clock reading, where the code reads the clock more than once.
- HostChain.Background.CallWithNonce: the counter is below 2^64; the exactness of large JavaScript numbers is not modelled.
- The number of approval ids: each raised approval has a fresh id, so the 64-bit counter never wraps.
- Secret erasure on drop, and secrecy of any kind: the model states correctness only.
