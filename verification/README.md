# Wyrwood, modelled and proved in Dafny

Wyrwood gives containers OpenBao tokens. A controller keeps policies and bindings
in SQLite, publishes them to OpenBao, and tells agents which binding governs which
container; agents log in and hold the tokens. Three stores of truth have to stay
in step (the database, OpenBao, the agents' memory) although every call between
them can fail, can be lost, or can take effect and still report an error. This
project models that machinery and proves what it keeps.

Check everything with `dafny verify dfyconfig.toml`.

## How it is laid out

| module | what it models |
|---|---|
| `Naming`, `Composition` | policy names, OpenBao identities, and the composition of policies into one assignment |
| `Records`, `Matching` | binding rows, container keys, and which binding governs which container on both sides |
| `Storage`, `Transactions` | the controller's rows beside OpenBao's policies and roles; each store transaction as one atomic step |
| `History` | what one durable step may do, and what a whole history of steps keeps |
| `Lifecycle` | the controller's operations as sections under its mutation lock, over an unreliable OpenBao |
| `Grants`, `OperatorSession` | what an operator key may reach, and the operator requests |
| `Runs` | any sequence of requests, with any failures, and crashes at any durable write, those of a startup included |
| `Accessors` | accessor reports, which take no lock, interleaved with changes, applications and retirements of bindings |
| `Credentials`, `AgentSession` | the agent's token manager with its goroutines, and the policy set and containers it follows |
| `Recreate` | recreating a container, and the journal that survives an exit |
| `Framing`, `EventFormat`, `EventStore` | the append log of events: framing, tail recovery, compaction, retention, and what a loss of power leaves |

How failures are modelled. In `Lifecycle` every durable write is a step that the
controller's `trail` records, and every failure is a free choice: a transaction may
fail before or after committing, an OpenBao call may be refused, or its answer lost
with or without the effect. A property stated for every entry of the trail is
therefore stated for every point at which the controller may crash. Where a method
says `reliable ==> ...` it says what happens when no call fails, so that an operation
that did nothing would not satisfy its contract. `Valid` is what holds while the
mutation lock is free; `Standing` also holds between the steps of a section.

`Checks` carries the predicates of a history as ghost values. Operations pass them along;
the lemmas named `Open...` say what they mean (History.dfy explains how on one step).
In the same way `Rules` carries composition, publication and validation as values.
`Runs.RunFresh` joins the two: it starts a controller whose rules are those of
`Composition` and whose checks are the predicates themselves.

## What the proofs found

Each of these is stated in the model as a lemma or as an exact condition.

- An event file cut inside its 8-byte header never opens again; a cut anywhere else
  recovers (`CutFailsOnlyInHeader`, an if-and-only-if). A file that ends in other bytes,
  such as the zeros that an interrupted write can leave, opens exactly if `TailRecovers`
  says so.
- The event store can lose an acknowledged event in two ways. It does not sync the
  directory of a file that it finds, so a new file whose directory was never synced can
  vanish with all it recorded (`CreationLost`). And it goes on after a frame whose sync
  failed as if that had not happened, so that frame can turn out to be missing before
  acknowledged ones, and the file never opens again (`UnsyncedFrameLost`). `Secure` is
  exactly when no power loss does harm (`SecureSurvives`, `InsecureLoses`). An append that
  compacts ends every doubt (`FullStoreSettles`).
- An agent's binding can be left with no token and nobody asking for one: when a token
  is replaced, the old token's renewal loop can look at the new token before its own
  context is cancelled; if it then drops the new token, the request it leaves behind dies
  with that context (`StrandingHappens`; `ExpiredLeaves` is the exact condition of one
  step). After the cancel a loop that had not yet passed its check is shut out
  (`StrandingEndsWithCancel`). Over every run an observed binding has a token or somebody
  asking exactly if it is not `stranded` (`Promises`), and always if no such drop ever
  took its token (`AgentSession.Run`).
- A rename whose publication OpenBao rejects ends the record it wrote for the new
  identity. The new identity is then an orphan exactly if OpenBao already held it and the
  record did end (`RejectedRenameTraces`). An earlier rename to the same name whose answer
  was lost is enough for that (`RejectedRenameOrphans`).
- A removal of a binding whose transaction commits but whose answer is lost revokes
  nothing. The token it leaves behind is recorded nowhere (`LostAnswerLeavesToken`); an
  acknowledged accessor of a retired binding is unaccounted for in no other case
  (`RetiredTokensAreAccountedFor`).
- A policy save relies on a failed transaction not having committed. Had it committed,
  the restored OpenBao would agree with the store exactly if the save replaced a document
  that publishes the same text (`HiddenSaveCommit`). Renames and deletions read the store
  instead, and are modelled with ambiguous commits.
- An operator's put keeps the not-forwardable mark of every identity it still offers, but
  two puts, the first without the identity and the second with it, lift the mark
  (`TwoPutsLoseMarks`).
- A reconciliation that cannot read a recreate journal removes it, so a removed
  container's failure can be forgotten. In every run the failure is on record exactly if
  that has not happened since a journal was last written (`Recreate.Container.Run`).

## Model

| member | source | states |
|---|---|---|
| Naming.IdentityInjective | internal/policy/policy.go:231-253 | two (valid name, generation) pairs spell the same OpenBao identity if and only if they are the same name and the same use of it, zero and one both being the first |
| Composition.Compose | internal/policy/composition.go:177-257 | succeeds exactly on the selections that are composable (said without an order: each document valid with its values present, no name twice, one mount target, agreeing environments, bounded identities, valid result), gives their assignment, and a refusal names a true reason |
| Composition.CheckNext | internal/policy/composition.go:193-216 | each refusal of one document is explained by the documents; a pass extends the environment without a conflict |
| Composition.MergeEnv | internal/policy/composition.go:203-210 | merges an environment, or names a variable that two documents expand differently |
| Composition.ComposePermutation | internal/policy/composition.go:177-182 | selecting the same documents in any order gives the same outcome: always refused, or always the same assignment |
| Composition.ComposedIdentities | internal/policy/composition.go:219-249 | an assignment offers exactly the union of the offered identities, and an offered identity is not forwardable if and only if some selected policy restricts it |
| Composition.ComposedEnv | internal/policy/composition.go:199-211 | every selected policy agrees with the assignment on each environment value it sets and on the mount target, and the assignment carries no other variable |
| Composition.ComposedSources | internal/policy/composition.go:100-113 | an assignment lists its policies once each in name order, and its role names are their OpenBao identities |
| Matching.ContainerBinding | internal/controller/session.go:407-418 | finds the binding on the earliest of the container's keys that any binding holds, and nothing exactly if none holds any |
| Matching.MatchBindings | internal/controller/session.go:361-384 | returns exactly the bindings that govern a container, without repeats |
| Matching.CarriedBindings | internal/controller/session.go:386-400 | returns exactly the governing bindings and the name bindings, without repeats |
| Matching.Governing | internal/agent/agent.go:378-388 | the agent's scan by key precedence finds the binding on the earliest bound key, and nothing exactly if there is none |
| Matching.CarriedGovernsTheSame | internal/agent/agent.go:376-388 | for a reported container, a binding governs it among the carried bindings if and only if it governs it among all of the agent's bindings |
| Storage.RoleNameInjective | internal/controller/operations.go:56-62 | two bindings never share a role, whatever their agents are called |
| Storage.CompositionIsLawful | internal/policy/composition.go:177-257 | the composition of policy documents is indifferent to order and to defaults and names its policies and identities in name order: the laws the controller relies on |
| Storage.SelectionIsFresh | internal/controller/operations.go:298-302 | a composed selection, stored by its sorted names and completed settings, composes afresh to the same assignment |
| Transactions.NextGeneration | internal/controller/store/store.go:366-381 | a name's next generation is above every one it took before |
| Transactions.SaveKeeps | internal/controller/store/store.go:390-444 | a save of a document with its derived assignments keeps the store sound and the generations disciplined, replaces exactly that policy row, moves exactly the given bindings to their next assignment and leaves every other row and record |
| Transactions.DeleteKeeps | internal/controller/store/store.go:446-463 | a deletion that the foreign key admits keeps every binding's assignment fresh |
| Transactions.RenameKeeps | internal/controller/store/policy_rename.go:24-91 | a rename with its derived assignments keeps the store sound, replaces exactly one policy row by the other, moves exactly the bindings that selected the old name, and swaps the retirement record of the new identity for one of the old |
| Transactions.CreateKeeps | internal/controller/store/store.go:598-622 | a created binding with a fresh assignment keeps the store sound and is stored exactly as given |
| Transactions.ChangeKeeps | internal/controller/store/store.go:624-646 | a changed binding, guarded by the revision it was computed from, is stored exactly as given and keeps the store sound |
| Transactions.RetireKeeps | internal/controller/store/store.go:652-684 | retiring removes exactly the binding's row and keeps the store sound (the retired record and the returned accessor are in `Accessors`) |
| Transactions.IdentityNeverReturns | internal/controller/store/store.go:402-429 | over any run of stores, an OpenBao identity that a row gave up is never held by a row again |
| History.IdentityIsNeverReused | internal/controller/store/policy_rename.go:37-60 | in every history of the controller, with crashes and failures anywhere, an identity given up by a deletion or a rename is never held by a stored policy again |
| History.AssignmentsStayFresh | internal/controller/operations.go:207-228 | at every durable write of every history, each binding's stored assignment is what composing its stored policies with its stored settings gives |
| History.AppliedIsBacked | internal/controller/session.go:277-311 | an applied binding whose role exists backs a credential: the role names exactly the identities of its stored policies and OpenBao holds all of them |
| History.HiddenSaveCommit | internal/controller/operations.go:241-247 | if a failed save had committed, restoring would leave OpenBao in agreement with the store if and only if the save replaced a document that publishes the same text; never if it was the first of its name |
| History.UnheldIsUnnamed | internal/controller/policy_retirement.go:65-69 | once every binding is applied, no existing role of a stored binding names an identity that no stored policy holds |
| History.RejectedRenameTraces | internal/controller/policy_rename.go:176-182 | when a rejected rename has changed nothing but records, the new identity has an owner or a record if and only if OpenBao did not already hold it or its record was not ended |
| History.RejectedRenameOrphans | internal/controller/policy_rename.go:166-188 | every history with a stored policy, also one whose OpenBao agrees with the store, can go on to one that ends with an orphan: a rename whose publication took effect with its answer lost and whose cleanup failed, and a second one to the same name that OpenBao rejects; until the last write of the second the identity had its record |
| History.NextIsUnheld | internal/controller/policy_rename.go:102-111 | no stored policy holds the identity that a name's next generation spells |
| History.RenameTraces | internal/controller/store/policy_rename.go:80-90 | a committed rename leaves every traced identity with an owner or a retirement record |
| Lifecycle.Controller.Commit | internal/controller/store/policy_rename.go:90 | a transaction either took its whole effect or none, and a failure does not say which |
| Lifecycle.Controller.CommitOrFail | internal/controller/store/store.go:444 | a transaction whose failure means that it did not commit |
| Lifecycle.Controller.Send | internal/controller/policy_retirement.go:125-131 | an OpenBao write that succeeds, is refused without effect, or is lost with or without it |
| Lifecycle.Controller.ApplyBinding | internal/controller/operations.go:120-149 | on success the binding is marked applied and its role exists with exactly its assignment's identities; with values, the role was gone in between; every durable write on the way touched only this binding's mark and role; already applied does nothing |
| Lifecycle.Controller.ApplyAll | internal/controller/operations.go:248-254 | applies every given binding, continuing past failures, and succeeds only if all are applied |
| Lifecycle.Controller.Compose | internal/controller/operations.go:93-111 | composes the stored policies of the named selection with the replacement standing in for its own name |
| Lifecycle.Controller.SyncPolicies | internal/controller/operations.go:525-539 | on success OpenBao agrees with every stored policy and no sync is pending; on failure a sync stays pending; nothing in use is deleted |
| Lifecycle.Controller.PrepareCredential | internal/controller/session.go:277-311 | every credential prepared is for the agent's current assignment, of an applied binding whose existing role names exactly the identities of its stored policies, while OpenBao holds every stored policy's current text; with no failure an eligible request gets one |
| Lifecycle.Controller.CreateBinding | internal/controller/operations.go:288-315 | stores a new binding with the composition of its selection at revision one, refuses a used identifier without a trace, and leaves every other binding, role and policy alone at every write |
| Lifecycle.Controller.ChangeBinding | internal/controller/operations.go:335-368 | replaces a selection only at the revision the caller saw, stores the composition at the next revision, does nothing if it composes to the same assignment, leaves everything else alone, and with no failure completes for a selection that composes |
| Lifecycle.Controller.DeleteBinding | internal/controller/operations.go:390-409 | removes exactly the binding; complete only if its role is gone; a failed removal may or may not have happened; everything else is left alone; with no failure a stored binding is removed |
| Lifecycle.Controller.SaveUpdates | internal/controller/operations.go:207-228 | computes the next assignment of exactly the bindings that select the document, or refuses |
| Lifecycle.Controller.RestorePolicy | internal/controller/operations.go:551-567 | puts back the stored document, or removes the identity of one never stored, and otherwise leaves a sync pending, so that OpenBao agrees or a sync is owed |
| Lifecycle.Controller.SavePolicy | internal/controller/operations.go:164-259 | on success the stored document is the given one at its next revision (its own generation, or a new one for a new row) and every binding that selects it is applied; a failure leaves the store unchanged; only that policy and the bindings that select it change at any write; with no failure a valid document over which all bindings still compose is saved |
| Lifecycle.Controller.DeletePolicy | internal/controller/policy_delete.go:36-69 | removes exactly an unselected policy, its identity first, so that at every write the identity is in OpenBao only beside its row; a failure leaves agreement or a sync owed |
| Lifecycle.Controller.SettleFailedDelete | internal/controller/policy_delete.go:71-91 | reads the store to decide whether the row is gone, and restores the publication only of a row that is there |
| Lifecycle.Controller.RemovePolicyIdentity | internal/controller/policy_retirement.go:122-137 | deletes exactly one identity; if its record ended, the identity is gone from OpenBao; on success both are gone |
| Lifecycle.Controller.SettleRetirements | internal/controller/policy_retirement.go:65-120 | on success no record is left and each recorded identity is gone from OpenBao or held by a stored policy; assignments, policies and memberships are untouched; no identity loses its owner or record; nothing in use is deleted |
| Lifecycle.Controller.RetirePolicies | internal/controller/policy_retirement.go:48-63 | at every step of a pass, an identity leaves OpenBao only if no stored policy holds it and no existing role of a stored binding names it |
| Lifecycle.Controller.RenamedBindings | internal/controller/policy_rename.go:132-161 | computes the next assignment of exactly the bindings that selected the old name |
| Lifecycle.Controller.PublishRenamed | internal/controller/policy_rename.go:163-189 | a success has the new identity published; after an uncertain publication the identity is gone from OpenBao or its record is durable; a rejected one left OpenBao as it was; at every write traced identities stay traced, except the new one after a rejection |
| Lifecycle.Controller.SettleFailedRename | internal/controller/policy_rename.go:191-209 | answers committed only if the renamed row is stored; otherwise the recorded new identity is gone from OpenBao or still recorded; with no failure the answer is exact and an uncommitted identity is gone |
| Lifecycle.Controller.RenamePolicy | internal/controller/policy_rename.go:61-130 | at every write the old identity, and the new one if it was traced at the start, belong to a stored policy or have a durable record, unless OpenBao rejects the publication; after a rejection only records have changed and the new identity is an orphan if and only if OpenBao already held it and its record has ended; committed, the policy is stored under the new name at its next generation, every membership moved, and from then on only identities left OpenBao that no stored policy holds and no existing role names; complete, the old identity is gone from OpenBao and every binding is applied |
| Lifecycle.Controller.ReconcileBindings | internal/controller/operations.go:504-523 | startup publishes every stored policy and applies every pending binding; a success leaves none pending |
| Lifecycle.Controller.Restart | internal/controller/operations.go:504-523 | after a crash at any durable write, startup works from what was durable then and releases the lock in a good state |
| Runs.Serve | internal/controller/controller.go:200-218 | one request with any failures, ended by a crash after any of its writes, and any number of crashes inside the startups that follow, leave a good state with the earlier history intact, and any credential prepared was backed |
| Runs.Run | internal/controller/controller.go:200-218 | over every sequence of requests, failures and crashes, those inside a startup included: what earlier requests made durable stays in the history, the lock is released in a good state, every prepared credential was backed, every stored assignment in the history is fresh, and no identity given up is held again |
| Runs.RunFresh | internal/controller/controller.go:200-218 | a controller on a fresh database that composes policy documents, beside any OpenBao: over every run, each credential it prepares is for what composing the binding's stored documents gives, all of them published with their current text |
| Grants.Covers | operator/types.go:131-144 | a grant covers a binding if and only if it allows its agent and every policy it holds |
| Grants.PutKeepsRestrictions | internal/controller/operator_session.go:314-340 | one operator put never lifts a restriction from an identity it still offers, nor adds one |
| Grants.TwoPutsLoseMarks | internal/controller/operator_session.go:314-340 | over two puts an identity keeps its restriction if and only if both offer it: one put without it and one with it lift the restriction |
| OperatorSession.PutPolicy | internal/controller/operator_session.go:286-312 | at every write, every binding outside the grant (also one reached through the policy) keeps its whole row and its role, and every policy outside it its row and publication; a success means that the grant covers every binding that selects the policy; with no failure an allowed document over which all bindings compose is saved |
| OperatorSession.RepeatBind | internal/controller/operator_session.go:490-506 | finishes a pending assignment only for a covered binding of the same composition, and otherwise changes nothing; with no failure such a binding ends applied |
| OperatorSession.BindKey | internal/controller/operator_session.go:442-488 | leaves everything outside the grant as it was at every write, and a binding it creates is inside the grant; with no failure a covered request for a free key that composes, or for exactly what the key has, succeeds |
| OperatorSession.Unbind | internal/controller/operator_session.go:521-566 | removes only a requested binding inside the grant and leaves everything outside it as it was; absent is answered only if no binding is meant, and with no failure a permitted request is answered absent if and only if none is, and done if the one meant is covered |
| Accessors.StepKeeps | internal/controller/session.go:420-473 | every step of every interleaving keeps: an applied binding's recorded accessor is of its revision or revoked, and every acknowledged accessor is recorded for its own binding, replaced under it, revoked, or went with its removal |
| Accessors.LookUpKeeps | internal/controller/session.go:455-473 | an own report whose binding was retired meanwhile is never acknowledged at the look-up: it goes on to be revoked |
| Accessors.RevokeKeeps | internal/controller/session.go:433-448 | a report that is to be revoked is acknowledged only with its accessor revoked |
| Accessors.AppliedHasNoOldToken | internal/controller/store/store.go:647-650 | in every run, an applied binding has no recorded, unrevoked accessor that was reported for an earlier revision |
| Accessors.RetiredTokensAreAccountedFor | internal/controller/operations.go:400-409 | in every run, each accessor of a retired binding that its own agent reported and that was acknowledged was revoked, replaced by a later accepted report of that binding, given to that binding's removal to revoke, or withheld; withheld only if that removal committed and its answer was lost |
| Accessors.LostAnswerLeavesToken | internal/controller/operations.go:400-409 | a run with such a removal that ends with an acknowledged token which is neither revoked, replaced nor returned, and recorded nowhere any more |
| Accessors.LateReportRecordsNothing | internal/controller/store/store.go:853-866 | a report that reaches the write after its binding moved on records nothing and is revoked instead |
| Credentials.InvalidatedKeeps | internal/agent/credentials.go:121-135 | an invalidated binding holds no token, has no current delivery and has nobody asking; the token it held is handed to be revoked; no other binding is concerned |
| Credentials.RetiredKeeps | internal/agent/credentials.go:347-363 | a retired binding holds no token and has no current delivery; the token it held is handed to be revoked; no other binding is concerned |
| Credentials.LoginFailedKeeps | internal/agent/credentials.go:147-170 | a failed login ends its delivery, leaves a retry loop of its own generation and hands over a token with other policies |
| Credentials.InstalledStale | internal/agent/credentials.go:171-177 | a stale delivery changes no binding and hands its token to be revoked |
| Credentials.InstalledCurrent | internal/agent/credentials.go:178-189 | a current delivery's token becomes the one held, and the previous one is handed to be revoked |
| Credentials.ExpiredLeaves | internal/agent/credentials.go:263-345 | after a renewal loop drops its binding's token, the binding has somebody asking if and only if nobody cancels the loop's own context or the binding was covered otherwise; if not, it is stranded |
| Credentials.OwnExpiryCovers | internal/agent/credentials.go:295-310 | a loop that drops the token it was started for leaves its binding with somebody asking |
| Credentials.StrandingHappens | internal/agent/credentials.go:182-189 | from any state with a client: after a replacement and before the replaced token's context is cancelled, its loop can look at the new token, find it run out and its own context alive, drop it, and leave the binding with no token and nobody asking |
| Credentials.StrandingEndsWithCancel | internal/agent/credentials.go:263-345 | once that context is cancelled before the loop has passed its check, no later step of any goroutine lets the loop drop a token |
| Credentials.TokenIsInOnePlace | internal/agent/credentials.go:147-189 | every recorded token is exactly one of in one unfinished delivery, held for one binding, handed to revoke, or dropped after expiry, and there is a client to revoke it with |
| Credentials.SectionsConserve | internal/agent/credentials.go:113-141 | no section the agent runs forgets a token, or takes one back that was handed over or dropped |
| Credentials.StoppedKeeps | internal/agent/credentials.go:432-449 | after shutdown no token is held, every held one was handed over, and a login that finishes later hands its token over too |
| AgentSession.RunManager | internal/agent/credentials.go:432-449 | over every run of the manager with shutdowns and late logins, every token it ever obtained is still in exactly one of those places, and one handed over or dropped stays so |
| AgentSession.Manager.Install | internal/agent/credentials.go:171-189 | installs the token of a current delivery and hands over the token of a stale one |
| AgentSession.Manager.Expire | internal/agent/credentials.go:295-310 | drops the held token that the loop watches, ends the loop and asks for another under the loop's context |
| AgentSession.Manager.Background | internal/agent/credentials.go:235-345 | any number of steps of deliveries, retry loops and renewal loops advance no generation, revive no quiet binding, bring in no other assignment, forget no token, let no shut-out loop back, and strand exactly the bindings that they leave without cover |
| AgentSession.Manager.OneStep | internal/agent/credentials.go:235-345 | one step of any goroutine takes a binding's last cover, or marks a binding as robbed, only if it is a drop by a loop whose own context is or will be cancelled |
| AgentSession.Agent.Renew | internal/agent/agent.go:725-735 | whatever the goroutines do meanwhile, a binding's token is handed over or gone, the binding is asked for again exactly if its container is observed, and every other binding is as fine as it was |
| AgentSession.Agent.ObserveBindings | internal/agent/agent.go:443-478 | the observed bindings become those that govern a container and those kept through a recreate, and every binding in the set stays fine |
| AgentSession.Agent.ApplyPolicySet | internal/agent/agent.go:708-759 | installs the set, leaves to retire exactly the dropped bindings that are not being recreated, and the token of every new or changed binding has been handed over or is gone |
| AgentSession.Agent.RetireNext | internal/agent/agent.go:761-765 | a dropped binding ends with no token and no generation, its token handed over or gone, whenever it is retired |
| AgentSession.Agent.Unbind | internal/agent/agent.go:767-791 | withdraws one binding and leaves exactly it to retire |
| AgentSession.Agent.ReceiveCredential | internal/agent/session.go:205-219 | starts a delivery, the binding's current one, exactly for a binding of the set, of its current assignment, whose container is observed |
| AgentSession.Agent.Promises | internal/agent/credentials.go:25-28 | for every binding in the policy set: a token held or about to be installed is of the set's assignment; a name binding has one only while observed; an observed binding has a token, a current delivery or a lasting retry loop if and only if it was not stranded |
| AgentSession.Run | internal/agent/session.go:178-202 | however messages, container changes and goroutines interleave, those promises hold, and every binding of the set whose container is observed has a token or somebody asking for one unless a loop with a doomed context ever dropped its token |
| Recreate.Container.Prepare | internal/agent/recreate.go:157-184 | nothing is stopped or removed before an unfinished journal is on disk |
| Recreate.Container.Remove | internal/agent/recreate.go:185-197 | a removal, also one whose answer is lost, makes the failure owed, and only after the journal is on disk |
| Recreate.Container.Create | internal/agent/recreate.go:277-303 | a failed create is tried once more unless the agent is stopping, and only an existing container ends what is owed |
| Recreate.Container.Finish | internal/agent/recreate.go:118-130 | a failure makes the journal terminal with its reason, a success removes it |
| Recreate.Container.ReportInterrupted | internal/agent/recreate.go:204-248 | an unfinished journal is removed if the container is there and made terminal if it is not; an owed container's journal is kept if and only if it can be read or its removal fails |
| Recreate.Container.ResultRecorded | internal/agent/recreate.go:250-275 | only an acknowledgement of exactly the journal's binding and reason removes it |
| Recreate.Container.Handle | internal/agent/recreate.go:105-144 | what is owed ends only when a container exists or the matching acknowledgement arrives; its journal counts as lost if and only if a reconciliation that could not read it removed it and none was written since |
| Recreate.Container.Run | internal/agent/recreate.go:204-248 | over every run with exits anywhere: while a removed container is absent and its failure unacknowledged, a journal of it is on disk if and only if no unreadable one was removed since one was last written; and always, if every reconciliation can read it |
| EventFormat.ReadFrame | internal/events/format.go:169-204 | reads the frame at an offset: an event, the end, an interrupted tail or corruption |
| EventFormat.LoadFrames | internal/events/format.go:145-206 | the loop over the file computes exactly the parse of its bytes |
| EventFormat.FormatIsLawful | internal/events/format.go:97-206 | an encoded frame decodes to its event whatever follows, and every proper part of one reads as an interrupted tail |
| EventFormat.CutRecovers | internal/events/format.go:145-206 | for any events and any cut at or after the header, loading gives exactly the events of the longest whole-frame prefix and that prefix's end as truncation offset, or none at a boundary; truncating there and loading again gives the same events and nothing to truncate |
| EventFormat.CutFailsOnlyInHeader | internal/events/format.go:150-165 | a cut of a file of events is refused if and only if it falls inside the header |
| EventFormat.TornFrameRecovers | internal/events/format.go:184-198 | a last frame whose payload did not reach the disk is dropped, and nothing before it is |
| EventFormat.TailRecovers | internal/events/format.go:169-204 | exactly which bytes after intact frames a start drops: too few for a frame header, a payload that is not all there, or a final one that fails its checksum; any other, zeros where a header should be included, makes the file unreadable |
| EventFormat.RecoveryIsStable | internal/events/store.go:84-108 | for every file, recovering once leaves nothing to recover |
| Framing.Format.WholeIsLongest | internal/events/format.go:145-206 | the recovered prefix is the longest one of whole frames |
| EventStore.Store.Append | internal/events/store.go:121-154 | an acknowledged event is the last of the history; a refused one changes nothing; after a failure the store is closed and the event is in the history or not; the files are exactly what the fault leaves |
| EventStore.Store.Replace | internal/events/store.go:177-232 | compaction publishes exactly the retained events or keeps the old file, which a power loss may bring back exactly if the directory was not synced after the rename |
| EventStore.Store.Open | internal/events/store.go:84-119 | opening serves the newest events of the history and, without a fault, fails exactly on a file with part of a header or with an unreadable tail; a whole file within the retention is neither written nor synced |
| EventStore.Store.OpenMeans | internal/events/store.go:84-154 | while open, the list is the last `retention` entries of the durable history and the file parses to exactly it, with nothing to truncate |
| EventStore.Store.PowerLoss | internal/events/store.go:84-119 | a power loss leaves one of the files whose directory entry may be current, whole or with any bytes in place of those not durable; it takes away an event, or leaves a file that never opens, never in a secure state |
| EventStore.SecureSurvives | internal/events/store.go:84-154 | from a secure state (no file but one of the same history can come back, none has a frame or header in doubt, nor room for a frame header after the last durable frame) every power loss leaves the whole history in a file that opens |
| EventStore.InsecureLoses | internal/events/store.go:84-154 | from every other state some power loss takes away an event or leaves a file that never opens |
| EventStore.Run | internal/events/store.go:84-232 | over every run of appends, failures, crashes, power losses and reopens: the events acknowledged since a power loss last did harm are in the history in order; one does harm only in a state that is not secure, and there is none such without an unsynced write, creation or rename; while open the file parses to exactly the in-memory list |
| EventStore.FullStoreSettles | internal/events/store.go:140-149 | an event that a full store acknowledges is in a file that no power loss undoes, whatever was in doubt before |
| EventStore.CreationLost | internal/events/store.go:95-102 | a run that loses an acknowledged event: the directory of a new file is not synced, the next start finds the file and acknowledges an event, and a power loss takes the file |
| EventStore.UnsyncedFrameLost | internal/events/store.go:84-139 | a run that loses an acknowledged event: the sync of one append fails, the store is opened again and acknowledges another event, and a power loss finds that the first never arrived; the file does not open any more |

## Left out

- SSH, HTTP, TLS, Docker and the OpenBao client are calls that succeed, fail, or fail after taking effect.
- Web pages, sign-in, the command line, configuration, Unix sockets, consumer directories and systemd installation.
- HCL parsing, managed grants, placeholders and the JSON schema of a document are the functions of `Externals`; SHA-256 identities are the values they hash.
- Wire limits (`preflight`), the Transit keys and SSH roles that a save confirms, agent approval, key validation and access-group checks of a request are flags or free refusals: internal/controller/operations.go:174-185, 289-297, 464-502.
- Integer widths: revisions, generations and counters are unbounded.
- Timers, backoff and lease lengths: time is the choice of the next step.
- Other writers of OpenBao, and restoring the database from a copy.
- Lifecycle.Controller.ApplyBinding: reading and revoking the earlier token's accessor is one call that may fail; what it does to accessors is proved in `Accessors`.
- Lifecycle.Controller.DeleteBinding: the accessor it revokes and the message about a live token are not part of its result, because accessors are in `Accessors`.
- Lifecycle.Controller.RenamePolicy: after a rejected publication a new identity that OpenBao already held is not followed, because the rejection ends its record, and it can stay there as an orphan (`History.RejectedRenameOrphans`).
- History.AssignmentsStayFresh: stored settings are compared after defaults are filled in, as the store writes them.
- AgentSession.Agent.ApplyPolicySet: the governing containers are given, because which binding governs a container is in `Matching`; a binding never changes its key.
- AgentSession.Agent.Promises: a stranded binding, which is one without any cover, is excepted, because the code can strand one (`Credentials.StrandingHappens`).
- Credentials.StrandingEndsWithCancel: a loop whose check of its context came before the cancel may still drop a token, as in the code, where the check and the drop of a renewing token are two steps.
- Accessors.RetiredTokensAreAccountedFor: a token withheld by a removal whose answer was lost is excepted, because the code revokes nothing then (`Accessors.LostAnswerLeavesToken`); ownership is what it was when the report arrived, and binding identifiers, which are random, are never reused.
- Accessor reports of the agent, failure codes and status messages: internal/agent/credentials.go:190-232, 397-430.
- Recreate.Container.Run: one container name at a time, and the engine listing that a reconciliation uses is current; after an unreadable journal was removed, and until one is written again, no journal is promised, because the code removes it.
- Contract checks of containers, host mounts and group assignment: they decide only when a recreate starts.
- EventStore.Store.Append: bytes that a power loss leaves where none were durable are never a whole frame that was not written; the checksum is relied on for that.
- Event vocabularies, event projections and file ownership of the event store; the codec and the CRC-32C checksum (section 12.1 of RFC 3720) are parameters.
- Bindings, identities and deliveries are visited in a free order where the source sorts or iterates a map; updates to bindings are a map by identifier where the source keeps a list.
- The order of an assignment's identity lists: the model keeps sets where the source keeps sorted lists of sets.
