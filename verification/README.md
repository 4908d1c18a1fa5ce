# Pulse Agent: verified model of the recovery core

Pulse Agent is a daemon that observes services, correlates failures into incidents,
and recovers them by restarting Docker containers under a deterministic policy. Its
promise is that a crash at any point never repeats an effect, never loses a decision,
and never lets a record contradict another one. This project models that core in Dafny
4.11 and proves what the daemon promises about it.

Concurrent code is modelled as a state machine: a state holds the durable buckets, the
calls in flight, and a log of external effects; a label says who moves next and what
the clock, the generators, the Docker adapter or the probe answer. Every step is one
store transaction or one external call, a crash may drop any calls between two steps,
and a label that is not enabled does nothing. Theorems quantify over every sequence of
labels. Code that updates fields or loops is a class or a method, proved against the
function that the theorems speak about. Inductions are written out: automatic induction
is switched off wherever it would apply.

`dafny verify dfyconfig.toml` checks everything.

## Modules

- `Text`, `Contract`: bounded tokens, NUL-joined identities, decimal numerals, byte
  order; the shared records and the two lifecycle tables.
- `Policy`: the authorization decision.
- `Audit`: the digest-linked chain.
- `Journal`, `Approvals`, `Store`: the command journal, local decisions, and both as
  transactions in place, with reconciliation in isolation.
- `Recovery`, `RecoverySafety`, `RecoveryTheorems`, `RecoveryAnswers`, `RecoveryOrigins`,
  `RecoveryCall`, `RecoveryRace`: the recovery protocol, its invariant, its guarantees,
  what the adapter's answers lead to, where commands and approvals come from, one call on
  its own, and the one race it leaves.
- `Stabilization`, `StabilizationRuns`, `StabilizationTheorems`, `Verifier`, `Serial`,
  `StabilizationRace`: the post-recovery verifier, alone, in a row and among other calls,
  and the inputs on which it differs from its documentation.
- `Joint`: the recovery protocol and the verifier over one store.
- `Base64`, `Webhook`, `WebhookTheorems`, `Ingress`, `IngressOrigins`: Standard Webhooks
  signing, what exactly is verified and accepted, and alert replay protection.
- `Delivery`, `DeliveryRound`, `DeliveryRuns`, `Publishers`, `Outbox`, `OutboxTheorems`,
  `Publication`: the delivery queue, the two publishers and the outbox they share.
- `Correlator`, `CorrelatorTheorems`, `IncidentFields`, `Observer`: incidents and probe
  evaluation.

## Idealisations

- SHA-256 is injective: a hashed key or digest is represented by its preimage. HMAC is
  a function parameter with 32-byte results, about which nothing is assumed.
- JSON encoding followed by decoding is the identity on valid records.
- A time is a number of nanoseconds since Go's zero time, so `IsZero` is equality with
  0; a duration is an integer. Only the backoff loop is stated on 64-bit integers.
- A character stands for one byte of a Go string.
- Clocks, ID generators, probes, Docker and HTTP replies are parameters or labels.

## Where the code and its documentation differ

The model follows the code. In each case a lemma at a concrete input, or at every input
of a kind, shows the difference, and an equivalence says when the documented property
holds.

- A command moved to verify-and-notify can still be executed, by a call that started it
  before reconciliation marked it and has not reached the adapter
  (`RecoveryRace.ExecutedAfterVerify`; `RecoveryTheorems.ExecutesAfterVerifyIff`).
- `Verify` is documented to complete after the required samples and the full window; it
  completes only at the instant the window ends, because anything later is a timeout
  (`StabilizationRace.LateSuccessTimesOut`; `Stabilization.PassesIff`). After a crash
  between finalizing a success and persisting it, only a rerun at that instant stores the
  result (`Verifier.AfterCrash`).
- A 257th consecutive healthy sample cannot be persisted
  (`StabilizationRace.SampleTooMany`; `Stabilization.JudgedValidIff`).
- A decided stabilization result can be overwritten by a pending one from an overlapping
  `Verify` call (`StabilizationRace.DecidedCanRevert`; `StabilizationTheorems.RevertsIff`).
- An audit append with a reused event ID succeeds and makes the chain unreadable
  (`Audit.ReusedIDUnreadable`; `Audit.AppendExtends`).
- A retry of a terminal publication is documented to complete any missing paired event;
  it does so only while the event's item can still be queued, and never once the event
  would have expired (`Publication.MissedForGood`, `Publication.NeverCompleted`;
  `Publication.RetryAfterReport`).
- Repeating a terminal publication without an explicit time fails unless both calls read
  the same clock value (`Publication.RepeatedLaterFails`; `Publication.ZeroTimeRepeatIff`).
- The attempt limit is documented to bound all sends of an item. It does so exactly when
  the ending of the item can be audited; otherwise the item stays pending and is sent in
  every due round until it expires, and then stops every round that comes to it
  (`DeliveryRound.SentWithoutLimit`, `OutboxTheorems.UnauditableStaysForever`;
  `Outbox.SettledOutcome`). An item cannot be ended when its delivery ID, drawn from the
  configured generator, is not fit for an audit field, or when the chain is unreadable.
- Receipt retention may be configured down to one minute, but only 601 seconds or more
  stop a replay within the signature tolerance (`Ingress.AcceptedTwice`;
  `Ingress.AtMostOnceIff`).
- Replaying a healthy signal that ended an incident of another window can end an older
  incident as well (`CorrelatorTheorems.ReplayChangesAnother`;
  `CorrelatorTheorems.ReplayChangesIff`).

Incident keys join target and rule with a slash, so a slash inside a target identifier
can make the keys of two rules coincide (`CorrelatorTheorems.DedupeKeysCollide`;
`CorrelatorTheorems.DedupeKeysAgreeIff`). The daemon does not produce such identifiers:
registration refuses them (internal/target/registry.go:62, 348, 384), and the observer
and the alert ingress pass on registered pairs only. Only a direct call of `Ingest` could.

## Model

| member | source | states |
|---|---|---|
| Text.SplitJoined | internal/recovery/journal.go:375-379 | the values of a NUL-joined identity can be read back, so it is uniquely splittable |
| Text.JoinedInjective | internal/recovery/journal.go:375-379 | identities over NUL-free values are equal only when the value lists are, whatever their lengths |
| Text.PaddedOrder | internal/audit/chain.go:251-253 | on zero-padded numerals of one width, byte order is numeric order |
| Policy.EvaluateAllowsIff | internal/policy/policy.go:102-146 | Evaluate allows exactly when every condition, written on the fields, holds of some registered runbook: names, digest, target, action, analysis, preconditions, cooldown, attempts, stabilization, and a live grant or a low-risk automatic runbook that asks for none |
| Policy.EvaluateAwaitsIff | internal/policy/policy.go:102-146 | it awaits approval exactly when an input without an approval is in order for a runbook of medium or high risk, one that requires approval, or one that is not automatic; and it always gives a verdict |
| Policy.EvaluateOrderFree | internal/policy/policy.go:148-242 | permuting runbooks, approvers or candidate IDs never changes verdict or reason |
| Policy.AllowPersistsUntilExpiry | internal/policy/policy.go:195-217 | an allow stays an allow at a later time exactly until the approval expires |
| Policy.AllowNeedsGrant | internal/policy/policy.go:202-221 | an allow under a runbook that is not low risk, automatic and free of approval comes with a live grant for this command by an authorized approver |
| Policy.AllowRespectsCooldown | internal/policy/policy.go:195-200 | an allow after an earlier attempt comes no sooner than the action's cooldown after it |
| Policy.DenialReasonHolds | internal/policy/policy.go:102-217 | a denial never gives a false reason: the condition that its code names does fail |
| Policy.DenialReasonFirst | internal/policy/policy.go:102-217 | of all the conditions that fail, a denial names the one examined first |
| Policy.Contains | internal/policy/policy.go:237-242 | sorting a copy and searching it by halves equals membership |
| Policy.CheckUniqueNonEmpty | internal/policy/policy.go:223-235 | the loop over a seen set accepts exactly lists of distinct non-empty strings |
| Policy.CheckActions | internal/policy/policy.go:160-181 | the loop accepts exactly when every typed action is valid |
| Policy.CheckSnapshot | internal/policy/policy.go:160-181 | the loops accept exactly the valid snapshots, runbook IDs distinct included |
| Policy.CheckPreconditions | internal/policy/policy.go:183-193 | the loop accepts exactly distinct, named conditions that were all observed to hold |
| Policy.RegisteredFor | internal/policy/policy.go:148-158 | the loop finds the first runbook with the ID, or none exactly when none has it |
| Audit.EventKeyOrder | internal/audit/chain.go:251-253 | event keys are ordered as their indices and never coincide |
| Audit.ChainKeys | internal/store/store.go:314-326 | iterating the bucket in byte order visits a chain's events in index order |
| Audit.ReadChainIff | internal/audit/chain.go:123-155 | readChain accepts exactly the buckets that hold a linked chain with distinct event IDs, and reports its length and last digest |
| Audit.CheckField | internal/audit/chain.go:223-241 | the loop accepts exactly texts of 1 to 128 characters of the audit class |
| Audit.CheckFields | internal/audit/chain.go:203-221 | the loop over the fields accepts exactly well-formed events |
| Audit.ScanChain | internal/audit/chain.go:123-155 | the scan with a running digest and a seen set computes readChain |
| Audit.NextKeyAbsent | internal/audit/chain.go:85-101 | the next index key is never taken, so the append-only refusal cannot happen on a chain |
| Audit.AppendedIff | internal/audit/chain.go:59-101 | an append succeeds exactly when the chain can be read and has room and the event is well formed |
| Audit.AppendExtends | internal/audit/chain.go:59-101 | an append extends the chain by one with the old events as prefix; the result is readable exactly when the event ID was unused |
| Audit.ReusedIDUnreadable | internal/audit/chain.go:59-155 | one event appended twice: both appends succeed, and after the second nothing can be read or appended |
| Audit.AuditLog.Append | internal/audit/chain.go:59-101 | the append in place, with its error cases leaving the bucket unchanged |
| Audit.DigestDeterminesEvents | internal/audit/chain.go:182-201 | two chains with the same last digest are equal event for event |
| Audit.TamperEvident | internal/audit/chain.go:106-155 | no change to a stored chain survives a read that still reports the same last digest |
| Journal.RecordKeyInjective | internal/recovery/journal.go:367-379 | commands share a journal key exactly when incident, runbook, digest, target and action agree |
| Journal.CheckRecord | internal/recovery/journal.go:304-361 | the checks accept exactly the valid records, phase and reconciliation included |
| Journal.IdempotencyKeyInjective | internal/recovery/journal.go:371-379 | index keys coincide exactly when the idempotency keys do |
| Journal.TransitionIs | internal/recovery/journal.go:113-210 | what every transition does to a valid record and when it is refused, by the phase alone; a record that waits is approved only with a decision attached |
| Journal.UpdateEvolves | internal/recovery/journal.go:113-238 | every transition keeps the journal well formed and is one legal step of the command table with a rise in phase rank, or none |
| Journal.PersistEvolves | internal/recovery/journal.go:58-111 | persisting a pending record keeps the journal well formed, indexes it, and reports a duplicate exactly when the effect was there |
| Journal.IdempotencyExact | internal/recovery/journal.go:58-111 | a taken idempotency key answers for its own effect, refuses any other without a change, and its record is always present |
| Journal.FindIff | internal/recovery/approval.go:391-419 | in a well-formed journal the search by command ID finds exactly the only record that has it |
| Journal.TerminalAbsorbs | internal/recovery/journal.go:113-210 | completed and verify-and-notify records never change again |
| Approvals.DecideAtomic | internal/recovery/approval.go:132-239 | every decision call changes nothing, or commits exactly one audit event that tells actor, command, result and reason, together with the decision as requested, an expiry, or no other change |
| Approvals.DecisionRecordedIff | internal/recovery/approval.go:132-239 | a decision is recorded exactly when the request is in order, the command's only record waits undecided, now is before the requested expiry and that is not after the command's, the drawn ID is new, and the decision can be noted |
| Approvals.ExpiryRecordedIff | internal/recovery/approval.go:156-239 | a call ends a waiting command as expired exactly when it is in order, comes at or after the command's or the requested expiry, and can be noted |
| Approvals.DecideMove | internal/recovery/approval.go:156-239 | a decision keeps journal and approvals consistent, writes the journal legally and overwrites no approval |
| Store.Store.PersistPending | internal/recovery/journal.go:58-111 | the transaction in place: new state, answer and error cases, and the invariant it keeps |
| Store.Store.UpdateRecord | internal/recovery/journal.go:212-238 | load, change and store one record in place; an error leaves the journal as it was |
| Store.Store.FindByCommandID | internal/recovery/approval.go:391-419 | the scan in any order finds the unique record of a command ID; two of them, or an invalid record, is corruption |
| Store.Store.Decide | internal/recovery/approval.go:132-239 | the decision transaction in place, all or nothing |
| Store.Store.ReconcilableRecords | internal/recovery/journal.go:240-264 | lists every pending, approved or executing record exactly once |
| Store.Store.Reconcile | internal/recovery/coordinator.go:262-298 | every reconcilable record ends in verify-and-notify with what Docker reported, every other document is untouched, none is left, and a second run returns nothing; it fails only on a corrupt journal or a zero clock |
| RecoverySafety.StepKeeps | internal/recovery/coordinator.go:386-444 | every step of every call keeps the protocol invariant and moves the store legally |
| RecoveryTheorems.AtMostOnce | internal/recovery/coordinator.go:386-444 | in no schedule is Adapter.Execute called twice for one incident, runbook, digest, target and action |
| RecoveryTheorems.ApprovalGate | internal/recovery/coordinator.go:303-329 | every Execute under a runbook that is of medium or high risk, requires approval or is not automatic finds a durable grant for that command and approval ID by an approver in the state loaded, live at a revalidation time before the command's expiry |
| RecoveryTheorems.ExecutesOnlyAuthorized | internal/recovery/coordinator.go:622-642 | whatever is executed was authorized by the policy under the state loaded last, and is the action registered for that runbook, digest, target and index |
| RecoveryTheorems.JournalRefines | internal/recovery/journal.go:304-350 | every reachable journal is well formed and every step writes it as the command table allows |
| RecoveryTheorems.PhaseChangesBounded | internal/recovery/journal.go:113-210 | a command changes phase at most four times in any schedule |
| RecoveryTheorems.IndexForever | internal/recovery/journal.go:58-111 | an idempotency key points at the same present record for ever |
| RecoveryTheorems.RejectedNeverExecutes | internal/recovery/journal.go:113-123 | a command denied or expired at any point is executed neither before nor after it |
| RecoveryTheorems.ExecutesAfterVerifyIff | internal/recovery/coordinator.go:262-298 | a command in verify-and-notify can still be executed exactly when a live call had started it and not yet acted |
| RecoveryTheorems.NeverExecutedAfterRestart | internal/recovery/coordinator.go:259-329 | with no call in flight, as after a restart, a command that is present and not waiting for a decision is never executed later, reconciled or not |
| RecoveryTheorems.DecidedAtMostOnce | internal/recovery/approval.go:156-239 | over any schedule a command is granted or denied at most once |
| RecoveryTheorems.ApprovalsPermanent | internal/recovery/approval.go:156-239 | approval records and the command index are inverse in every reachable store and never overwritten |
| RecoveryRace.ExecutedAfterVerify | internal/recovery/coordinator.go:386-444 | a concrete schedule in which the effect is executed after the command was moved to verify-and-notify |
| RecoveryAnswers.PastMeansExecuted | internal/recovery/coordinator.go:428-444 | in every schedule a command that is stabilizing, succeeded or failed was executed exactly once and the adapter answered with success |
| RecoveryAnswers.ErrorIsHeld | internal/recovery/coordinator.go:428-444 | after an execution answered with an error the command is executing or held for verification, then and ever after |
| RecoveryCall.LoadStateIs | internal/recovery/approval.go:318-338 | a command without an approval sees the source's state; one with an approval sees its own durable approval, or a revoked one |
| RecoveryCall.RevalidateIs | internal/recovery/coordinator.go:530-546 | a revalidation passes exactly when the loaded state is about this very command and the policy authorizes it now, before its expiry |
| RecoveryCall.UndisturbedCall | internal/recovery/coordinator.go:386-444 | an undisturbed call on a pending or granted command ends it as expired at a check after its expiry and as denied at a check that fails or a refused validation, leaves it as it was when the announcement fails, and otherwise executes once, ending stabilizing after a success and held for verification after an error |
| RecoveryCall.SubmitBegins | internal/recovery/coordinator.go:202-257 | a prepared submission is journaled under its effect and its idempotency key if both are new and is tried exactly when the policy allows it; a repetition of the effect adds at most the index; anything else changes nothing |
| RecoveryCall.ResumeBegins | internal/recovery/coordinator.go:303-329 | a resumption begins exactly for the command's only record, waiting with an approval attached |
| RecoveryCall.ReconcileTurn | internal/recovery/coordinator.go:262-298 | one turn of a reconciliation holds the record in line for verification, with Docker's report exactly if it is about the command's own target, and goes on with the rest |
| RecoveryCall.CompletionIs | internal/recovery/coordinator.go:490-519 | finalizing completes the command's only record as succeeded or failed as told if it is stabilizing, and otherwise changes nothing |
| RecoveryOrigins.PreparedIff | internal/recovery/coordinator.go:331-384 | a submission is prepared exactly when it is well formed, in time and not denied by the policy; the record has its fields and the action and risk registered for the runbook, and waits exactly when the policy asks for approval |
| RecoveryOrigins.CommandOrigin | internal/recovery/coordinator.go:331-384 | every journaled command has the identity, times, target and registered action of one submission of the schedule that the policy did not deny, and waits for approval only if the policy asked for one then |
| RecoveryOrigins.ApprovalOrigin | internal/recovery/approval.go:195-239 | every stored approval goes back to exactly one recorded decision call, with its approval ID, command, decision, actor, reason, clock reading and requested expiry |
| RecoveryOrigins.GrantBehindExecution | internal/recovery/coordinator.go:303-444 | behind every Execute that needs approval there is an earlier granting call for that command by an approver of the loaded state, and the revalidation came before the expiry that call asked for |
| Stabilization.CheckSample | internal/stabilization/verifier.go:485-492 | the loop accepts exactly samples whose metrics are all finite |
| Stabilization.CheckRules | internal/stabilization/verifier.go:494-511 | the loop accepts exactly when every rule's metric is present and on the right side of its threshold |
| Stabilization.ResultKeyInjective | internal/stabilization/verifier.go:536-539 | results share a key exactly when command and attempt agree |
| Stabilization.PassesIff | internal/stabilization/verifier.go:234-267 | an attempt succeeds exactly on a healthy reading that meets every rule, completes the required run, and falls on the very end of the window |
| Stabilization.FaultIs | internal/stabilization/verifier.go:234-255 | which failure each reading counts as: late, out of time, no daemon, unreadable or not finite, unhealthy, flapping, or breaking a rule |
| Stabilization.JudgedIs | internal/stabilization/verifier.go:234-351 | everything one judgement does to the record: a healthy reading is counted and may pass, any other empties the count and records failure, reason and next attempt |
| Serial.PassedMeans | internal/stabilization/verifier.go:203-272 | a success stored by Verify calls in a row means that their first n readings, at least the required number and at most 256, were all healthy, the first opening the window and the last closing it |
| Serial.CountEndsAt256 | internal/stabilization/verifier.go:257-271 | for every request, after 256 healthy samples within the window however many more follow, each is refused and nothing changes |
| Stabilization.RetryIff | internal/stabilization/verifier.go:316-377 | a retry is scheduled exactly after a failure with an attempt left, when the loaded state still describes the command and a registered runbook of its ID and digest permits it: conditions met, cooldown over, approval in place for this command now, and both the attempts on record and the next one below its maximum |
| Stabilization.JudgedValidIff | internal/stabilization/verifier.go:458-483 | the new record can be persisted unless it would count a 257th healthy sample in a row |
| StabilizationRuns.StepKeeps | internal/stabilization/verifier.go:206-272 | every step of every Verify call, and every legal journal write by others, keeps results and journal in agreement |
| StabilizationRuns.Agreement | internal/stabilization/verifier.go:257-272 | in every schedule a stored pass is a command completed as succeeded and a stored retry or final failure is one completed as failed, wherever crashes fall |
| Joint.FindIsCompletion | internal/recovery/coordinator.go:490-519 | a verifier goes on to complete a record exactly when the coordinator's call begins for that record and outcome |
| Joint.CompleteIsTransact | internal/recovery/journal.go:177-195 | completing it is one journal transaction, the same for verifier and coordinator |
| Joint.JointIsBoth | internal/stabilization/verifier.go:353-361 | every joint schedule of the recovery protocol and the verifier over one store is at once a schedule of either |
| Joint.Agreement | internal/stabilization/verifier.go:257-272 | in every joint schedule a stored pass is a command completed as succeeded, a stored retry or final failure one completed as failed |
| Joint.DecidedWasExecuted | internal/stabilization/verifier.go:257-272 | in every joint schedule a decided result is one of a command whose effect was executed exactly once and successfully |
| Joint.AtMostOnce | internal/recovery/coordinator.go:386-444 | in every joint schedule no effect is executed twice |
| StabilizationTheorems.QuietIsFinal | internal/stabilization/verifier.go:216-222 | a decided result never changes unless another call for it was already past its load |
| StabilizationTheorems.RevertsIff | internal/stabilization/verifier.go:268-271 | a decided result can become pending again exactly when a racing call can still persist a pending record |
| StabilizationRace.DecidedCanRevert | internal/stabilization/verifier.go:206-272 | a concrete schedule after which a stored failure can be overwritten by a pending record |
| StabilizationRace.LateSuccessTimesOut | internal/stabilization/verifier.go:234-237 | both required samples in, the window passed and the service healthy one instant later: the attempt times out and the command is failed |
| StabilizationRace.SampleTooMany | internal/stabilization/verifier.go:458-461 | a concrete attempt whose 257th healthy sample is refused |
| Verifier.Verifier.Complete | internal/recovery/coordinator.go:490-519 | finalizing in place: idempotent for the same outcome, refused for the other |
| Verifier.Verifier.Persist | internal/stabilization/verifier.go:421-435 | stores a valid record under its key and refuses any other |
| Verifier.Verifier.Verify | internal/stabilization/verifier.go:206-272 | the whole call in place, journal first and result second, with all its errors |
| Verifier.VerifyIsRun | internal/stabilization/verifier.go:206-272 | an undisturbed call does exactly what its own steps do in the state machine |
| Verifier.AfterCrash | internal/stabilization/verifier.go:257-266 | once the journal is final and the result is not, a rerun changes no journal record and stores a result exactly when it judges the same way; after a success that means at the deadline with room in the count |
| Base64.DecodeIff | internal/webhook/standard.go:150-160 | strict decoding accepts exactly the encodings, line breaks aside, and inverts them |
| Webhook.SecretRoundTrip | internal/webhook/standard.go:150-160 | every secret of admissible size has a serialization that parses back to it |
| Webhook.NewKeyring | internal/webhook/standard.go:65-79 | accepts exactly one or two parseable secrets, in order |
| WebhookTheorems.SecretIff | internal/webhook/standard.go:150-160 | a secret parses exactly when it is the prefix and strict base64, line breaks aside, of 24 to 64 bytes |
| Webhook.CheckMessageID | internal/webhook/standard.go:162-172 | the loop accepts exactly well-formed message IDs |
| Webhook.SigningContentInjective | internal/webhook/standard.go:221-226 | messages have the same signed content exactly when id, timestamp and body agree |
| Webhook.Sign | internal/webhook/standard.go:84-100 | the loop over the secrets produces the specified headers |
| Webhook.ParseSignatures | internal/webhook/standard.go:197-219 | the loop parses every part in order or reports the first error |
| Webhook.VerifyWithTolerance | internal/webhook/standard.go:111-143 | the nested loops accept exactly when some secret's digest is among the signatures, after the header and time checks in order |
| Webhook.SignedParses | internal/webhook/standard.go:84-100 | the signature header of a signed message parses back to the digests of its keyring |
| Webhook.SharedSecretVerifies | internal/webhook/standard.go:84-143 | headers signed by one keyring verify under any keyring sharing a secret exactly when the clocks are within tolerance |
| Webhook.NoTransplant | internal/webhook/standard.go:111-143 | a signature accepted for another id, timestamp or body exhibits two contents with the same HMAC |
| WebhookTheorems.HeaderIff | internal/webhook/standard.go:197-219 | a signature header parses to a list of digests exactly when it is their canonical writing in order |
| WebhookTheorems.VerifiedIff | internal/webhook/standard.go:111-143 | a request is verified exactly when its id is well formed, its timestamp is within the tolerance, and its header holds the digest under some secret of its own id, timestamp and body |
| Ingress.Ledger.Commit | internal/alert/ingress.go:200-225 | the loops drop exactly the expired receipts and insert the new one, or change nothing |
| Ingress.RetentionApart | internal/alert/ingress.go:151-230 | when clock readings follow commit order, acceptances of one webhook id are at least the retention apart |
| Ingress.AtMostOnceIff | internal/alert/ingress.go:110-112 | an id and timestamp is accepted at most once in every such schedule, already of any one body within the limit, if and only if the retention is at least 601 seconds |
| Ingress.AcceptedTwice | internal/alert/ingress.go:151-230 | with any shorter retention and for every body within the limit that decodes to an alert, a schedule that accepts one signed request twice |
| Ingress.ClockOrderNeeded | internal/alert/ingress.go:200-225 | for any retention and every such body, a schedule out of clock order that accepts one request twice |
| IngressOrigins.AcceptedWasGenuine | internal/alert/ingress.go:151-230 | in every schedule an accepted alert was a usable request of admissible size, authentically signed for its own id, timestamp and body, within five minutes |
| IngressOrigins.AcceptedIff | internal/alert/ingress.go:151-247 | undisturbed, a request is accepted exactly when it is genuine and no receipt of its id is live; then its receipt is kept for the retention and only expired ones go |
| Delivery.Backoff | internal/delivery/delivery.go:578-590 | on 64-bit durations the loop never overflows and returns min(initial * 2^(n-1), cap) |
| Delivery.DelayMonotone | internal/delivery/delivery.go:578-590 | delays never shrink with the attempt and stay between the initial delay and the cap |
| Delivery.Dispatcher.CountPending | internal/delivery/delivery.go:620-633 | counts the waiting items in any order and fails on an unreadable one |
| Delivery.Dispatcher.IsWebhookInUse | internal/delivery/delivery.go:635-648 | finds exactly whether some item has the webhook ID |
| Delivery.Dispatcher.Enqueue | internal/delivery/delivery.go:228-295 | accepts a valid request within the bound and with fresh IDs, and changes nothing otherwise |
| Delivery.QueuedIff | internal/delivery/delivery.go:228-295 | an item is queued exactly when the request is valid and unexpired, its IDs are well formed and new, and the queue is readable and has room; it then waits at once with no attempts |
| Delivery.Dispatcher.PendingItems | internal/delivery/delivery.go:544-565 | lists every waiting item exactly once |
| Delivery.Dispatcher.DeliverDue | internal/delivery/delivery.go:300-337 | one round in place, item by item up to the first error; an unreadable item or one under another key is corruption and changes nothing |
| DeliveryRound.RoundExact | internal/delivery/delivery.go:300-373 | after a round without an error a waiting item is delivered exactly if it was due and answered 2xx; given up exactly if due, not so answered and at its last attempt; timed out exactly if expired or if the doubled and capped delay reaches its expiry; due again after that delay otherwise; and nothing else changes |
| DeliveryRound.BackoffBetweenAttempts | internal/delivery/delivery.go:471-501 | after a failed attempt an item is sent again exactly from the doubled and capped delay on, and before its expiry |
| DeliveryRound.UnfitIsQueued | internal/delivery/delivery.go:241-244 | an item whose delivery ID is a valid token but not fit for an audit field is accepted |
| DeliveryRound.SentWithoutLimit | internal/delivery/delivery.go:471-542 | with one attempt allowed, every round before that item's expiry whose send fails leaves it as it was, to be sent again |
| DeliveryRuns.ProcessedAs | internal/delivery/delivery.go:339-542 | in every reachable round, sending the item faced and recording the answer gives it that fate, or leaves it if its end cannot be audited, and moves no other item |
| DeliveryRuns.AnswerDecides | internal/delivery/delivery.go:339-501 | in every schedule a delivered item was answered 2xx at its last send and a given-up item was sent and was not |
| DeliveryRuns.NoteTellsState | internal/delivery/delivery.go:503-542 | in every schedule exactly the timed-out and given-up items have an audit event, one each, with the reason of their state |
| DeliveryRuns.QueuedFor | internal/delivery/delivery.go:228-295 | in every schedule lifecycle items go to the event destination and expire when their event's time to live is over; report items go to the report destination |
| Publishers.StableEventIDInjective | internal/lifecycle/publisher.go:274-277 | events share an ID exactly when type, incident and key agree |
| Publishers.StableReportIDInjective | internal/report/publisher.go:226-229 | reports share an ID exactly when state, incident and key agree |
| Publishers.EventStoredIff | internal/lifecycle/publisher.go:163-219 | an event is stored exactly when it is new and its item can be queued, and the item is for the event destination and until the event's time to live is over |
| Publishers.ReportStoredIff | internal/report/publisher.go:128-197 | a report is stored exactly when it is new and its item can be queued, and the item is for the report destination and until the report's time to live is over |
| Publishers.GatherEvidence | internal/report/publisher.go:304-324 | the loop gathers the input's evidence and the analysis', or refuses |
| Publishers.MergedIs | internal/report/publisher.go:304-324 | merging loses, adds and repeats no reference and keeps the given ones first |
| Publishers.ComposedIff | internal/report/publisher.go:231-245 | a report and event are composed exactly for a named incident in a terminal state at a known time with evidence in order and either an analysis of it or word that there is none |
| Publishers.ComposedIs | internal/report/publisher.go:231-279 | a closed incident is announced as closed and a failed one as failed, with reason, stable IDs, time and the same evidence in report and event |
| Outbox.SettledOutcome | internal/delivery/delivery.go:443-542 | a due item's action is always recorded as decided, except an ending, which is recorded exactly when both IDs are fit for an audit field and the chain can be read and has room |
| OutboxTheorems.StepKeeps | internal/delivery/delivery.go:228-337 | every step of publications and rounds keeps the outbox invariant and moves the store legally |
| OutboxTheorems.StoredIffQueuedOnce | internal/lifecycle/publisher.go:191-204 | in every schedule a payload is stored if and only if exactly one queue item of its type references it |
| OutboxTheorems.StoreOnlyGrows | internal/delivery/delivery.go:443-542 | payloads never change or disappear, item identities are constant, and terminal items never change |
| OutboxTheorems.QueueBounds | internal/delivery/delivery.go:264-293 | waiting items have attempts left and a next attempt before expiry, webhook IDs are unique, the bound holds, and each failed or expired item has exactly one delivery event in the audit chain, whatever other components append to it |
| OutboxTheorems.AttemptsConserved | internal/delivery/delivery.go:443-542 | an item's recorded attempts, plus the ending of one that failed, are exactly its processings |
| OutboxTheorems.ProcessedAtMost | internal/delivery/delivery.go:471-501 | an item is processed at most MaxAttempts times and is then no longer pending |
| OutboxTheorems.ProcessingRecorded | internal/delivery/delivery.go:471-542 | a due processing that reaches its transaction counts exactly unless it is an ending that cannot be audited, which changes nothing and stops the round |
| OutboxTheorems.UnauditableNeverEnds | internal/delivery/delivery.go:511-542 | in every schedule an item whose ID is not fit for an audit field is pending until it is delivered |
| OutboxTheorems.UnauditableStaysForever | internal/delivery/delivery.go:319-326 | once expired, such an item stays pending in every schedule of later rounds |
| OutboxTheorems.CompletedExactlyOnce | internal/report/publisher.go:128-197 | once a publication has returned without error, and ever after, its payloads are stored as composed with exactly one item each |
| Publication.Publisher.Publish | internal/lifecycle/publisher.go:163-219 | the lifecycle publication in place: duplicate, conflict, refusal or new item |
| Publication.Publisher.PublishTerminal | internal/report/publisher.go:128-197 | the two transactions in sequence in place |
| Publication.ComposedValid | internal/report/publisher.go:231-279 | a composed terminal event always passes the lifecycle checks |
| Publication.ComposedPairs | internal/report/publisher.go:231-279 | reports share an ID exactly when their lifecycle events do, and both exactly when incident, terminal state and key agree |
| Publication.SuccessIsOnceEach | internal/report/publisher.go:128-197 | a successful terminal publication leaves exactly one report item and one lifecycle item |
| Publication.RetryAfterReport | internal/report/publisher.go:149-197 | with its report stored, whatever happened since, a repetition with an explicit time adds no report and completes exactly when the event is there as composed, or is absent and its item can be queued now |
| Publication.RetryInAnySchedule | internal/report/publisher.go:149-197 | a report once stored stays, and the same equivalence holds of a repetition after any further publications, rounds and crashes |
| Publication.NeverCompleted | internal/report/publisher.go:125-197 | once a missing event would have expired, however many retries follow, none succeeds and none changes anything |
| Publication.MissedForGood | internal/report/publisher.go:125-197 | a concrete publication stopped between its transactions that no later retry completes |
| Publication.RepeatIsNoOp | internal/report/publisher.go:149-197 | repeating a completed publication with an explicit time succeeds and changes nothing |
| Publication.ZeroTimeRepeatIff | internal/report/publisher.go:231-235 | without an explicit time the repetition succeeds exactly when both calls read the same clock value |
| Publication.RepeatedLaterFails | internal/report/publisher.go:231-235 | a concrete completed publication whose repetition a nanosecond later is refused |
| Publication.PublishIsRun | internal/report/publisher.go:128-197 | an undisturbed publication does exactly what its own steps do in the state machine |
| Correlator.Contains | internal/correlator/correlator.go:416-423 | the loop equals membership |
| Correlator.CheckDistinct | internal/correlator/correlator.go:376-385 | the loop over a seen set accepts exactly lists without repetition |
| Correlator.CheckRecord | internal/correlator/correlator.go:369-406 | the checks accept exactly the valid records |
| Correlator.Correlator.FindActiveRecord | internal/correlator/correlator.go:208-233 | the scan in key order computes the active record, or reports corruption |
| Correlator.Correlator.UpdateRecord | internal/correlator/correlator.go:196-206 | folds one signal into a record in place, or answers a duplicate without a change |
| Correlator.Correlator.IngestSignal | internal/correlator/correlator.go:124-175 | the whole ingestion in place with its error cases |
| CorrelatorTheorems.UpdatedOK | internal/correlator/correlator.go:300-344 | advancing a valid record always yields a valid record and follows the incident table |
| CorrelatorTheorems.IncidentsRefine | internal/correlator/correlator.go:124-175 | after any signals every record is valid, terminal time is set exactly on terminal incidents, and the next signal writes at most one record, with identity fixed, severity not lower and the state on the incident table or unchanged |
| CorrelatorTheorems.RunLeads | internal/correlator/correlator.go:300-344 | over any run identity never changes, severity never falls, states only rise and terminal incidents are final |
| CorrelatorTheorems.StateChangesBounded | internal/correlator/correlator.go:300-344 | an incident changes state at most four times |
| CorrelatorTheorems.SeenIsLast256 | internal/correlator/correlator.go:408-414 | a record lists exactly the last 256 inputs folded into it |
| CorrelatorTheorems.IncidentIsItsHistory | internal/correlator/correlator.go:300-344 | in every run an incident is the fold of the signals its record took in, and its state is the closed form of their reports |
| CorrelatorTheorems.FindActiveIsLatest | internal/correlator/correlator.go:208-237 | the active record is the most recently opened one, the first key among equals, and none exactly when there is none |
| CorrelatorTheorems.ListedIsDuplicate | internal/correlator/correlator.go:196-199 | re-ingesting a signal that its dedupe-key record lists changes nothing |
| CorrelatorTheorems.ReplayChangesIff | internal/correlator/correlator.go:143-154 | ingesting a signal twice in a row changes something exactly when it has no record of its own, is healthy, ends the active incident it is routed to, and the next active incident in line has not seen it |
| CorrelatorTheorems.ReplayChangesAnother | internal/correlator/correlator.go:143-154 | a concrete run with the default window in which a replayed recovery ends a second incident |
| CorrelatorTheorems.DedupeKeysAgreeIff | internal/correlator/correlator.go:264-267 | for any identifiers, keys coincide exactly when the times have the same quotient by the window and target and rule read the same joined by a slash |
| CorrelatorTheorems.DedupeKeyInjective | internal/correlator/correlator.go:264-267 | with slash-free targets, keys coincide exactly when target, rule and the quotient of the time by the window agree |
| CorrelatorTheorems.DedupeKeysCollide | internal/correlator/correlator.go:264-267 | two rules that share a key when a direct call passes a target identifier with a slash |
| IncidentFields.NormalizedIff | internal/correlator/correlator.go:269-289 | a signal is valid exactly when its observation is complete and its source, alert ID and severity are in order; empty source and severity get their defaults and nothing else changes |
| IncidentFields.InputsAgreeIff | internal/correlator/correlator.go:291-298 | alerts are one input exactly when source and alert ID agree, observations exactly when their IDs do |
| IncidentFields.RoutedTo | internal/correlator/correlator.go:124-262 | in every reachable bucket a signal goes to its own record; otherwise a failure opens a candidate with its fields, and a recovery goes to the latest open incident of its target and rule or is ignored |
| IncidentFields.IncidentSays | internal/correlator/correlator.go:300-344 | in every run an incident names the target, rule and time of its first signal, the highest severity it took in until it ended, and the time of the signal that ended it |
| IncidentFields.SpanIsFirst | internal/correlator/correlator.go:300-344 | that signal is the first after which the incident is over |
| Observer.TrailingRunIff | internal/observer/observer.go:208-245 | the trailing run has at least n samples exactly when the last n agree without a gap beyond the window |
| Observer.FoldedAgrees | internal/observer/observer.go:208-237 | the counters, kept with trimmed and bounded samples, equal the trailing runs of the full history |
| Observer.VerdictIff | internal/observer/observer.go:238-244 | unhealthy exactly when the last required samples of the full history all failed within the window, otherwise healthy likewise |
| Observer.KeysAgreeIff | internal/observer/observer.go:128-148 | with slash-free targets, schedule keys coincide exactly when target and rule agree |
| Observer.Scheduler.StartDue | internal/observer/observer.go:128-140 | starts a probe exactly when its key is idle and an interval has passed, as the start step of the schedule does |
| Observer.Scheduler.Finish | internal/observer/observer.go:142-148 | the finish step of the schedule: afterwards the key is due again exactly from the rule's interval after this cycle's time on |
| Observer.Scheduler.KeepSamples | internal/observer/observer.go:221-230 | the loop drops exactly the leading samples before the cutoff and keeps the last 256 |
| Observer.Scheduler.Evaluate | internal/observer/observer.go:208-245 | the evaluation in place for one key and no other, with the state and verdict of the sampling step of the schedule |
| Observer.ProbesNeverOverlap | internal/observer/observer.go:96-148 | under concurrent cycles probes of one key never overlap and start at least an interval apart in cycle time |
| Observer.ReadingsMeetSpecification | internal/observer/observer.go:96-148 | every verdict of every interleaving is the specified one for the full history of its key |

## Left out

- Cryptographic strength: injectivity of SHA-256 is assumed, and HMAC results are arbitrary.
- JSON encoding and decoding, document size limits and schema parsing: decoding is taken as the identity on valid records.
- The store's files: locking, bbolt transactions, backup, restore and migrations; a transaction is one atomic step.
- Secret redaction: `redaction.ContainsSensitive` and the redaction inside audit fields are regular expressions and are not modelled.
- Unicode: length limits count characters, and the letter classes of evidence references are not checked.
- Report contents: hypotheses, actions, texts and their validators are one opaque text with one flag; only identity, evidence, its merge with the analysis' and time are structured.
- `Dispatcher.Enqueue` without a payload is modelled in place only; the daemon itself always enqueues with a payload, and only those enqueues are in the outbox schedules.
- HTTP delivery, payload loading and TLS destinations: a reply is a 2xx answer, an unavailable payload or a failed endpoint.
- Telemetry in every component: best effort and without effect on outcomes.
- Restarts of the observer: its schedule lives in memory, so spacing is stated for one process, and in cycle times rather than wall-clock times.
- Value bounding before evaluation in the observer and the ingress: the evaluation is proved for every outcome of a sample and the ingress for every usable body, so nothing here depends on the bounded values.
- Docker, the language model, the admin socket, configuration, the CLI, evidence, incident queries and runbook loading.
- Store.Store.Reconcile: is stated for a run in isolation; its interleavings are the Reconcile, Observe and Transact labels of the recovery schedules.
- RecoveryTheorems.ApprovalGate: is stated for state sources that supply no approval of their own, as the approval source wraps them.
