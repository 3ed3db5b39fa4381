# Verified model of sms-relay

This project models the durable core of sms-relay and proves what its comments and documentation promise, or, where a
promise is not kept, exactly when it is. `dafny verify dfyconfig.toml` checks everything.

The outbound queue is a step machine (`queue.dfy`). One event is one stretch of code between two awaits, so the send loop,
the status loop, retention, receipts and any number of `POST /messages` requests interleave freely, and a crash may come
between any two events. State is the committed `messages` table plus everything that lives only in memory: the row in the
send loop's hand, rows the status loop or a receipt handler read earlier, requests between lookup and insert. Every row
carries its history (claims, publishes, SMS calls, committed outcomes, losses), and rows deleted by retention are kept as
tombs, so that "nothing is lost" and "never twice" can be said. The fan-out of inbound messages is a second machine of the
same kind (`fanout.dfy`). Theorems quantify over every reachable state and every run.

| file | contents |
|---|---|
| `prelude.dfy`, `backoff.dfy`, `stable_sort.dfy` | sums over maps, the two retry schedules, a stable sort and its uniqueness |
| `messages.dfy` | one message: its columns, what each piece of code does to them, what stays true of row and history |
| `queue.dfy`, `queue_invariant.dfy` | the queue machine and its invariant under every event |
| `queue_safety.dfy`, `queue_outcomes.dfy`, `queue_settle.dfy`, `queue_ledger.dfy`, `queue_fairness.dfy`, `queue_drain.dfy`, `queue_submit.dfy`, `queue_example.dfy` | the theorems about the queue |
| `relay.dfy` | the code of the loops and of `send_message`, in place on message objects, proved to be runs of the machine |
| `send_loop.dfy` | the send loop over many passes: no starvation, and the limiter's bound on the calls themselves |
| `limiter.dfy` | the rate limiter against the full history of its grants |
| `webhooks.dfy`, `fanout.dfy`, `fanout_safety.dfy`, `fanout_twice.dfy`, `fanout_acks.dfy`, `fanout_outcomes.dfy`, `fanout_code.dfy` | deliveries, the fan-out machine, its theorems, the code |
| `grafana.dfy`, `grafana_group.dfy`, `grafana_text.dfy`, `grafana_queue.dfy` | the Grafana webhook, its group key, reminders and bounded body |

## Where the code does not do what is written

- `app/sms_relay/models.py:49` calls terminal statuses ones "a message can never leave". A status poll or receipt that read
  the row earlier overwrites them: DELIVERED can become FAILED. Only the set of terminal statuses is closed
  (`PhaseMonotone`, `DeliveredThenFailed`, `TerminalStatusLeftIff`, `TerminalHoldsWhileUnread`).
- `app/sms_relay/worker.py:280-284` says retention keeps the table from growing. A message whose first day passes without
  a report stays SENT, and in the table, in every run that looks up no receipt for it (`DormantStaysSent`). And a receipt
  can never find it if the gateway returned no id, or an empty one, or an id that another such row has too: then it stays
  for ever, in every run (`SentSettlesIff`).
- `app/sms_relay/routes/messages.py:63` and `:69` treat an empty idempotency key as absent, but `:88` stores it: the second
  such request of a service, or one with two recipients, ends in an internal error (`SubmitAlone`).
- `app/sms_relay/webhooks.py:3-5` promises no re-delivery to services that already acked. One commit covers up to 20
  deliveries. An acknowledgement survives exactly when that commit happens with none of the batch's rows deleted meanwhile
  (`AckRememberedIff`). Otherwise acknowledged deliveries are posted again: after a crash (`AckedButLostIsPostedAgain`),
  but also without any fault, when retention deletes another message of the batch (`DeletedRowRepeatsPosts`,
  `TwoDueOneDeleted`). It can do so exactly until the batch loads its second message (`DeletesWhileUnlocked`): that load
  writes the rows changed so far and with them takes the write lock, and from then on only a fault can lose an
  acknowledgement (`LockedBatchKeepsAcks`). The excess is exactly the lost acknowledgements (`DeliveryAccounting`).
- `app/sms_relay/webhooks.py:29` and README.md line 111 speak of backoff up to an hour; with six attempts no wait exceeds
  480 seconds (`FanoutTotal`).
- `app/sms_relay/webhooks.py:55-69`: two interested subscribers of one name make every inbound commit fail
  (`FanoutCommitsIff`). Overlapping posts of one inbound event store it twice, after which every retry fails
  (`StoredTwiceIff`, `OverlapStoresTwice`).

## Assumptions

Commits are atomic and serial, with one writer at a time, unique and foreign-key constraints are enforced, clocks do not go
back, settings stay the same across restarts, new ids have never been used before. Times are integers (seconds), except in
the limiter, where they are reals. Calls to the provider, to ntfy and to subscribers end in any of the ways the code
distinguishes, or never.

## Model

| member | source | states |
|---|---|---|
| QueueInvariant.StepKeeps | app/sms_relay/worker.py:73-306 | each of the 25 kinds of event, crash included, keeps the joint invariant of table, memory and histories |
| QueueSafety.PhaseMonotone | app/sms_relay/models.py:49-51 | over every run no message goes back from sent to waiting or from terminal to anything else; a deleted message was terminal |
| QueueExample.DeliveredThenFailed | app/sms_relay/models.py:49-51 | under every configuration some run from the empty table takes a message from DELIVERED to FAILED |
| QueueSafety.TerminalStatusNotAbsorbing | app/sms_relay/worker.py:206-227 | from every state with no poll under way and a row the status loop would follow whose id is non-empty and its own, poll, receipt and late commit leave it FAILED after DELIVERED |
| QueueSafety.TerminalStatusLeftIff | app/sms_relay/routes/inbound.py:129-140 | in every reachable state an event changes a terminal status if and only if it is a poll commit or receipt commit acting on an older read with a different status |
| QueueSafety.TerminalHoldsWhileUnread | app/sms_relay/worker.py:220-227 | a terminal row nobody has in memory stays exactly as it is over every run without a new receipt lookup for it, until retention deletes it unchanged |
| QueueSettle.DormantStaysSent | app/sms_relay/worker.py:204-216 | a SENT row in nobody's memory that the status loop no longer follows stays SENT and in the table over every run without a receipt lookup for it |
| QueueSettle.SentSettlesIff | app/sms_relay/routes/inbound.py:123-140 | in every reachable state, when nobody has a SENT row or another row with its id in memory, it can become terminal if and only if the status loop follows it, or it has a non-empty id and every other row with that id is terminal or followed; otherwise it is unchanged over every run |
| QueueSafety.OnlySendLoopTouchesPending | app/sms_relay/worker.py:96-185 | over any run of the other tasks a QUEUED or SENDING row, its history and the send loop's memory are untouched |
| QueueSafety.Ownership | app/sms_relay/worker.py:121-185 | a pending row has no provider id and cannot be polled or pruned; the committed row equals what the loop loaded at every await and the loop's copy until an answer is assigned to it; its commit leaves exactly that copy |
| QueueOutcomes.ErrorOutcome | app/sms_relay/worker.py:157-171 | whatever runs meanwhile, an error after n attempts leaves the row FAILED if and only if it is permanent or n + 1 reaches max_attempts, and otherwise QUEUED, due exactly min(30 * 2^n, 900) seconds after the answer |
| QueueOutcomes.AcceptOutcome | app/sms_relay/worker.py:179-185 | an accepted message is left SENT with the gateway's id, and is followed by the status loop for exactly a day from the answer if it has one |
| QueueOutcomes.PublishOutcome | app/sms_relay/worker.py:146-151 | a published message is left PUBLISHED under the id ntfy:receipt, no attempt counted |
| QueueOutcomes.FallbackOutcome | app/sms_relay/worker.py:139-145 | a failed publish leaves only the transport changed, to sms-fallback, with the message still in hand |
| QueueOutcomes.PollOutcome | app/sms_relay/worker.py:202-227 | a poll's commit writes exactly the reported statuses of rows that were SENT with an id less than a day before the read, or nothing if one of them is gone |
| QueueOutcomes.ReceiptOutcome | app/sms_relay/routes/inbound.py:129-140 | a receipt makes the row it loaded DELIVERED unless it was so already, and no other row changes |
| QueueOutcomes.RetentionIsExact | app/sms_relay/worker.py:291-299 | a prune deletes a message if and only if it is DELIVERED, FAILED, RECEIVED or PUBLISHED and older than the retention period |
| QueueSafety.HeldChangesOnlyByItsCommit | app/sms_relay/worker.py:126-185 | over every run, sweeps with any threshold included, the message in hand stays in hand and its row as loaded until the loop itself commits or lets go |
| QueueSafety.OneWayChannel | app/sms_relay/worker.py:136-156 | publishes, then at most one committed fallback, then SMS calls; a routed message has its fallback on record before its first SMS call; PUBLISHED means no SMS call was made |
| QueueSafety.DuplicateAccounting | app/sms_relay/worker.py:154-190 | SMS calls are exactly committed attempts plus losses plus the one in flight; at most one committed success, so calls that were not committed errors number at most one plus the losses; ntfy calls are exactly publications, fallbacks, losses and the one in flight, so at most one plus the losses |
| QueueSafety.AttemptsAndClaimsBounded | app/sms_relay/worker.py:157-171 | attempts never exceed max(1, max_attempts), pending rows have some left, and claims are at most that limit plus the faults |
| QueueSafety.RetrySpacing | app/sms_relay/worker.py:41-47 | even across crashes, a claim after the i-th committed failure, and the next failure, come at least backoff(i) later |
| QueueSafety.ExhaustionTakesTheSchedule | app/sms_relay/worker.py:157-171 | from first to last failure an exhausted message spends at least 30(2^n - 1) seconds for n <= 5 waits and 930 + 900(n - 5) beyond |
| QueueLedger.Conservation | app/sms_relay/worker.py:291-299 | in every reachable state the ids accepted by replies, each in one place of one reply, are exactly the outbound messages present or, disjointly, pruned; whatever was pruned was terminal and past retention at that moment; replies only grow |
| QueueSafety.OrphanStays | app/sms_relay/worker.py:73-93 | over every run, passes of the send loop over other messages and further crashes included, an orphaned SENDING row is unchanged until a sweep looks at the clock past the threshold |
| QueueSafety.OrphanStaysUntilThreshold | app/sms_relay/worker.py:73-93 | in particular over every run that ends before the clock passes the threshold |
| QueueSafety.SendingSinceClaim | app/sms_relay/worker.py:115-117 | in every reachable state a SENDING row carries the time of its last claim, or a later one if a fallback was committed since |
| QueueSafety.OrphanStaysSinceClaim | app/sms_relay/worker.py:73-93 | the threshold runs from the claim: an orphan is unchanged over every run whose sweeps look no later than stuck_after past its last claim |
| QueueSafety.CrashRecovery | app/sms_relay/worker.py:73-93 | after a crash at any point and any run whatever, the first sweep that looks later than stuck_after past the last claim (or the fallback since) makes an orphan due with attempts, transport and history unchanged |
| QueueFairness.BoundedWaiting | app/sms_relay/worker.py:96-118 | over every run that does not claim a due message, it stays due and the claims made are at most the attempts left to older pending messages plus the faults |
| QueueFairness.PotentialAtMost | app/sms_relay/worker.py:157-171 | that number is at most the attempt limit times the number of older pending messages |
| QueueFairness.NeverIdleWhileDue | app/sms_relay/worker.py:99-113 | with a message due the loop cannot take its idle branch and some oldest due message can be claimed |
| QueueDrain.QueueDrains | app/sms_relay/worker.py:136-185 | over every run without new submissions, the claims made plus those still possible are at most those possible at the start plus the faults |
| QueueDrain.RemainingAtMost | app/sms_relay/worker.py:157-171 | the claims possible are at most the attempt limit times the number of waiting messages |
| QueueDrain.DrainedIff | app/sms_relay/worker.py:96-118 | between passes no claim remains possible if and only if no message is waiting |
| QueueSubmit.IdempotentUnderRaces | app/sms_relay/routes/messages.py:69-110 | in every reachable state all successful replies for a service and non-empty key name one message, the only row with that key, unless retention deleted one |
| QueueSubmit.KeyedRequestFailsOnlyAfterPrune | app/sms_relay/routes/messages.py:100-110 | in every reachable state a request with a non-empty key has failed internally only if a row with its key has been deleted |
| QueueSubmit.RaceLoserGetsWinner | app/sms_relay/routes/messages.py:98-110 | the loser of an insert race is answered with the winner's id, whatever runs in between except retention and a crash |
| QueueSubmit.AllRecipientsOrNone | app/sms_relay/routes/messages.py:79-99 | an insert adds one due row per recipient, on ntfy exactly when it has a topic, or changes nothing |
| QueueSubmit.AllRecipientsKept | app/sms_relay/routes/messages.py:79-99 | over every run after an insert, every recipient still has its row with its own topic, or had it pruned as terminal |
| QueueSubmit.SubmitAlone | app/sms_relay/routes/messages.py:51-118 | the outcome of an undisturbed request as a function of key, number of recipients and whether the key is taken, with the empty-key failures |
| Relay.System.Iterate | app/sms_relay/worker.py:126-190 | one pass of the send loop, with other tasks at every await and an exception at any call or commit, is a run of the machine whose own events are exactly sweep, claim, ntfy first when routed, then SMS, up to the exception; it claims unless nothing is due or it is broken off, and calls the provider at the time the limiter grants |
| Relay.System.RequeueStuck | app/sms_relay/worker.py:73-93 | the sweep in place on message objects does what the machine's sweep does |
| Relay.System.OldestDueMessage | app/sms_relay/worker.py:98-110 | finds a due message no due message is older than, or none when none is due |
| Relay.System.ClaimNext | app/sms_relay/worker.py:96-118 | the claim leaves the loop holding an object equal to the committed row, which is the row as it was but SENDING and carrying the time of the claim's read |
| Relay.System.CommitMessage | app/sms_relay/worker.py:142-185 | writing only the changed columns to the row as it is now leaves exactly the object in the table |
| Relay.System.PublishFirst | app/sms_relay/worker.py:136-152 | the ntfy branch ends the pass unless publishing failed, and then the fallback is committed and the message still held |
| Relay.System.SettleNtfy | app/sms_relay/worker.py:138-151 | ntfy's answer leaves the row published or fallen back as above, and an exception leaves it untouched |
| Relay.System.SendSms | app/sms_relay/worker.py:154-185 | the SMS branch waits for the limiter, makes one call at the granted time, and leaves the committed row as accepted, given up or due again by the rules above, or untouched by an exception |
| SendLoop.Loop | app/sms_relay/worker.py:121-190 | over any number of passes of one process life: every message due at the start is claimed once the passes outnumber the attempts left to older pending messages plus the passes broken off by a call or commit that raises; and no half-open minute holds more provider calls than max(1, per_minute) |
| Relay.System.PollStatuses | app/sms_relay/worker.py:198-227 | one poll is a read, anything else, then one commit, after which exactly the rows with news have the reported status and every other row is as before, or nothing changed if one was deleted |
| Relay.System.ApplyReceipt | app/sms_relay/routes/inbound.py:123-140 | a receipt acts on the one row with its non-empty id and on nothing when there is none or several |
| Relay.System.SendMessage | app/sms_relay/routes/messages.py:51-118 | the handler is a run of the machine and ends by answering its own request |
| Relay.System.BuildRows | app/sms_relay/routes/messages.py:79-95 | the loop over recipients builds exactly the rows the insert adds |
| Backoff.SecondsMonotoneAndCapped | app/sms_relay/worker.py:41-43 | backoff starts at 30 seconds, never shrinks and never passes its cap |
| Backoff.SendTotalClosedForm | app/sms_relay/worker.py:41-43 | closed form of the total wait of n failures |
| Backoff.FanoutTotal | app/sms_relay/webhooks.py:25-30 | the waits of a delivery add up to at most 930 seconds and none reaches the hour cap |
| Limiter.RateLimiter.Purge | app/sms_relay/worker.py:65-66 | after dropping expired entries the deque is exactly the grants still in the window |
| Limiter.RateLimiter.Acquire | app/sms_relay/worker.py:62-70 | grants at a time when fewer than the limit are recent, sleeps at most once, if and only if the limit was used up, and then exactly until the oldest grant leaves the minute but no less than a tenth of a second |
| Limiter.GrantAllowedIff | app/sms_relay/worker.py:67-69 | a grant keeps any n-th next grant a minute away if and only if fewer than n grants are recent |
| Limiter.NoWindowOverfull | app/sms_relay/worker.py:50-56 | paced grants never exceed the limit in any half-open minute |
| Limiter.LimiterNeverOverfull | app/sms_relay/worker.py:50-70 | no half-open minute of a limiter's life holds more grants than max(1, per_minute) |
| Webhooks.EnqueueFanout | app/sms_relay/webhooks.py:37-70 | adds one pending row per interested subscriber without one, in order, and counts them |
| Webhooks.FanoutCommitsIff | app/sms_relay/webhooks.py:55-69 | the rows satisfy the unique constraint if and only if interested subscribers have distinct names |
| Webhooks.DeliveryRow.Deliver | app/sms_relay/webhooks.py:96-139 | one call, after which the delivery is delivered if and only if the answer is a code below 300, else failed if and only if it was the sixth attempt, else waiting 30 * 2^attempts seconds; or cancelled without a call |
| FanoutOutcomes.BatchOutcome | app/sms_relay/worker.py:266-272 | a batch in which nothing is deleted and nothing fails leaves every delivery as its own answer says by those rules, and no other changed |
| FanoutOutcomes.BatchIsOldestTwenty | app/sms_relay/worker.py:248-261 | a batch takes as many of the due deliveries as there are, at most 20, and the oldest |
| FanoutOutcomes.BatchExists | app/sms_relay/worker.py:248-261 | whenever a delivery is due there is a batch to take |
| FanoutOutcomes.StoredIsDue | app/sms_relay/webhooks.py:55-69 | storing a message adds one delivery per interested subscriber, untried and due at once, and changes no other |
| FanoutOutcomes.LookupOutcome | app/sms_relay/routes/inbound.py:84-98 | a lookup lets the request go on, answers with the one stored message, or fails, as none, one or several carry the id |
| Fanout.StepKeeps | app/sms_relay/worker.py:242-277 | every event of inbound, fan-out and retention, faults included, keeps the invariant of deliveries, batch and histories |
| FanoutSafety.ExactlyOneDelivery | app/sms_relay/models.py:110-131 | every stored message has exactly one delivery per interested subscriber, and no delivery lacks its message |
| FanoutSafety.DeliveryAccounting | app/sms_relay/webhooks.py:117-139 | calls are committed attempts, the present batch or losses; at most six attempts; acknowledgements are the committed one, the one in the present batch and the lost ones; giving up takes six failures over at least 930 seconds |
| FanoutSafety.SettledNeverPostedAgain | app/sms_relay/worker.py:246-257 | a committed delivered, failed or cancelled delivery is never posted or changed again in any run |
| FanoutAcks.AckRememberedIff | app/sms_relay/worker.py:266-277 | in every reachable state and for every next event, an acknowledgement in memory becomes the committed status if and only if the finished batch commits with none of its rows deleted; otherwise the delivery waits as before |
| FanoutAcks.AckedButLostIsPostedAgain | app/sms_relay/worker.py:266-277 | for every batch, every delivery of it and every later point, dying there after its acknowledgement leads to a second acknowledged post |
| FanoutAcks.DeletesWhileUnlocked | app/sms_relay/worker.py:266-272 | after any turns of a batch, retention can delete a message if and only if the batch has loaded but one message |
| FanoutAcks.DoomedBatchIsLost | app/sms_relay/worker.py:266-277 | once a row of the batch has been deleted, whatever the answers in the remaining turns, no row changes and every acknowledgement in memory is lost |
| FanoutAcks.LockedBatchKeepsAcks | app/sms_relay/worker.py:266-272 | once a second message is loaded with no row missing, over every run without a fault an acknowledgement stays in memory until it is committed |
| FanoutAcks.DeletedRowRepeatsPosts | app/sms_relay/worker.py:266-277 | without any fault, if a message is deleted after any turns that loaded but one message, every delivery of another message acknowledged by then is posted again by the next batch that selects it |
| FanoutAcks.TwoDueOneDeleted | app/sms_relay/worker.py:291-299 | that happens from every reachable state in which exactly two deliveries, of different messages, are due, with the deletion while the first is posted |
| FanoutSafety.RetriesYieldOneMessage | app/sms_relay/routes/inbound.py:84-112 | if posts of one event do not overlap, all successful answers for its id name one message, the only one stored, unless retention deleted one |
| FanoutTwice.StoredTwiceIff | app/sms_relay/routes/inbound.py:84-112 | over every run from the empty tables, an id is at some moment stored twice if and only if two requests for it each looked it up and missed, waited at the same time, and both inserted, the first one's message still stored when the second did |
| FanoutTwice.OverlapStoresTwice | app/sms_relay/routes/inbound.py:84-112 | from any state in which two requests for one id wait to insert, inserting both stores it twice, and every further lookup is answered with an internal error |
| FanoutCode.Service.Receive | app/sms_relay/routes/inbound.py:84-120 | a known event changes nothing but the replies; a new one is stored if and only if its deliveries can be and the fan-out batch does not hold the write lock |
| FanoutCode.Service.FanOutOnce | app/sms_relay/worker.py:242-272 | one pass reads, gives each due delivery its turn in order and commits, or is abandoned at the write before a load that finds a row deleted, as a run of the machine |
| Grafana.Handle | app/sms_relay/routes/grafana.py:33-83 | the handler's loops compute the notification specified by Notify, sorted by priority and whole identity, or nothing |
| Grafana.Fill | app/sms_relay/routes/grafana.py:74-81 | the loop takes lines while they fit and reports how many it left out |
| GrafanaGroup.OneNotificationIffAllValid | app/sms_relay/routes/grafana.py:36-54 | a payload yields its one notification if and only if it has 1 to 100 alerts, all valid field by field |
| GrafanaGroup.ParsedIffValid | app/sms_relay/routes/grafana.py:41-54 | each valid alert is parsed into its own fields, the summary defaulting to the name |
| GrafanaGroup.PriorityOfGroup | app/sms_relay/routes/grafana.py:67-82 | the notification has priority 4 exactly with a critical firing alert, else 3 with any critical or firing one, else 1 |
| GrafanaGroup.NotifyOrderIndependent | app/sms_relay/routes/grafana.py:70-83 | every rearrangement of every payload is accepted or refused alike, with the same key and the same priority |
| GrafanaGroup.KeyOrderIndependent | app/sms_relay/routes/grafana.py:70-73 | two groups with the same identities and priorities, equally often, have the same key, whatever their order and texts |
| GrafanaGroup.KeyIsExact | app/sms_relay/routes/grafana.py:73-73 | equal keys mean equal multisets of fingerprint, start, state and reminder window |
| GrafanaGroup.SameKeyIffSameIncidents | app/sms_relay/routes/grafana.py:70-73 | when no alert changes severity, keys are equal if and only if those multisets are |
| GrafanaGroup.ListOrderIndependentIff | app/sms_relay/routes/grafana.py:70-76 | the sorted list of texts is independent of payload order if and only if entries with equal identity and priority have equal texts |
| GrafanaGroup.BodyOrderIndependent | app/sms_relay/routes/grafana.py:74-81 | so is the body whenever entries with equal identity and priority have equal texts |
| GrafanaGroup.RepostKeyIff | app/sms_relay/routes/grafana.py:55-56 | re-posting the same alerts later gives the same key if and only if no firing alert has passed a positive multiple of 14400 seconds since its own start |
| GrafanaGroup.RemindedWithinFourHours | app/sms_relay/routes/grafana.py:55-56 | a re-post at least 14400 seconds later of a group with a firing alert that had started has a new key |
| GrafanaGroup.KeyNeverReturns | app/sms_relay/routes/grafana.py:55-56 | at nondecreasing times a changed key never comes back |
| GrafanaGroup.ReminderBound | app/sms_relay/routes/grafana.py:55-73 | over a span L with k firing alerts at most 1 + k(floor(L/14400) + 1) keys are used |
| GrafanaGroup.BodyFits | app/sms_relay/routes/grafana.py:66-83 | for 1 to 100 alerts: 1 to 3836 characters, at least two shown, as many as fit, no omitted alert outranks a shown one, the message's priority is the first one's and the group's highest |
| GrafanaText.BodySays | app/sms_relay/routes/grafana.py:74-81 | the body is the shown texts, and a note exactly when alerts are left out, whose number and the shown ones make up all |
| GrafanaText.JoinFront | app/sms_relay/routes/grafana.py:79-79 | the shown texts follow one another with a blank line between them |
| GrafanaText.EntryShows | app/sms_relay/routes/grafana.py:69-69 | an entry shows its alert's text up to 1800 characters under the alert's own fingerprint, start and state |
| GrafanaText.TextBegins | app/sms_relay/routes/grafana.py:62-66 | a text begins with state, name and summary; a recovery does not depend on the firing summary |
| GrafanaText.IdentifiersIncluded | app/sms_relay/routes/grafana.py:57-66 | app, checks and the other main labels are in the text as name=value whenever they are not empty |
| GrafanaText.GroupInOrder | app/sms_relay/routes/grafana.py:70-70 | the group is listed by falling priority, then by fingerprint, start, state and window in dictionary order |
| GrafanaQueue.ReminderRowsBounded | app/sms_relay/routes/grafana.py:69-86 | in every reachable queue state the rows one re-posted group has in the table, and those created for it within the last retention period even if deleted since, are at most that many |
| StableSort.StableSortIsSort | app/sms_relay/routes/grafana.py:70-70 | any sorted arrangement that keeps the order within each class is the sort the model computes |

## Left out

- Queue.Step: message bodies, recipients, error texts and notification priority are not columns of the model; the send path copies them unchanged.
- Queue.InboundStep: inbound rows enter the queue machine with arbitrary provider ids; their deduplication and deliveries are in the fan-out machine.
- Fanout.Flushes: a write of the batch that cannot get the lock itself is one of the faults, and how long others wait for it is not modelled.
- Fanout.PruneStep: deletes any set of messages; which ones retention may delete is in the queue machine.
- Limiter.RateLimiter.Acquire: the clock's sleep is never shorter than requested, and only the send loop calls it.
- SendLoop.Loop: every process life has a limiter of its own, so a minute that spans a restart is not covered.
- Relay.System.SendMessage: phone normalisation and topic selection are inputs, already resolved to one optional topic per recipient.
- Grafana.Handle: label values are strings, timestamps with a zone are parsed by a given function, times are whole seconds and one clock reading serves the whole payload; streaming, size limit and credentials are not modelled.
- GrafanaGroup.BodyOrderIndependent: one direction, because differing twins may both be among the omitted entries; the full list has both directions.
- GrafanaQueue.ReminderRowsBounded: a row deleted by retention may be created again by a later post, so rows older than the retention period are not counted together with present ones.
- GrafanaGroup.KeyIsExact: the key is the list of identities before JSON encoding and SHA-256, which are taken to be injective; GrafanaQueue.ReminderRowsBounded needs no such assumption.
- FanoutCode.Service.FanOutOnce: the selection of the 20 oldest due rows is the query's and is given as an input that satisfies it; payload encoding and signatures are not modelled.
- Field extraction of inbound events, listing and reading messages, health, metrics, configuration, authentication, database pragmas and migration: input and output, or immediate.
- Two processes at once: the deployment runs one replica.
