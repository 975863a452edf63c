# WhaleWatch, proved

WhaleWatch reads the 13F filings of investment managers, publishes what they hold and what they changed, and sells
accounts that follow them. These modules model the parts of it that keep state between requests, jobs and webhooks, or
that define a published number, and prove what holds of them over every run and every input.

Where the program changes rows in place, a class changes the same fields in the same order and each method is proved
equal to a function on the tables; the theorems are about those functions, over any sequence of steps. Where the
program is an expression, a view or a template, the model is one too. A transaction is one atomic step.

| files | what they model |
|---|---|
| `Billing`, `BillingService` | Paddle's webhooks mirrored into subscription rows, the dunning of a failed renewal, the cancellation of deleted accounts' subscriptions |
| `BillingEffects` | what each of those transactions writes, column by column and email by email |
| `BillingInvariants`, `BillingDunning`, `BillingConfluence` | what every run of those keeps, the emails of one payment failure, and convergence under reordering and repetition |
| `Delivery`, `DeliveryService`, `DeliveryEffects`, `DeliveryProofs` | the courier's two transactions and the hand-over between them, the provider's webhooks, the suppression list |
| `EmailLists` | mailing lists and leaving them, and the list an alert email is sent on |
| `EmailLayout`, `EmailLayoutProofs` | one message as HTML and as text, with a scanner that reads the HTML back |
| `Entitlements`, `EntitlementsService` | what a plan, an override or a cached grant allows, and the process's catalog of plans |
| `Overrides`, `BillingEntitlements` | overrides given and ended by admins, and what the billing tables grant after any run |
| `AlertRules`, `AlertRulesEffects`, `AlertRulesProofs` | following and unfollowing under two caps |
| `EffectiveFiling` | which filings of a quarter count once amended, and which of a filer's CIKs |
| `PositionChange`, `Flows`, `TopPositions`, `YearFlows`, `Sums` | the changes between two published portfolios and the views that add them up |
| `Paddle`, `PaddleNumbers` | the signature header of a webhook, written and read |
| `AdminLog` | the append-only log and its paging |
| `Activity`, `ApiKeys` | throttled marking of use, the days an account was active, API keys made, found and revoked, through an account's deletion and restoring |

## What the code does not do

Proving these turned up inputs on which the code does something other than its documentation says, or than a reader of
it would expect. The model follows the code. Each is stated with the exact condition and with an input.

* `app/accounts/billing.py:44-45` says a later payment ends a dunning. By lines 309-323 it does so only if the row said
  `past_due` just before (`PaidEndsDunningIff`). When a renewal fails and recovers and its `past_due` event arrives
  after its `active` one, the account stays dunned (`DunningDependsOnOrder` is the input, `StuckForGood` any run of
  later paid events), and so has Free's entitlements from the grace's end though its row says it is paid
  (`PaidButFree`).
* Cancelling a deleted account's subscription leaves a past-due row with no dunning exactly when Paddle answers the
  cancellation with `past_due` (`CancelLeavesPastDueUndunned`; `PastDueAnswerLeavesUndunned` is the input).
* A message's final status depends on the order its answer and webhooks came in exactly when one is the provider's stop
  and another a webhook (`OrderMattersIff`; `StopRunsDependOnOrder` is the two orders, as they run, of any message
  handed over).
* The dollars traded are wrong exactly for a split position still listed at no shares (`RowDecomposesIff`;
  `MixedPricesOvervalueTheTrade` is the input).
* A right `h1` is not reached exactly when one before it has a character beyond ASCII, since comparing that one raises
  (`HeaderAcceptedIff`; `RightH1MayNotBeReached` is the input). And a `ts` so long ago that no float holds it is not
  refused as too old, but raises as its age is put into words (`SignedIsAcceptedIff`).
* Deleting an account ends the keys it has, and a restore brings back none of those (`app/accounts/privacy.py:226-227`).
  It does bring back keys made since the deletion and not revoked since (`RestoredWithKeysMadeSince`), and one can be
  made: the transaction that makes a key does not look at `deleted_at`, and a deletion can commit between it and the one
  that found the session (`KeyMadeOnceDeleted` is the input, of any account). So it is revoking a key, and not deleting
  its account, that stops it for good (`LetsInNothingIffRevoked`).
* Unfollowing and following again does not always turn on what following had: under a limit the rules on filings come
  first the second time too (`FollowAgainIff`; `FollowAgainMayDiffer` is the input).

Two more hold of the tables alone, and the program's own writes never bring them about. Two overlapping overrides would
make a kept grant and the rows disagree (`CachedOverrideIff`, `OverlappingOverridesDisagree`), but an admin's changes
never leave two (`EveryRunKeepsOne`, `KeptGrantNeverDiffers`). A rule listing email twice and nothing else would refuse
to be left (`LeavingRefusedIff`), but no rule is written with a channel twice (`LeavingIsNotRefused`,
`EveryListCanBeLeft`).

## Model

| member | source | states |
|---|---|---|
| BillingService.Service.Webhook | app/api/routers/billing.py:298-330 | A webhook request ends with the whole of what its event does committed and answered, or with every table as it was and the problem answered |
| BillingService.Service.Handle | app/accounts/billing.py:138-179 | The event is claimed once by its id; a repeat is ignored; the row of the log says what came of it |
| BillingService.Service.ApplySubscriptionEvent | app/accounts/billing.py:226-325 | Every branch of a subscription event: no entity, stale, unknown status, unsold price, no such plan, unmatched owner, a second live subscription, an unreadable time, or the row rewritten |
| BillingService.Service.Rewrite | app/accounts/billing.py:289-307 | Field by field, exactly the columns the event mirrors are rewritten, and none of the dunning's |
| BillingService.Service.FollowStatus | app/accounts/billing.py:309-323 | The rewritten status starts, keeps or ends the dunning, with the email that goes with it |
| BillingService.Service.EndSnapshot | app/accounts/billing.py:328-345 | Grandfathering to a snapshot ends exactly when the new plan is not the one the snapshot is of |
| BillingService.Service.StartDunning | app/accounts/billing.py:383-400 | The grace ends the configured days after the failure; a deleted owner is dunned but neither mailed nor claimed |
| BillingService.Service.EndDunning | app/accounts/billing.py:403-405 | No dunning column is set after, and every other column is as it was |
| BillingService.Service.ApplyFailedPayment | app/accounts/billing.py:351-373 | Only a renewal's failure of a live row not yet dunned starts a dunning |
| BillingService.Service.Dun | app/accounts/billing.py:414-470 | Both claims of the hourly job, and the mail of each to the owners that may be mailed |
| BillingService.Service.Write | app/accounts/billing.py:473-482 | The recipients of one kind of dunning email, in row order |
| BillingService.Service.Cancel | app/accounts/billing.py:498-549 | Each billable subscription of a deleted account is cancelled and Paddle's answers mirrored, or nothing is when the table refuses one of the UPDATEs |
| BillingService.Service.Flush | app/accounts/billing.py:548 | The flush passes exactly when the unique index holds after each row is written, and not only after the last |
| BillingService.SameRecipients | app/accounts/billing.py:473-482 | Claiming dunning steps changes neither who is written to nor whether they may be |
| BillingEffects.StatusReadsBack | app/accounts/billing.py:239-242 | A status is read from the name Paddle has for it and from no other |
| BillingEffects.EventRewritesRow | app/accounts/billing.py:226-325 | An event that can be read, not older than its row and giving no second live subscription, rewrites that row and no other: every column it speaks of as it says, every other as it was, the dunning as the status has it |
| BillingEffects.EventAddsRow | app/accounts/billing.py:253-325 | One of a subscription with no row adds one, of the account it names or the last payer, dated from its start, column by column |
| BillingEffects.OlderIsStale | app/accounts/billing.py:231-236 | An event older than its row changes no subscription and is logged as stale |
| BillingEffects.UnknownIsRefused | app/accounts/billing.py:226-250 | An event of no subscription, or whose status, price or plan nobody knows, is refused as such, in that order |
| BillingEffects.NobodysIsUnmatched | app/accounts/billing.py:252-262 | A new one that nobody owns is logged as unmatched and changes no subscription |
| BillingEffects.UnfitIsRefused | app/accounts/billing.py:269-307 | A new one is refused for a second live subscription, else for a time that cannot be read |
| BillingEffects.UnfitRowIsRefused | app/accounts/billing.py:269-307 | And so one of a row there is |
| BillingEffects.FailedRenewalDuns | app/accounts/billing.py:351-373 | A failed renewal starts a dunning exactly when it is not older than the row, the row is live and it is not dunned, and changes nothing else |
| BillingEffects.OtherEventsChangeNothing | app/accounts/billing.py:155-162 | A payment of anything else, or of no row, and an event of any other type change no subscription |
| BillingEffects.RecoveryIsMailed | app/accounts/billing.py:314-321 | A past-due, dunned row that an event says is paid is dunned no more, and payment_recovered is written to its owner exactly when something had been claimed and the owner may be written to |
| BillingEffects.FailureIsMailed | app/accounts/billing.py:383-400 | Whichever event starts a dunning, payment_failed is written to the owner, and claimed, exactly when the owner may be written to, and the grace ends the configured days after it |
| BillingEffects.WebhookMailsNothingElse | app/accounts/billing.py:226-373 | A webhook writes no other email |
| BillingEffects.JobDoesRow | app/accounts/billing.py:414-482 | One run of the job claims of each row exactly what its dates and its claim call for, writes nothing else of it, and mails exactly that |
| BillingEffects.JobCounts | app/accounts/billing.py:418-470 | Its two counts are of the rows it claimed |
| BillingEffects.JobMailInOrder | app/accounts/billing.py:450-482 | Reminders are written before downgrades, each in the order of the rows |
| BillingEffects.EveryRunTells | app/accounts/billing.py:36-50 | Over every run the emails written about each subscription are exactly those owed, in order: one for each claim and each recovery of a claimed dunning made while the owner may be written to |
| BillingEffects.CancelDoesRow | app/accounts/billing.py:498-549 | A cancellation rewrites exactly the rows of deleted accounts that may still be charged and that Paddle answered, as it answered, their end and dunning gone |
| BillingEffects.CancelRefusedIff | app/accounts/billing.py:516-549 | It is refused exactly for a status there is not, or when some row on the way gives an account two live subscriptions |
| BillingInvariants.SubscriptionApplied | app/accounts/billing.py:226-325 | An applied event writes one row, of its Paddle id, keeps its owner and its running grace, and leaves it alone live for its user |
| BillingInvariants.FirstSoldIsFirst | app/accounts/billing.py:218-250 | A subscription is of the plan of its first item that is sold, and of none exactly when none is |
| BillingInvariants.OwnerIsNamedOrPaidLast | app/accounts/billing.py:196-215 | A new subscription belongs to the account it names, else to whoever last paid as its customer, and to nobody exactly when neither is known |
| BillingInvariants.InvKept | app/accounts/billing.py:138-549 | Every step, of any kind, keeps the invariant of the tables |
| BillingInvariants.EveryRunKeepsInv | app/accounts/billing.py:138-549 | In every reachable database: at most one live subscription per user, a grace exactly the configured days after its failure, a dunning only while live, a claim only while dunned, no snapshot of another plan |
| BillingInvariants.OwnersAndGraceKept | app/accounts/billing.py:256-325 | No step changes a row's owner or Paddle id, or moves the grace of a running dunning |
| BillingInvariants.EveryRunKeepsOwners | app/accounts/billing.py:256-267 | Over every run a row keeps its owner and its Paddle id, and no row is lost |
| BillingInvariants.GraceStandsWhileDunned | app/accounts/billing.py:383-400 | Through any run in which a row stays dunned, its failure and its grace's end are those it started with |
| BillingInvariants.EveryRunDunsPastDueIff | app/accounts/billing.py:309-323 | All along a run every past-due row is dunned if and only if no cancellation in it is answered past_due for a row it cancels |
| BillingInvariants.CancelLeavesPastDueUndunned | app/accounts/billing.py:498-549 | A cancellation leaves a past-due row undunned exactly when Paddle answers it with past_due |
| BillingInvariants.PastDueAnswerLeavesUndunned | app/accounts/billing.py:536-540 | One active subscription, of an account since deleted, and that answer |
| BillingInvariants.CancelledIsDone | app/accounts/billing.py:498-549 | Once Paddle has said each is cancelled, no deleted account has a subscription still billing, every other row is as it was, and cancelling again does nothing |
| BillingInvariants.MailGoesToLiveOwners | app/accounts/billing.py:379-482 | No dunning email is written to an account deleted by then, or to anyone but the row's owner |
| BillingInvariants.RepeatsAndFailuresChangeNothing | app/accounts/billing.py:138-179 | An event that cannot be applied changes nothing and stays unclaimed; one that was answered is claimed for good, so after any run any delivery under its id changes nothing and is answered as a duplicate |
| BillingDunning.EveryEpisodeInOrder | app/accounts/billing.py:36-50 | Over every run the emails of each payment failure are a subsequence of failed, ending, downgraded, recovered, none before the last without its claim, and the downgrade is claimed in exactly the failures the job saw past their grace |
| BillingDunning.OnceEach | app/accounts/billing.py:36-50 | Each email of a failure goes at most once, a recovery closes it, and the downgrade is claimed once if the job saw it overdue and never otherwise |
| BillingDunning.JobClaimsDowngrade | app/accounts/billing.py:414-470 | The job run at or after the grace's end leaves the row claimed downgraded, mailed only if it was not already |
| BillingDunning.JobRemindsInItsDays | app/accounts/billing.py:414-470 | The job leaves a grace alone until the reminder's days before its end, and from then has claimed the reminder, mailing it once |
| BillingDunning.StepMoves | app/accounts/billing.py:309-470 | Each step leaves a row's dunning as it was, starts it, claims one later email of it, or ends it |
| BillingDunning.RowDuns | app/accounts/billing.py:414-470 | One run of the job claims at most one of the two emails for a row |
| BillingConfluence.Confluence | app/accounts/billing.py:226-307 | Any delivery of a set of events, in any order with any repeats, other types' and other subscriptions' events, job runs and deletions between them, leaves plan, status, period end, cancellation date and event time as the newest says, while no other subscription of the account is live |
| BillingConfluence.MirrorsNewest | app/accounts/billing.py:234-307 | Over every run a row mirrors the newest event accepted for it, the last to arrive among equals |
| BillingConfluence.RunAcceptsAll | app/accounts/billing.py:138-325 | Of a set of events nothing stands in the way of, a run accepts exactly those delivered |
| BillingConfluence.StepMirrors | app/accounts/billing.py:234-307 | A step moves a row's mirror to the event it accepts unless that is older, and no other step touches it |
| BillingConfluence.PaidEndsDunningIff | app/accounts/billing.py:309-323 | An applied event that pays ends the dunning if and only if the row said past_due before it |
| BillingConfluence.StuckForGood | app/accounts/billing.py:309-323 | A dunned row that says it is paid stays dunned, to the same grace, whatever later events say it is paid |
| BillingConfluence.DunningDependsOnOrder | app/accounts/billing.py:309-323 | Four events, two swapped: the mirrors agree, and one account is still dunned for a renewal it paid |
| DeliveryService.Post.SuppressAddress | app/accounts/delivery.py:99-121 | A suppression only widens, and brings its reason only when it does |
| DeliveryService.Post.LiftAddress | app/accounts/delivery.py:124-133 | A broadcast lift removes a broadcast suppression only; any other removes whatever there is |
| DeliveryService.Post.OpenSend | app/accounts/delivery.py:171-186 | The first transaction logs the message as sending, or as suppressed with the refusal, and only the first is to go to the provider |
| DeliveryService.Post.HandToProvider | app/accounts/delivery.py:187-191 | The message goes to the provider as it was checked, and nothing else of the tables changes |
| DeliveryService.Post.CloseSend | app/accounts/delivery.py:194-222 | The second writes the provider's answer over sending and nothing else, and the provider's id only where there was none |
| DeliveryService.Post.Send | app/accounts/delivery.py:156-222 | One whole send is the two transactions with the hand-over between them, with the status it reports |
| DeliveryService.Post.RecordEvent | app/accounts/delivery.py:278-318 | A webhook moves the row it names up in rank or leaves it, then suppresses or lifts its recipient, or fails whole |
| DeliveryProofs.EveryRunIsOnward | app/accounts/delivery.py:171-318 | In every interleaving no message falls in rank, a provider's id once written never changes, and no two messages share one |
| DeliveryProofs.RowIsItsVerdict | app/accounts/delivery.py:171-318 | A row is always where the history of its answer and webhooks says, in whatever order they came |
| DeliveryProofs.HighestWebhookWins | app/accounts/delivery.py:242-318 | Once all are in, the row has the highest-ranked webhook's status, unless the provider's stop was heard first; with no webhook, the provider's answer |
| DeliveryProofs.OrderDoesNotMatter | app/accounts/delivery.py:242-318 | The same answer and webhooks in any two orders leave the same status, when the answer is not a stop |
| DeliveryProofs.OrderMattersIff | app/accounts/delivery.py:194-318 | Two orders of one message's answer and webhooks end in different statuses if and only if a stop and a webhook are both among them |
| DeliveryProofs.StopRunsDependOnOrder | app/accounts/delivery.py:194-318 | Of any message handed over, the stop written before a webhook stands, and after it the webhook does |
| DeliveryProofs.SuppressionIsJoin | app/accounts/delivery.py:99-121 | Between lifts an address's suppression is the join of every one asked for, with the reason of whoever first asked for the widest |
| DeliveryProofs.ScopeIgnoresOrder | app/accounts/delivery.py:99-121 | The scope of that join is the same in any order |
| DeliveryProofs.SuppressedIsNotSent | app/accounts/delivery.py:85-191 | After a suppression commits no message it covers passes the check until it is lifted, over every run: one handed over had been checked before it committed |
| DeliveryProofs.LeftIsNotSent | app/accounts/delivery.py:85-191 | Nor any message on a list the user has left, until something puts them back on it |
| DeliveryProofs.StopAfterTheCheckIsTooLate | app/accounts/delivery.py:171-191 | A bounce of the address committed between the check and the hand-over does not keep the message from the provider |
| DeliveryProofs.HandedOnce | app/accounts/delivery.py:171-222 | Over every run no message is handed over twice, nor one whose log has not been committed |
| DeliveryProofs.OwnMailStopsOnlyForAll | app/accounts/delivery.py:74-96 | The account's own mail is refused exactly for a suppression of everything |
| DeliveryEffects.KeyOfSpelling | app/accounts/delivery.py:62-65 | An address is known by itself without the blanks around it, its capitals small and nothing else changed |
| DeliveryEffects.CheckLogs | app/accounts/delivery.py:74-182 | A message is logged as refused for a suppression of everything, or of broadcasts when it is one, else for a list its user is not on, and as sending exactly when there is neither |
| DeliveryEffects.AnswerWrites | app/accounts/delivery.py:188-218 | Each answer of the provider is written over sending with its status and detail, an address it has stopped is suppressed on the stream of the message, and nothing is written when its id is another row's |
| DeliveryEffects.WebhookRefusedIff | app/accounts/delivery.py:278-318 | A webhook changes nothing exactly when a suppression gives no reason or the row it moves would take another row's id |
| DeliveryEffects.WebhookMovesRow | app/accounts/delivery.py:242-296 | Each kind of event moves the row it is about from the statuses below its own and no other, and no other row |
| DeliveryEffects.WebhookStops | app/accounts/delivery.py:298-318 | What each kind of event does to its recipient's suppression, by stream and reason, and that it touches no other address |
| DeliveryEffects.RefusedSince | app/accounts/delivery.py:85-318 | After any webhook but a reactivation a message is refused exactly when it was before or the event stops its stream to its address |
| DeliveryEffects.StoppedByWebhook | app/accounts/delivery.py:85-318 | And over every run that does not lift it nothing so stopped is handed over but what had been checked before |
| DeliveryEffects.LiftLifts | app/accounts/delivery.py:124-133 | A lift of broadcasts lifts a stop of broadcasts, any other whatever there is, at its address and no other |
| DeliveryEffects.ReportIsTrue | app/accounts/delivery.py:248-318 | What a webhook reports is what it changed |
| EmailLists.Store.Subscribed | app/accounts/email_lists.py:51-108 | Whether the next email on a list would be sent, for each kind of list |
| EmailLists.Store.StopEmailing | app/accounts/email_lists.py:92-103 | A rule loses its email, or is turned off when email was all it had |
| EmailLists.Store.Leave | app/accounts/email_lists.py:110-137 | Leaving stops the rules the list reaches or withdraws the consent, or is refused by the table and changes nothing |
| EmailLists.OnlyEmailGoes | app/accounts/email_lists.py:92-103 | Every channel but email is kept, as often as it was, and nothing is added |
| EmailLists.SubscribedIff | app/accounts/email_lists.py:51-90 | A user is on a list exactly while the account stands and the rule, any rule, or the consent asks for email |
| EmailLists.LeavingDoes | app/accounts/email_lists.py:92-137 | What leaving writes of every rule and consent, and that it writes nothing else |
| EmailLists.ListIsOfItsRules | app/accounts/mail.py:398-507 | An email about one rule is on its list, and one about several on that of all alerts |
| EmailLists.LeavingRefusedIff | app/accounts/email_lists.py:92-137 | Leaving is refused exactly when a rule it reaches lists email more than once and nothing else |
| EmailLists.LeavingIsNotRefused | app/accounts/email_lists.py:92-137 | While no rule lists a channel twice leaving is never refused, and no rule lists one twice after |
| EmailLists.LeavingLeaves | app/accounts/email_lists.py:110-137 | After leaving the user is off the list, and nobody is on any list they were not on before |
| EmailLists.LeavingTwice | app/accounts/email_lists.py:110-137 | Leaving twice is leaving once |
| EmailLists.RulesKept | app/accounts/email_lists.py:92-137 | A rule with another channel stays on with it, one outside the list is untouched, and none is left without a channel |
| EmailLists.LeavingAnEmailStopsItsRules | app/accounts/mail.py:398-507 | Leaving the list an alert or a batch was sent on leaves none of its rules emailing |
| EmailLists.LeavingADigestStopsItsRules | app/accounts/mail.py:509-554 | Nor that of a digest, any of the rules of either of its parts |
| EmailLayout.EscapingReadsBack | app/accounts/email_layout.py:16 | Every string is read back from its escaping as it was |
| EmailLayout.EscapedIsPlain | app/accounts/email_layout.py:10-12 | Escaped text has no character that begins or ends a tag or ends an attribute |
| EmailLayout.ScannedAsWritten | app/accounts/email_layout.py:75-162 | What is written in pieces is scanned as those pieces |
| EmailLayoutProofs.BlockSays | app/accounts/email_layout.py:75-118 | Each block's rows close what they open, show the block's strings read back, and lead to its links |
| EmailLayoutProofs.FooterSays | app/accounts/email_layout.py:121-132 | Each footer line's row does the same |
| EmailLayoutProofs.HtmlReadsBack | app/accounts/email_layout.py:135-162 | For every subject, blocks, footer and preheader the HTML is scanned as the template's tags, well nested, around the message's own strings in order and the template's few words, its links leading in order where the message's do |
| EmailLayoutProofs.TextHasEveryString | app/accounts/email_layout.py:61-72 | Every string and link of every block is in the text body, whole |
| EmailLayoutProofs.TextHasEveryFooterString | app/accounts/email_layout.py:69-72 | And of every footer line |
| EmailLayoutProofs.TextSaysWhatHtmlDoes | app/accounts/email_layout.py:3-6 | Whatever the HTML shows of a block, and wherever it leads, the text says too |
| EmailLayoutProofs.TextIsLines | app/accounts/email_layout.py:61-72 | The text body line by line: the blocks' lines with an empty one between two, an empty line, two dashes and the footer's lines |
| Entitlements.EveryKeyResolves | app/accounts/entitlements.py:443-487 | With a built catalog and own values the table allows, every key resolves, for every grant at every instant, to a value of its kind |
| Entitlements.FirstLevelAnswers | app/accounts/entitlements.py:443-463 | The first of override, own value, grandfathered plan and plan that says anything of the key answers, each while its part of the grant lasts, and Free when none does |
| Entitlements.OneClockIsEnough | app/accounts/entitlements.py:427-463 | The two readings of the clock in one answer are as one |
| Entitlements.AnswerIsOfTerms | app/accounts/entitlements.py:443-463 | An answer depends on the override's plan and the subscription's terms and on nothing else of the grant |
| Entitlements.GrantOfRows | app/accounts/entitlements.py:345-414 | A grant, field by field, is of the subscription in force and the newest override given, and there is none exactly when there is neither or no account |
| Entitlements.RowsAnswer | app/accounts/entitlements.py:345-463 | From the rows: the newest live override's plan answers, else the subscription in force by its own value, its promised plan and its plan, else Free, a plan the catalog has not got passed over |
| Entitlements.RowsName | app/accounts/entitlements.py:372-440 | The plan shown is the override's, else the subscription's, else Free |
| Entitlements.CachedSubscription | app/accounts/entitlements.py:282-414 | However stale a grant, its subscription says what the rows say now |
| Entitlements.CachedOverrideIff | app/accounts/entitlements.py:347-414 | Exactly when a cached override says what the rows say |
| Entitlements.CacheAgrees | app/accounts/entitlements.py:282-463 | While no two overrides overlap, a session that keeps its grant answers every key as one that has just read it |
| Entitlements.OverlappingOverridesDisagree | app/accounts/entitlements.py:347-414 | Two overlapping rows: the cached grant has no override, the rows have one |
| Overrides.Admin.EndRunning | app/admin/plans.py:170-182 | Nothing of the account's runs on, and no other row or expired one is touched |
| Overrides.Admin.Set | app/admin/plans.py:117-167 | What ran is ended and the new override begins, or an expiry not in the future is refused |
| Overrides.ChangeDoes | app/admin/plans.py:117-215 | A change ends the account's rows still to run, and a gift with time to run adds its row; no other row is touched |
| Overrides.EveryRunKeepsOne | app/admin/plans.py:117-215 | However overrides are given and ended, and in whatever order of their times, no two of one account's ever overlap |
| Overrides.KeptGrantNeverDiffers | app/accounts/entitlements.py:282-463 | After any such changes, a grant read since answers every key at every later instant as one read then |
| BillingEntitlements.DunnedIsFreeFromGraceEnd | app/accounts/billing.py:36-50 | After any run of the billing steps, whether or not the job ran, an account in dunning is Free for every key from its grace's end, by a grant read from its rows before then or after |
| BillingEntitlements.KeptGrantIsFreeFromGraceEnd | app/accounts/entitlements.py:282-345 | And by one kept in a session while more steps ran, if it was read at any point of the dunning |
| BillingEntitlements.PaidButFree | app/accounts/billing.py:309-323 | And so is one that paid, whose past_due event came late, for as long as every event says it is paid |
| Entitlements.UnpaidIsFreeFromGraceEnd | app/accounts/entitlements.py:282-345 | From its grace's end an unpaid account is Free for every key and shown as Free, whatever its session keeps and though no job runs |
| Entitlements.StoredGrantReadsBack | app/accounts/entitlements.py:293-318 | A grant read back from a session is the grant stored |
| EntitlementsService.MissingKeys | app/accounts/entitlements.py:172-187 | Exactly the keys of the list a plan has no value for |
| EntitlementsService.Misfits | app/accounts/entitlements.py:134-187 | Exactly a plan's values that do not fit their keys |
| EntitlementsService.GapsIn | app/accounts/entitlements.py:172-187 | Every gap of one plan is named and only those, none when it is complete |
| EntitlementsService.Build | app/accounts/entitlements.py:172-187 | A catalog is built exactly when there is a free plan and every plan is complete; otherwise every gap of every plan is named and only those |
| EntitlementsService.EveryPlanIsInCatalog | app/accounts/entitlements.py:172-187 | The catalog holds each plan under its slug |
| EntitlementsService.Offered | app/accounts/entitlements.py:496-509 | Every public paid plan whose limit reaches, and no other |
| EntitlementsService.Cheapest | app/accounts/entitlements.py:496-509 | The first of them by price and slug |
| EntitlementsService.LiftingPlan | app/accounts/entitlements.py:496-509 | The (price, slug)-least public paid plan that reaches, None exactly when none does |
| EntitlementsService.OfferLifts | app/accounts/entitlements.py:443-509 | Being on that plan with no terms of one's own is enough |
| EntitlementsService.OfferIs | app/accounts/entitlements.py:496-509 | An offer is public, not Free and reaches; the cheaper comes first and of equals the first slug |
| EntitlementsService.FitsIs | app/accounts/entitlements.py:134-170 | Nine keys take no limit or a number that is not negative, three a yes or no, and no other key anything |
| EntitlementsService.Registry.Reload | app/accounts/entitlements.py:190-252 | A load with a gap leaves the catalog in force |
| EntitlementsService.Registry.Limit | app/accounts/entitlements.py:466-475 | A number or no limit for every grant, and a failure exactly before any catalog has loaded |
| EntitlementsService.Registry.Can | app/accounts/entitlements.py:478-487 | A yes or no for every grant, with the same failure |
| AlertRules.Store.CountOn | app/accounts/alert_rules.py:116-129 | How many of the user's rules are on, of the kinds the plan sends |
| AlertRules.Store.CountKept | app/accounts/alert_rules.py:132-139 | How many rules the user has, on or off |
| AlertRules.Store.WriteAll | app/accounts/alert_rules.py:183-205 | Each preset is inserted, or its rule turned on, its settings kept |
| AlertRules.Store.Fitting | app/accounts/alert_rules.py:216-238 | As many pending presets as the limit has room for, and none that makes a rule past the bound |
| AlertRules.Store.Follow | app/accounts/alert_rules.py:216-238 | Following turns on what fits of what following turns on, or the digest on a plan that sends no other |
| AlertRules.Store.Unfollow | app/accounts/alert_rules.py:241-249 | Every rule that is on about the target is turned off |
| AlertRulesProofs.FollowTouches | app/accounts/alert_rules.py:183-238 | Following touches only rules of the user's of the kinds it turns on, about what was followed, and keeps one rule per kind and target |
| AlertRulesProofs.FollowKeepsCaps | app/accounts/alert_rules.py:208-238 | Neither count rises above the larger of what it was and its cap |
| AlertRulesProofs.WriteCounts | app/accounts/alert_rules.py:157-205 | Writing presets raises the count on by each of them and the count kept by each that was missing |
| AlertRulesProofs.DigestStaysOff | app/accounts/alert_rules.py:216-238 | A digest turned off is never turned on by following |
| AlertRulesProofs.FollowingTwice | app/accounts/alert_rules.py:216-238 | Following twice is following once, room, bound and all |
| AlertRulesEffects.FollowTurnsOn | app/accounts/alert_rules.py:142-238 | On a plan with instant alerts following turns on each of a filer's two rules, with its settings when it is new, exactly when it is off, the limit has room, the one on filings first, and it is not past the bound; else it is left alone |
| AlertRulesEffects.FollowMakesDigest | app/accounts/alert_rules.py:142-238 | On any other plan following adds the season digest exactly when the user has none and there is room for it, and changes nothing else |
| AlertRulesEffects.FollowAgainIff | app/accounts/alert_rules.py:216-249 | Follow, unfollow, follow leaves the rules of the first follow exactly when the limit gives back what it had |
| AlertRulesEffects.FollowAgainMayDiffer | app/accounts/alert_rules.py:216-249 | A limit of one, taken by one rule, goes to the other the second time |
| AlertRulesEffects.RulesOnIsCount | app/accounts/alert_rules.py:116-129 | The count on is how many rules of the user's are on, of kinds the plan sends |
| AlertRulesEffects.RulesKeptIsCount | app/accounts/alert_rules.py:132-139 | The count kept is how many rules the user has |
| AlertRulesProofs.UnfollowTurnsOff | app/accounts/alert_rules.py:241-249 | Unfollowing turns off the user's rules about the target and changes nothing else |
| AlertRulesProofs.EveryRunKeepsRules | app/accounts/alert_rules.py:157-249 | Over every run of follows and unfollows under any plans no rule is lost, doubled or resettled, and no account passes the bound unless it had |
| AlertRulesProofs.EveryRunKeepsLimit | app/accounts/alert_rules.py:116-249 | And while an account stays on one plan, its rules on stay within the larger of the limit and what they were |
| AlertRulesProofs.EveryListCanBeLeft | app/accounts/alert_rules.py:46-88 | No run of follows and unfollows makes a rule that lists a channel twice, so any list can be left after it |
| EffectiveFiling.CountsIffNotSuperseded | alembic/versions/20260930_0006_effective_filing.py:62-100 | A filing counts exactly when no whole-period filing of its filer, CIK and quarter was filed after it |
| EffectiveFiling.CountsByForm | alembic/versions/20260930_0006_effective_filing.py:62-100 | By form, amendment and parse status: an original, a restatement or an addition that was read counts unless an original or restatement of its key was filed later; an addition takes nothing away, and nothing else counts |
| EffectiveFiling.OneWholePeriodFiling | alembic/versions/20260930_0006_effective_filing.py:62-100 | A quarter of a CIK counts at most one whole-period filing |
| EffectiveFiling.MaintainerAgreesWithView | alembic/versions/20260930_0006_effective_filing.py:62-100 | Keeping only the latest whole-period filing and the additions since, fed in any order with repeats, counts what the view counts |
| EffectiveFiling.OneCikUnderSuccessor | alembic/versions/20260930_0006_effective_filing.py:102-121 | Under successor exactly one CIK counts for a quarter with any counting filing; under sum every one does |
| EffectiveFiling.EffectiveIff | alembic/versions/20260930_0006_effective_filing.py:102-121 | A counting filing of a curated filer is effective under sum always and under successor exactly when its CIK has the highest priority, none being -1, and of equals the highest number |
| EffectiveFiling.NeverCountedTwice | alembic/versions/20260930_0006_effective_filing.py:102-121 | No quarter of a successor filer adds up two whole portfolios |
| PositionChange.RowsCompareWithPreviousPeriod | app/derived/position_change.py:292-491 | The lag over a security's whole history, kept where it is from the period before, gives one row for every security of either portfolio, with both figures, an exit exactly where it is gone |
| PositionChange.RowSplits | app/derived/position_change.py:292-491 | A row's split is that since the period before, of a security still held |
| PositionChange.SinceIs | app/derived/position_change.py:212-227 | The shares a position is compared with: none, the previous, or the whole number of ten-thousandths nearest the previous by new over old |
| PositionChange.ActionIs | app/derived/position_change.py:212-227 | Each action of every row, split or not, exactly |
| PositionChange.RoundIs | app/derived/position_change.py:212-227 | Rounding is to the nearest part, a half away from nothing |
| PositionChange.RowsPassTheChecks | app/db/models/position_change.py:73-91 | Every row passes the table's checks: new exactly without previous figures, an exit of nothing, no split of either |
| PositionChange.ActionsMeanWhatTheySay | app/derived/position_change.py:212-227 | Without a split an add, a trim and a hold are exactly a rise, a fall and a change within one part in ten thousand |
| PositionChange.DeltasAddUp | app/db/models/position_change.py:115-118 | A position's value deltas over a filer's whole history add up to its value, and its share deltas, with the shares splits made, to its shares |
| PositionChange.ShareDeltasAddUpIff | app/db/models/position_change.py:172-184 | The share deltas alone add up to what is held exactly when the splits added, on balance, nothing, as where there was none |
| PositionChange.SplitHeldThroughIsAHold | app/db/models/position_change.py:172-184 | A position held through any split is a hold with no delta, and what the split made of it is in none |
| PositionChange.TenForOneIsInNoDelta | app/db/models/position_change.py:172-184 | 100 shares split ten for one: the deltas add up to 100 of the 1,000 held |
| Flows.RowDecomposesIff | alembic/versions/20261001_0014_materialised_views.py:41-56 | A row's value delta is bought less sold, its drift and its shares' new price, exactly unless it is a split position listed at no shares |
| Flows.WholeTrades | alembic/versions/20261001_0014_materialised_views.py:41-56 | A position entered trades what it is worth now, and one left what it was worth |
| Flows.MixedPricesOvervalueTheTrade | alembic/versions/20261001_0014_materialised_views.py:41-56 | A position split ten for one and listed at no shares trades ten times what it was worth |
| Flows.PrevValuesAreThePreviousPortfolio | alembic/versions/20261001_0014_materialised_views.py:152-168 | Turnover's denominator is the whole previous portfolio |
| Flows.PortfolioChangeDecomposes | alembic/versions/20261001_0014_materialised_views.py:41-109 | Between any two published periods a portfolio gains what was bought less sold, the drift, and the prices' move on what was held: no dollar twice, none left out |
| Flows.TurnoverNullIff | alembic/versions/20261001_0014_materialised_views.py:152-179 | There is no turnover exactly in a first period or after one worth nothing |
| Flows.TurnoverIsHalfOfWhatTraded | alembic/versions/20261001_0014_materialised_views.py:173-179 | Turnover averages what was bought and what was sold, over the worth of the previous portfolio |
| Flows.HoldsTradeNothing | alembic/versions/20261001_0014_materialised_views.py:155-179 | Whatever prices did, a period of holds turned over nothing |
| Flows.WholeBookReplaced | alembic/versions/20261001_0014_materialised_views.py:83-184 | A filer that replaced its whole book bought all it has and sold all it had |
| Flows.NetFlowIsNotPriceMove | alembic/versions/20261001_0014_materialised_views.py:83-124 | A quarter's net flow is, to the cent, the change in value neither price nor drift made |
| Flows.DollarsAre | alembic/versions/20261001_0014_materialised_views.py:41-109 | Bought and sold dollars are the change in shares of the rows that entered or added, or left or trimmed, at the price now or, with no shares now, before; a filer's first period apart |
| TopPositions.TopCounts | alembic/versions/20261001_0014_materialised_views.py:128-140 | The places are numbered from one with none left out |
| TopPositions.TopTenIsTheMost | alembic/versions/20261001_0014_materialised_views.py:128-151 | The top ten's value is the most any ten positions come to |
| TopPositions.TiesDoNotMatter | alembic/versions/20261001_0014_materialised_views.py:134-140 | However ties at tenth place are broken, the sum is the same |
| TopPositions.WeightIsAPercentage | alembic/versions/20261001_0014_materialised_views.py:171-172 | The weight, as rounded, is between nothing and a hundred percent, and a hundred for ten positions or fewer |
| TopPositions.WeightIs | alembic/versions/20261001_0014_materialised_views.py:171-172 | The weight is undefined exactly for a portfolio worth nothing, and else the ten's share in percent to the millionth |
| TopPositions.TiesGoToTheLower | alembic/versions/20261001_0014_materialised_views.py:134-140 | Of equals the lower id is in the ten first |
| YearFlows.QuarterEndIs | alembic/versions/20261003_0019_market_views.py:47-49 | The quarter ends are March 31st, June 30th, September 30th and December 31st of every year |
| YearFlows.YearBeforeIs | alembic/versions/20261003_0019_market_views.py:50-53 | A year before a day is its day of the year before, or February 28th when that year has no 29th |
| YearFlows.YearIsFourQuarters | alembic/versions/20261003_0019_market_views.py:47-53 | On the calendar, a year ending at any quarter end is exactly the four quarters up to it |
| YearFlows.YearIsTheSumOfFour | alembic/versions/20261003_0019_market_views.py:80-91 | A column of a year is the sum of its four quarters', whichever have a row |
| YearFlows.YearAddsUpItsQuarters | alembic/versions/20261003_0019_market_views.py:55-124 | Its bought, sold, net and net shares are the exact sums of the quarters' as those round |
| YearFlows.DollarsRoll | alembic/versions/20261003_0019_market_views.py:55-91 | Consecutive years differ by the quarter that came in less the one that went out |
| YearFlows.YearFilersAreTheQuarters | alembic/versions/20261003_0019_market_views.py:92-109 | The filers a year counts are those its four quarters count, on every side |
| YearFlows.CountedIff | alembic/versions/20261003_0019_market_views.py:92-109 | Who is a buyer, a seller, a new position and an exit, by what they held and hold |
| YearFlows.FilersCountedOnce | alembic/versions/20261003_0019_market_views.py:92-109 | A year's count of filers is at least each quarter's and at most their sum, and the sum exactly when no filer is counted in two |
| Sums.SumPull | alembic/versions/20261001_0014_materialised_views.py:83-184 | A sum over rows does not depend on the order they come in |
| Paddle.VerifySignature | app/accounts/paddle.py:74-103 | For every header, the verdict of reading its fields one by one and comparing its h1s in turn, each refusal its own reason and each error it does not catch its own |
| Paddle.ReadParts | app/accounts/paddle.py:84-94 | The loop over a header's parts keeps the last ts and every h1 that is not empty, or fails at the first ts that is no number |
| Paddle.MatchAny | app/accounts/paddle.py:100-103 | The h1s are compared in turn until one matches, or one raises |
| Paddle.NumbersReadBack | app/accounts/paddle.py:68-92 | A time is read back as it was written, whatever its sign, within the digits Python reads |
| PaddleNumbers.IntReads | app/accounts/paddle.py:89 | Digits, with an underscore between any two or none, after a sign or none and with space around them, are read as their number |
| PaddleNumbers.IntReadsNothingElse | app/accounts/paddle.py:89 | And nothing else is |
| PaddleNumbers.ValueIsTens | app/accounts/paddle.py:89 | As the number they are in base ten |
| Paddle.ExpectedIsTheDigest | app/accounts/paddle.py:99 | What each h1 is compared with is the digest and nothing else of the header |
| Paddle.MessagesDiffer | app/accounts/paddle.py:68-71 | No two bodies and times are signed as one message |
| Paddle.EveryHeaderIsFields | app/accounts/paddle.py:83-84 | Every header is some fields, with the space around them, one after the other |
| Paddle.HeaderReadsBack | app/accounts/paddle.py:83-94 | A header is read as its fields, in any order and however spaced or numbered, or refused for a ts that is no number |
| Paddle.HeaderAcceptedIff | app/accounts/paddle.py:74-103 | Any header is accepted exactly when every ts is a number, the last is not too old, and some h1 is the digest, none before it being beyond ASCII |
| Paddle.OrderOfH1sDoesNotMatter | app/accounts/paddle.py:100-103 | Among ASCII h1s the order does not matter |
| Paddle.RightH1MayNotBeReached | app/accounts/paddle.py:74-103 | Two headers in time with the same two h1s, the digest and one beyond ASCII: with the digest second it is refused, and with it first accepted |
| Paddle.SignedIsAcceptedIff | app/accounts/paddle.py:68-103 | Paddle's own signature is accepted until the tolerance after it was made; then it is too old, or, of a ts beyond a float, an uncaught overflow |
| AdminLog.Log.Record | app/admin/log.py:20-43 | A row is added after every other, from the console with its admin or from the command line without, and no row there was changes |
| AdminLog.PageIsNewest | app/admin/log.py:46-63 | A page is in order, holds only what was asked for, and leaves out only what is older than all of it |
| AdminLog.PageHolds | app/admin/log.py:46-63 | A page holds only rows about the user, by the admin and before the cursor asked for, newest first, and leaves one out only when full of newer ones |
| AdminLog.PageThenOlder | app/api/routers/admin.py:555-559 | A full page, then all that is older than its last, is everything; a page not full is everything |
| AdminLog.WalkEnds | app/api/routers/admin.py:543-559 | A walk ends, from its first page or from any cursor, however much is written meanwhile |
| AdminLog.WalkIsTheLogAsItWas | app/admin/log.py:46-63 | Rows written in order between the pages, the walk is the log as it was, newest first, every row once |
| AdminLog.WalkMissesNothing | app/admin/log.py:46-63 | Rows committed out of order, still none is seen twice, none there at the start is missed, and none is seen that is not there at the end |
| Activity.WritesAreBounded | app/accounts/activity.py:26-31 | Requests in order, whatever was last written before them, write once, then at most once for each interval between the first and the last and once for each midnight |
| Activity.WritesSinceAreBounded | app/accounts/activity.py:26-31 | And when the last written was before them all, no more than the intervals and midnights since it |
| ApiKeys.Service.FindKey | app/accounts/api_keys.py:65-91 | The live key a token is, if any, marked used and its account active that day when due |
| ApiKeys.Service.Touch | app/accounts/sessions.py:330-340 | A signed-in account is marked seen and active that day when due, and not otherwise |
| ApiKeys.Service.CreateKey | app/accounts/api_keys.py:105-114 | A new key of the account, whether it is deleted or not, or nothing when there is one of its hash |
| ApiKeys.Service.Revoke | app/accounts/api_keys.py:117-122 | The account's own live key stops working; nothing for another's or one revoked |
| ApiKeys.Service.RevokeEvery | app/accounts/api_keys.py:125-127 | None of the account's keys is live after, and no other's, nor one already revoked, is changed |
| ApiKeys.Service.DeleteAccount | app/accounts/privacy.py:219-247 | Deleting an account marks it and leaves none of its keys unrevoked |
| ApiKeys.Service.RestoreAccount | app/accounts/privacy.py:254-287 | An account is restored exactly when it is deleted and its address is not taken; of its keys those never revoked work again and no other |
| ApiKeys.Service.CountDataExport | app/accounts/activity.py:43-52 | One more export on the day, which marks it active |
| ApiKeys.FoundIff | app/accounts/api_keys.py:65-84 | A token finds a key exactly when it has the prefix and the key's digest, and neither the key is revoked nor its account deleted |
| ApiKeys.UseIsWritten | app/accounts/api_keys.py:85-90 | Use is written after five minutes, on a new day or at first, for a key as for a session, and not otherwise |
| ApiKeys.KeysAreWritten | app/accounts/api_keys.py:105-127 | What making, revoking, deleting and restoring write to each key |
| ApiKeys.RevokedForGood | app/accounts/api_keys.py:15-20 | Over every run, deletions and restores among its steps, a revoked key lets in nothing again, and its token finds no other |
| ApiKeys.LetsInNothingIffRevoked | app/accounts/api_keys.py:15-20 | A key lets in nothing ever again if and only if it is revoked |
| ApiKeys.RestoredWithKeysMadeSince | app/accounts/privacy.py:219-287 | Whatever happens between an account's deletion and its restoring, the keys it is back with are exactly those made since and not revoked since |
| ApiKeys.KeyMadeOnceDeleted | app/accounts/api_keys.py:105-112 | A key made once the account is deleted finds nothing, and lets in again when it is restored |
| ApiKeys.DaysAreExactlyThoseActive | app/accounts/activity.py:1-11 | Though most requests write nothing, over every run the days recorded are exactly those with a signed-in request, a sign-in, a request let in by a key, or an export |
| ApiKeys.ExportsAreCounted | app/accounts/activity.py:43-52 | Every export is counted once on its day, and no request is |
| ApiKeys.LastUseIsItsOwn | app/accounts/api_keys.py:65-91 | Among other keys' requests, a key's last use is what its own make it |
| ApiKeys.KeyWritesAreBounded | app/accounts/api_keys.py:46-91 | A key used in order of time, new or used before, is written at most once, once per five minutes of its use, and once per midnight |
| ApiKeys.LastUseIsFresh | app/accounts/api_keys.py:46-91 | What is written of the last use is of its day and less than five minutes before it |

## Left out

- Row locks, `FOR UPDATE`, `SKIP LOCKED` and isolation: each transaction is one atomic step, and the courier's two are two, with the hand-over a step between them.
- HTTP, Redis, Postmark and Paddle calls: their answers are parameters of the steps.
- Payload parsing: a webhook's data is a record whose times are null, readable or malformed, whose `custom_data.user_id` is a number or absent, and whose empty customer is absent.
- HMAC-SHA256, SHA-256 and the random tokens: parameters, with no cryptographic claim; a digest is only known to be hexadecimal.
- Address hashing: a suppression is kept by the trimmed and lower-cased address itself, in ASCII.
- Instants as text: printing and parsing one is a parameter known to round-trip; `now` is a real number, without float rounding.
- Database sequences: a table's ids are its places, except the log's, which are numbers that only grow.
- Deleting plans, rules' own editing, and consent history: a step may replace the lists by any others, and the latest answer per purpose is a boolean.
- The product of several splits between two periods: one ratio, given; rounding the ratio itself, and the detection of splits.
- Percent and weight columns, consensus holdings and the filing feed: averages, medians and rankings that would add easy members.
- The values of CSS styles and of two meta tags: any text without a double quote.
- Subject wording, currency formatting, unsubscribe tokens, the session store, usage metering and privacy jobs, the purge of deleted accounts among them: not part of this model.
- `PaddleClient.cancel_subscription`: a sequence of remote calls, whose answers `BillingService.Service.Cancel` takes as given.
- BillingConfluence.Confluence: says nothing of the dunning columns, which do not converge; `PaidEndsDunningIff` and `StuckForGood` say what they do instead.
- Entitlements.CacheAgrees: assumes one override at most between the two instants, as `CachedOverrideIff` shows it must; `Overrides.KeptGrantNeverDiffers` assumes none.
- Paddle.SignedIsAcceptedIff: `now` is a clock's reading, so far inside a float's range that only the ts can take their difference out of it.
- ApiKeys.Service.RestoreAccount: whether another live account has the address is a parameter; the model keeps no addresses.
- At most ten live keys an account, and the plan's API calls: the endpoint's own checks before a key is made.
- Flows.PortfolioChangeDecomposes: assumes no split position is listed at no shares, as `RowDecomposesIff` shows it must.
