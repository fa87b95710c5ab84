# A verified model of the gateway's state-changing core

This project models, in Dafny, the parts of the AI API gateway in which state changes step by step and where
several steps, threads or passes have to agree: top-up orders and their locks, multi-key channels, the in-memory
rate limiter, billing of asynchronous tasks, upstream model synchronisation, price comparison and price
selection, request body storage, the Ogg page scan, step-up verification and the relay's retry loops.

`dafny verify dfyconfig.toml` checks the whole project.

How it is built:

- A protocol that several threads or pollers take part in is a state machine over its atomic steps, and its
  properties hold after every sequence of steps (`OrderLocks`, `OrderCredit`, `OrderProgress`, `Midjourney`).
- An object or a table row that the program updates in place is a class; each method states its whole effect
  through a function on values, and the laws are lemmas about that function.
- The functions that operations are proved against have laws of their own, said of rows, reports, errors and
  prices directly (`OrderSettlement`, `UpstreamLaws`, `PriceDiffMeaning`, `ModelsDevLaws`, `RelayLaws`).
- Loops of the program are loops with invariants. Map iteration picks keys in any order.
- Money, ratios and prices are reals; integers are unbounded; times are integers.
- Clocks, database failures, upstream answers, the regular-expression engine and the JSON parser of key columns
  are parameters.

Where the code does not keep a promise on all inputs, the model keeps the code: a lemma gives an input that
shows it, and an `Iff` lemma gives the exact condition. The main ones:

- **Key columns.** A rewritten key list refines the list of records iff its keys are writable as lines (or the
  text happens to be a JSON array of them). Deleting all auto-disabled keys when every key is auto-disabled leaves
  the keys and enables them. A column that starts with `[` but is no JSON array is replaced by appended input
  that has a visible line, so its keys survive only if the input begins with them. An empty column takes the
  input as it is, so its lines must be trimmed, visible and distinct.
- **Rate limiter.** With eviction and a limit of at least zero it counts the window exactly iff the window is at
  most one second longer than the lifetime of idle keys. A limit of zero lets one request through per window, a
  negative one panics.
- **Task billing.** A poll of a video task keeps balance plus live quota iff what it leaks by itself is made up
  for by what its copy of the task overwrites. A task that leaves FAILURE, or that two pollers fail from live
  copies, is refunded again. As long as no response lists it twice, a Midjourney task is refunded at most once
  iff every report says FAILURE exactly when it ends the task, whether the database counts matched or changed
  rows. That refunds write FAILURE over a non-FAILURE snapshot is not enough. A report that changes only
  properties or buttons is skipped.
- **Model synchronisation.** Detect-then-apply is a fixpoint iff no staged name has a comma and adding the
  staged names unhides nothing. A staged name with a comma is staged for ever. An ignored
  name stays away for good, except one that starts with "regex:" and that no entry matches.
- **Price comparison.** Nulls and the literal text "same" make it list agreeing pairs or hide differing ones.
- **Body storage.** The two stores differ on one call, the empty read at the end. A body longer than its
  declared length can push disk usage over the limit.
- **Step-up.** The recorded verification time can be a full minute after the passkey finish when the clock
  ticks between two readings.
- **Relay.** The first attempt uses the channel that the request came with, the later ones select. With an
  "auto" token that may change groups the retry counter restarts in every group, so the exact maximum is one
  attempt without retries, and otherwise groups times one more than the retries. With a negative retry setting
  nothing is attempted, nothing is refunded, and a task submission has no result to settle.

## Model

| member | source | states |
|---|---|---|
| `OrderCredit.OrderLockSafety` | controller/topup.go:268-308 | in every reachable state one thread at most holds an order's lock, the reference count is the number of threads that entered and have not left, they share one mutex, an entry exists iff there are any, and a holder's unlock finds its own locked mutex |
| `OrderLockProofs.RunKeepsLocks` | controller/topup.go:278-308 | every interleaving of arrivals, lock steps, order sections and unlock steps keeps the lock invariant |
| `OrderCredit.LocksExclude` | controller/topup.go:278-290 | the lock invariant implies that two holders of one order are the same thread |
| `OrderCredit.NextFreezesSettled` | controller/topup.go:373-408 | no event of any thread changes the row of an order that has left pending |
| `OrderCredit.LeavesPendingOnce` | controller/topup_stripe.go:222-324 | over every interleaving of Epay notifications, Stripe payments, failures and expiries, and manual completions an order's status changes at most once |
| `OrderCredit.CreditedAtMostOnce` | controller/topup.go:373-408 | no order is credited twice, and a credited order succeeded during the run |
| `OrderCredit.RunKeepsCredit` | model/topup.go:82-160 | every run keeps the ledger: credited, lost and about-to-be-credited orders are exactly the ones that succeeded, and every balance is what they are worth |
| `OrderCredit.QuiescentCreditIsExact` | controller/topup.go:390-405 | with no thread between saving and crediting and no failed credit, each user has gained exactly the worth of their newly successful orders |
| `OrderSettlement.CreditedAsPaid` | model/topup.go:109-165 | with no thread between saving and crediting and no failed credit, each user has gained the money of their newly successful Stripe orders and the amount of the others, times the unit and cut off, as the rows say |
| `OrderSettlement.OrderIsWorth` | model/topup.go:352-363 | a Stripe order is worth its money and any other its amount, times the unit, cut off toward zero |
| `OrderSettlement.GainOfWholeUnits` | model/topup.go:352-363 | with an integer unit the gain is the amount times the unit, and for a Stripe order the largest integer that its money times the unit reaches |
| `OrderSettlement.SettledByItsJob` | controller/topup_stripe.go:222-324 | over every run the terms of an order never change, and a settled order had a thread arrive for it whose job may bring an order of that provider into that state |
| `OrderSettlement.SoloNotification` | controller/topup.go:373-408 | a lone success notification ends and leaves no lock; exactly a pending Epay order succeeds, paid as notified, and its user gains its amount times the unit, unless that is negative |
| `OrderSettlement.SoloStripePaid` | controller/topup_stripe.go:258-289 | a lone Stripe payment: exactly a pending Stripe order that is no subscription succeeds, and its user gains its money times the unit |
| `OrderSettlement.SoloAdminComplete` | model/topup.go:320-392 | a lone manual completion: exactly a pending order worth at least one unit of quota succeeds, and its user gains that |
| `OrderSettlement.SoloStripeExpired` | model/topup.go:82-107 | a lone expiry: exactly a pending Stripe order that is no subscription expires, and nothing else changes |
| `OrderSettlement.SoloStripeFailed` | controller/topup_stripe.go:222-256 | a lone failed payment: exactly a pending Stripe order fails, and nothing else changes |
| `OrderProgress.NoDeadlock` | controller/topup.go:278-308 | in every reachable state with a thread that has not returned, the next action of some thread takes effect |
| `OrderProgress.EveryScheduleEnds` | controller/topup.go:278-308 | without new arrivals every schedule of effective actions, whatever the store answers to each, is bounded, and it is stuck iff every thread has returned |
| `OrderProgress.EveryoneReturns` | controller/topup.go:278-308 | from every state of the lock invariant and for every sequence of store answers such a schedule lets all threads return |
| `TopUpAmounts.TokenTopUp` | controller/topup.go:179-247 | in token mode every accepted request stores at least the minimum and is credited the largest multiple of the unit not above it |
| `TopUpAmounts.AcceptedIsPositive` | controller/topup.go:149-211 | with positive prices the lower bound on the payment refuses every request that is not positive |
| `TopUpAmounts.AcceptedIff` | controller/topup.go:149-211 | a request is accepted iff it reaches the minimum and costs at least a cent, in units or in tokens |
| `TopUpAmounts.UnitPriceIs` | controller/topup.go:149-177 | a unit costs the configured price, times the group's ratio unless that is zero, times a positive discount |
| `TopUpAmounts.TokenTopUpIff` | controller/topup.go:242-247 | of all requests, refused ones included, exactly the negative ones that are no multiple of the unit miss that |
| `TopUpAmounts.UnitTopUp` | controller/topup.go:179-247 | in the other modes the credit is the request times the unit |
| `RateLimit.CountsTheWindowIff` | common/rate-limit.go:14-70 | a request is accepted iff fewer than the limit were accepted in the window of the full history, whatever eviction passes happen, exactly when the window is at most one second longer than the lifetime, or there is no eviction, or the limit is negative |
| `RateLimit.LongWindowMiscounts` | common/rate-limit.go:28-42 | with eviction, a limit of at least zero and any longer window, a pass lets one request too many through |
| `RateLimit.NegativeNeverAccepts` | common/rate-limit.go:64-68 | a negative limit never accepts and never gets an entry |
| `RateLimit.NoWindowOverflows` | common/rate-limit.go:45-70 | no window holds more accepts than the limit |
| `RateLimit.ConfiguredLimitIff` | common/rate-limit.go:45-70 | where the window fits, the configured number is the limit iff it is not zero |
| `RateLimit.InMemoryRateLimiter.constructor` | common/rate-limit.go:14-26 | the limiter starts without keys and evicts iff its lifetime is positive |
| `RateLimit.InMemoryRateLimiter.Request` | common/rate-limit.go:45-70 | one request decides by the queue of its key, panics iff a new key has a negative limit, and leaves every other key alone |
| `RateLimit.InMemoryRateLimiter.ClearExpiredItems` | common/rate-limit.go:28-42 | one pass evicts or keeps every key on its own |
| `Text.ReadBackIff` | model/channel.go:175-197 | a list survives being joined and read back iff no part holds the separator and neither end is empty |
| `Text.SplitJoin` | model/channel.go:193-196 | splitting undoes joining when no part holds the separator |
| `Text.JoinSplit` | model/channel.go:193-196 | joining undoes splitting |
| `MultiKey.KeptKeys` | controller/channel.go:1742-1771 | dropping the auto-disabled records keeps exactly the others, drops nothing iff there are none, and leaves nothing iff all are |
| `MultiKey.WritableIff` | model/channel.go:526-573 | a submitted key list is read back and counted right iff it is writable: storable as lines, the elements of a JSON array, or already there when nothing is submitted |
| `MultiKey.DeletedStorableIff` | controller/channel.go:1653-1731 | a deletion leaves a column of lines readable unless it brings a blank key to an end |
| `MultiKeyAppend.NewKeysClean` | controller/channel.go:976-1004 | the appended keys are the trimmed non-blank lines not yet present, each once |
| `MultiKeyAppend.FirstKeysIff` | controller/channel.go:943-1007 | an empty column has stored the new keys iff every line of the input is trimmed, visible and distinct, line breaks at the ends aside, or the input is a JSON array of them |
| `MultiKeyAppend.AppendIff` | controller/channel.go:934-1007 | over every non-empty column, appending keeps every record at its index and adds the new keys after them iff the longer list is writable; a column that only looks like a JSON array needs an input without a visible line or one that begins with all its keys |
| `MultiKeyAppend.AppendToVisible` | controller/channel.go:934-1007 | on a newline column with a visible character that always holds |
| `MultiKeyAppend.AppendToBlankLosesPosition` | controller/channel.go:934-1007 | on a blank column the old key is lost |
| `MultiKeyAppend.AppendToBracketReplaces` | controller/channel.go:943-1007 | a column that only looks like a JSON array is kept by an input without a visible line and otherwise replaced by the input |
| `MultiKeyChannel.PruneStatuses` | model/channel.go:526-573 | the clean-up loop drops exactly the statuses past the number of keys |
| `MultiKeyChannel.RewrittenColumn` | model/channel.go:526-573 | a rewritten column stands for its keys, and keeps their maps, iff they are writable |
| `MultiKeyChannel.Channel.constructor` | model/channel.go:175-197 | a new row counts its keys and has no status entries |
| `MultiKeyChannel.Channel.Update` | model/channel.go:526-573 | an update recounts the keys, prunes the maps, does not write an empty column, and reports a failing ability refresh although the row was written |
| `MultiKeyChannel.Channel.DisableKey` | controller/channel.go:1497-1538 | the indexed record becomes manually disabled, with every error case |
| `MultiKeyChannel.Channel.EnableKey` | controller/channel.go:1540-1580 | the indexed record becomes enabled and loses its time and reason, with every error case |
| `MultiKeyChannel.Channel.EnableAllKeys` | controller/channel.go:1582-1604 | every record becomes enabled |
| `MultiKeyChannel.Channel.DisableAllKeys` | controller/channel.go:1606-1651 | every enabled record becomes manually disabled, or there is nothing to do |
| `MultiKeyChannel.Channel.RemainingAfter` | controller/channel.go:1671-1703 | the rebuilt keys and maps stand for the records without the deleted one |
| `MultiKeyChannel.Channel.Rewrite` | controller/channel.go:1713-1724 | a rewritten row stands for the remaining records iff their keys are writable |
| `MultiKeyChannel.Channel.DeleteKey` | controller/channel.go:1653-1731 | the record goes and the others keep their data iff the remaining keys are writable, with every error case |
| `MultiKeyChannel.Channel.RemainingEnabled` | controller/channel.go:1734-1771 | the rebuilt keys and maps stand for the records that are not auto-disabled |
| `MultiKeyChannel.Channel.DeleteDisabledKeys` | controller/channel.go:1733-1800 | exactly the auto-disabled records go iff the remaining keys are writable, except that all of them stay and are enabled when there are no others |
| `MultiKeyChannel.Channel.SetKeyStatus` | model/channel.go:641-691 | the first record with the key gets the status, time and reason, enabling keeps a stale time and reason, and the channel is auto-disabled when no enabled key is left |
| `MultiKeyChannel.Channel.HasEnabledKey` | model/channel.go:693-704 | the loop finds an enabled key iff there is one |
| `MultiKeyChannel.ChannelFollowsKeys` | model/channel.go:661-691 | setting a known key: an enabled channel stays enabled exactly as long as some key is, is auto-disabled without one, and enabling a key enables it |
| `MultiKeyChannel.ChannelWithoutKey` | model/channel.go:641-660 | an unknown key leaves the channel alone; without a key it takes the status itself |
| `MultiKeyChannel.Channel.CollectNewKeys` | controller/channel.go:976-1004 | the deduplication loop computes the new keys |
| `MultiKeyChannel.Channel.AppendKeys` | controller/channel.go:934-1007 | append mode extends the record list iff the column allows it, and says so for every valid row |
| `MultiKeyRuns.RunRefinesList` | controller/channel.go:1497-1800 | from every valid row, every run whose steps meet their conditions keeps the row valid and refines the same run on a plain list of records |
| `MultiKeyRuns.PlainRunRefinesList` | controller/channel.go:1497-1800 | on visible keys that do not start with a bracket every run refines |
| `MultiKeyRuns.PlainStep` | controller/channel.go:1497-1800 | on such keys every operation meets its condition and leaves such keys |
| `MultiKeyRuns.Perform` | controller/channel.go:1382-1800 | each operation on each valid row refines the operation on the list iff its step condition holds, and changes nothing when the row is not written |
| `MultiKeyRuns.SwitchesMean` | controller/channel.go:1497-1651 | what enabling and disabling do to each record, with the statuses written out |
| `MultiKeyRuns.MarkMeans` | model/channel.go:641-675 | marking gives exactly the first record with the key status 3, with time and reason |
| `MultiKeyRuns.ApplyKeepsPlain` | controller/channel.go:1653-1800 | no operation leaves the list empty or adds an unsafe key |
| `MultiKeyRuns.DeleteDisabledIff` | controller/channel.go:1733-1800 | deleting the auto-disabled keys does what it says iff some key is not auto-disabled |
| `VideoBilling.PollConservesIff` | controller/task_video.go:127-276 | a poll, on whatever copy of the task, keeps balance plus live quota of every user iff its own leak is made up for by what the copy overwrites |
| `VideoBilling.DriftIff` | controller/task_video.go:127-276 | a poll on the stored task drifts iff it is one of three leaks; one that is none of them drifts iff it saves a copy that holds another quota than the stored task |
| `VideoBilling.RunConserves` | controller/task_video.go:127-276 | every run of polls without drift keeps balance plus live quota |
| `VideoBilling.RefundsBounded` | controller/task_video.go:241-276 | a task is refunded at most once more often than it left FAILURE or was failed again from an old copy |
| `VideoBilling.FreshNeverFailsAgain` | controller/task_video.go:241-276 | polls on the stored task never refund a failed one |
| `VideoBilling.ReopenedRefundedTwice` | controller/task_video.go:127-276 | that bound is met by a failed task reported in progress again |
| `VideoBilling.StaleRefundedTwice` | controller/task_video.go:241-276 | and by two pollers that fail the task from live copies |
| `VideoBilling.SuccessIsIdempotent` | controller/task_video.go:143-240 | a success that was charged and stored changes nothing when polled again from what is stored |
| `VideoBilling.SuccessIsBilled` | controller/task_video.go:153-240 | a stored success is billed again exactly with tokens, a positive model ratio, a known group and a working charge: it then holds the tokens times both ratios, cut off, and the user pays or gets back the difference |
| `VideoBilling.Biller.Rebill` | controller/task_video.go:153-240 | re-billing by actual tokens charges or returns the difference and stores the new quota when the charge works |
| `VideoBilling.Biller.ApplyReport` | controller/task_video.go:132-260 | the status switch sets the task and the refund flag as the step function says |
| `VideoBilling.Biller.Finish` | controller/task_video.go:262-276 | the whole row is saved, and the refund follows iff that worked |
| `VideoBilling.Biller.UpdateSingleTask` | controller/task_video.go:65-279 | one poll, on whatever copy of the task, has exactly the effect of the step function on tasks and balances |
| `Midjourney.RefundedOnceIff` | controller/midjourney.go:153-232 | where no response repeats a task, it is refunded at most once under every interleaving of passes iff every report says FAILURE exactly when it ends the task, for databases that count matched rows and for those that count changed ones |
| `Midjourney.RunKeepsInv` | controller/midjourney.go:153-232 | with such reports no pass ever holds a FAILURE snapshot and a refunded task rests in FAILURE |
| `Midjourney.StatusKeepingRefund` | controller/midjourney.go:162-215 | a refunding report that keeps another status is refunded twice, the second time when the hour is over |
| `Midjourney.UnfinishedFailure` | controller/midjourney.go:162-215 | a FAILURE that does not end the task leads to two refunds by the program's own timeout |
| `Midjourney.StaleFailureReopens` | controller/midjourney.go:153-232 | two refunds although every refund writes FAILURE over a non-FAILURE snapshot |
| `Midjourney.RepeatedReportIff` | controller/midjourney.go:153-232 | a response that lists a failing task twice refunds it twice iff the second report says something new, or is not complete and its write counts |
| `Midjourney.UpdateNeededIff` | controller/midjourney.go:241-294 | a report is skipped iff it changes no compared column of the unfinished snapshot, and then it ends nothing |
| `Midjourney.WinnerStores` | controller/midjourney.go:160-215 | a winning pass stores the columns of the report, FAILURE and the reason after more than 3600000 milliseconds, and keeps the extras when the report has none |
| `Midjourney.Store.UpdateWithStatus` | model/midjourney.go:178-184 | the write happens iff the stored status is the expected one, and is won iff it affected a row as the database counts |
| `Midjourney.Store.IncreaseUserQuota` | model/user.go:901-916 | the quota is added unless it is negative or the write fails |
| `Midjourney.Task.ProcessReport` | controller/midjourney.go:153-232 | handling a first or repeated report changes the memory of the pass, row and balance exactly as the state machine step |
| `ModelNames.NormalizeNormal` | controller/channel_upstream_update.go:93-98 | normalised lists are trimmed, non-blank and free of duplicates, with the same names |
| `ModelNames.NormalIsNormalized` | controller/channel_upstream_update.go:93-98 | normalising such a list changes nothing |
| `ModelNames.ApplySelectedShape` | controller/channel_upstream_update.go:138-143 | the new list is the surviving old names in order, then the new ones in request order; an added name always survives |
| `ModelNames.MergeModelNames` | controller/channel_upstream_update.go:100-114 | the merge loop appends the names not yet there, in order |
| `ModelNames.SubtractModelNames` | controller/channel_upstream_update.go:116-125 | the loop with its set keeps exactly the names that are not removed, in order |
| `ModelNames.IntersectModelNames` | controller/channel_upstream_update.go:127-136 | the loop with its set keeps exactly the allowed names, in order |
| `UpstreamUpdate.CollectFinds` | controller/channel_upstream_update.go:172-231 | detection finds exactly the new upstream names and the vanished local names, each once |
| `UpstreamUpdate.SelectionLaws` | controller/channel_upstream_update.go:815-849 | for arbitrary requests only staged names move, added, ignored and remaining cover the staged ones with remaining disjoint, and adding wins over removing and ignoring |
| `UpstreamUpdate.AppliedListIff` | controller/channel_upstream_update.go:815-849 | the stored list is read back as survivors then additions iff no added name has a comma |
| `UpstreamUpdate.ApplyAllFixpointIff` | controller/channel_upstream_update.go:869-951 | detecting again after applying everything finds nothing iff no staged name has a comma and nothing is unhidden |
| `UpstreamUpdate.CommaIsStagedForEver` | controller/channel_upstream_update.go:815-837 | a staged name with a comma is staged again after any number of detect-and-apply rounds |
| `UpstreamUpdate.CommaBreaksFixpoint` | controller/channel_upstream_update.go:815-837 | such a name exists for a channel without models |
| `UpstreamUpdate.RegexNameBreaksFixpoint` | controller/channel_upstream_update.go:172-231 | adding a model named like an ignore pattern unhides what the pattern hid |
| `UpstreamUpdate.AutoSyncFixpointIff` | controller/channel_upstream_update.go:380-392 | automatic synchronisation adds exactly the pending names; the next detection adds nothing iff none has a comma, and then finds the same removals |
| `UpstreamUpdate.Channel.CollectPending` | controller/channel_upstream_update.go:172-231 | the two loops compute the pending changes |
| `UpstreamUpdate.Channel.CheckAndPersist` | controller/channel_upstream_update.go:356-403 | a check is skipped within the interval, only records the time when the fetch fails, otherwise stages or adds, and then may fail to refresh the abilities |
| `UpstreamUpdate.Channel.Apply` | controller/channel_upstream_update.go:802-850 | an application stores exactly the selection, or nothing when the store fails; a failing ability refresh is reported after the row was stored |
| `UpstreamUpdate.Channel.StoreSelection` | controller/channel_upstream_update.go:823-842 | list, ignore list and staged names are rewritten, the list only when it changes |
| `UpstreamLaws.DetectionFinds` | controller/channel_upstream_update.go:172-231 | a name is staged iff it is upstream, neither local nor a redirect target, and no ignore entry equals it or matches it as a regular expression; removals are local, not upstream and no redirect source |
| `UpstreamLaws.ApplicationStores` | controller/channel_upstream_update.go:815-842 | for arbitrary requests, which names are on the ignore list and still staged afterwards |
| `UpstreamLaws.ApplicationModels` | controller/channel_upstream_update.go:815-837 | without commas, the models are the old ones without the removed ones, and the added ones |
| `UpstreamLaws.IgnoredForGood` | controller/channel_upstream_update.go:172-231 | a staged plain name that is ignored and not added is never staged again, over every sequence of detections, synchronisations and applications and whatever the upstream offers |
| `UpstreamLaws.NeverStagedIff` | controller/channel_upstream_update.go:172-231 | a name that is not local is never staged iff some ignore entry hides it |
| `UpstreamLaws.IgnoredPatternComesBack` | controller/channel_upstream_update.go:172-231 | an ignored name that starts like a regular expression and that nothing matches is staged again at once |
| `PriceDiff.BuildDifferences` | controller/ratio_sync.go:536-696 | the three passes list exactly the kept pairs with their items restricted to the channels that differ somewhere, for every order of map iteration |
| `PriceDiff.AllModels` | controller/ratio_sync.go:542-556 | every model mentioned anywhere is considered |
| `PriceDiff.Confidences` | controller/ratio_sync.go:558-591 | each channel gets its confidence per model, the last one of a name winning |
| `PriceDiff.Classify` | controller/ratio_sync.go:605-629 | one channel's mark, presence and difference |
| `PriceDiff.BuildItem` | controller/ratio_sync.go:595-652 | the loop over the channels decides inclusion and builds the full item |
| `PriceDiff.FirstPass` | controller/ratio_sync.go:593-654 | the first listing has exactly the included pairs |
| `PriceDiff.TellingNames` | controller/ratio_sync.go:656-665 | the second pass finds the channels that show a value |
| `PriceDiff.Prune` | controller/ratio_sync.go:667-693 | the third pass restricts every item and leaves no empty item or model |
| `PriceDiffLaws.KeptExactly` | controller/ratio_sync.go:536-696 | with distinct names a pair is kept iff it is included and a channel differs on it, or lacks it while differing elsewhere |
| `PriceDiffLaws.SurvivesAsPromisedIff` | controller/ratio_sync.go:536-696 | a pair survives iff some channel differs on it, except exactly for the artefacts of null and of the text "same" |
| `PriceDiffLaws.ListsTheDifferences` | controller/ratio_sync.go:536-696 | without nulls and that text the result lists exactly the differing pairs |
| `PriceDiffLaws.ItemNamesTheDiffering` | controller/ratio_sync.go:595-693 | a listed item names exactly the channels that differ somewhere, with value, agreement or absence, and the confidence of each |
| `PriceDiffLaws.NullListsAgreement` | controller/ratio_sync.go:605-652 | a null lists a pair on which nobody differs |
| `PriceDiffLaws.SameHidesDifference` | controller/ratio_sync.go:656-693 | a value spelled "same" hides a difference |
| `PriceDiffMeaning.ListsDisagreements` | controller/ratio_sync.go:536-696 | on data without nulls and the text "same", a pair is listed iff some channel has a value that local lacks or that is neither equal nor, as a number, less than a billionth away |
| `PriceDiffMeaning.ListsNumbersApart` | controller/ratio_sync.go:48-62 | two numbers are listed iff they are a billionth apart or more |
| `PriceDiffMeaning.ListsUnequalTexts` | controller/ratio_sync.go:55-62 | two texts are listed iff they are not equal |
| `PriceDiffMeaning.ItemShows` | controller/ratio_sync.go:595-693 | a listed item shows the local value, names the channels that disagree about something, shows the value, agreement or absence of each, and distrusts exactly the placeholder price |
| `PriceDiffMeaning.ConfidentMeans` | controller/ratio_sync.go:558-591 | a channel is distrusted iff its model ratio is 37.5 and its completion ratio 1, within a billionth |
| `StringOrder.SortedKeys` | controller/ratio_sync.go:915-919 | the keys of a map come out ascending, each once |
| `StringOrder.EnumerationIsUnique` | controller/ratio_sync.go:915-919 | there is only one ascending list of a set, so map order does not matter |
| `ModelsDev.ChosenIsCheapest` | controller/ratio_sync.go:881-944 | visiting providers in ascending order chooses a free price only if all are free, otherwise one below every positive price plus the tolerance, and the first provider asking it |
| `ModelsDev.UnsortedOrderDrifts` | controller/ratio_sync.go:881-893 | in another order the tie-breaker can drift away from the cheapest price |
| `ModelsDev.RoundRatioWithin` | controller/ratio_sync.go:698-700 | rounding moves a ratio by at most half a millionth |
| `ModelsDev.RoundRatioIdempotent` | controller/ratio_sync.go:698-700 | rounding twice is rounding once |
| `ModelsDev.RoundIsNearest` | controller/ratio_sync.go:698-700 | rounding goes to the nearest integer, halves away from zero |
| `ModelsDev.VisitProvider` | controller/ratio_sync.go:922-944 | one provider improves the selection of every model by its offer |
| `ModelsDev.SelectCandidates` | controller/ratio_sync.go:915-944 | the selection is the choice over the ascending providers |
| `ModelsDev.Publish` | controller/ratio_sync.go:950-972 | each selected model gets its rounded ratios, completion and cache ratios only where they exist |
| `ModelsDev.Convert` | controller/ratio_sync.go:906-985 | the result is the same for every order of reading, with both error cases |
| `ModelsDev.PublishedIsCheapest` | controller/ratio_sync.go:838-985 | every published ratio is within half a millionth of that of the cheapest offer |
| `ModelsDevLaws.PublishedComesFromCheapest` | controller/ratio_sync.go:838-985 | a model is published iff some provider lists a usable price for it, and its ratios are those of one cheapest entry: half the input price, and output and cache prices over it where they exist, in whole millionths |
| `BodyStorage.RunBothStores` | common/body_storage.go:28-238 | any operations on a memory store and a disk store of the same data get the same answers iff none is an empty read at the end, and both stores end up the same |
| `BodyStorage.SameAnswersIff` | common/body_storage.go:28-238 | the two specifications differ on a sequence of operations iff one is an empty read at the end |
| `BodyStorage.NonEmptyReadsAgree` | common/body_storage.go:28-238 | callers that never pass an empty buffer cannot tell the stores apart |
| `BodyStorage.RetryReadsWholeBody` | common/gin.go:36-45 | after any use of an open store, rewinding lets a reader get the whole body |
| `BodyStorage.SeekLeads` | common/body_storage.go:56-63 | seeks from the start, the end and the current position lead where they say, never before the start, and reads continue there |
| `BodyStorage.ClosedRefuses` | common/body_storage.go:47-81 | a closed store refuses everything but another close and stays as it is; no operation changes the data |
| `BodyStorage.MemoryStorage.constructor` | common/body_storage.go:37-45 | a new store holds the data at position zero |
| `BodyStorage.MemoryStorage.Read` | common/body_storage.go:47-54 | a read answers and moves as the memory store's step |
| `BodyStorage.MemoryStorage.Seek` | common/body_storage.go:56-63 | a seek answers and moves, or fails and does not move |
| `BodyStorage.MemoryStorage.Bytes` | common/body_storage.go:74-81 | all data, nothing moves, and the caller shares the stored slice |
| `BodyStorage.MemoryStorage.Close` | common/body_storage.go:65-72 | only the first close counts |
| `BodyStorage.DiskStorage.constructor` | common/body_storage.go:100-130 | writing and rewinding the file gives a store of the data at position zero |
| `BodyStorage.DiskStorage.Read` | common/body_storage.go:169-176 | a read answers and moves as the disk store's step |
| `BodyStorage.DiskStorage.Seek` | common/body_storage.go:178-185 | a seek answers and moves, or fails and does not move |
| `BodyStorage.DiskStorage.Bytes` | common/body_storage.go:198-230 | the seeks and the read give all data and restore the position, or the first refused one is reported and the position stays where it got |
| `BodyStorage.DiskStorage.Close` | common/body_storage.go:187-196 | only the first close counts |
| `BodyUsage.Cache.NewMemoryStorage` | common/body_storage.go:37-45 | a fresh memory store, counted |
| `BodyUsage.Cache.NewDiskStorage` | common/body_storage.go:100-130 | a fresh disk store, counted |
| `BodyUsage.Cache.CreateBodyStorage` | common/body_storage.go:241-259 | disk iff enabled, large enough, available and working, otherwise memory; the same data either way |
| `BodyUsage.Cache.CreateBodyStorageFromReader` | common/body_storage.go:262-303 | absent disk errors a body is accepted iff it has at most the maximum length, and the store holds it |
| `BodyUsage.Cache.CloseStore` | common/disk_cache_config.go:109-134 | a store leaves the counters the first time it is closed, and is otherwise unchanged |
| `BodyUsage.Request.GetRequestBody` | common/gin.go:36-83 | every successful call hands out the carried body at its start, rewinds an existing store and never makes a second one; a failed creation has used the request's body up |
| `BodyUsageRuns.CountersAreExact` | common/body_storage.go:37-72 | after every run of creations and repeated closes the counters are number and size of the open stores |
| `BodyUsageRuns.ClampNeverFires` | common/disk_cache_config.go:114-122 | closing an open store never takes a counter below zero |
| `BodyUsageRuns.BytesAreStored` | common/body_storage.go:241-259 | after every run, bytes are stored, on disk iff it is enabled and works, they reach the threshold and fit beside the open disk stores |
| `BodyUsageRuns.ReaderIsStored` | common/body_storage.go:262-303 | a reader goes to disk by its declared length and is lost if the disk then fails, otherwise by what it yields; more than the maximum is refused |
| `BodyUsageRuns.DiskUsageBounded` | common/disk_cache_config.go:170-177 | disk usage stays within the maximum over every run of readers that keep to their declared length |
| `BodyUsageRuns.KeepsLimitIff` | common/body_storage.go:262-281 | a creation keeps every state within the limit iff it is not an accepted body longer than a length for which disk can be chosen |
| `OggScan.TotalGranules` | common/audio.go:196-249 | the loop ends on every byte string and computes the scan, with readers that fall short or fail |
| `OggScan.SmoothScan` | common/audio.go:207-249 | a reader that never falls short gives the full scan |
| `OggScan.ScanWithIsPrefix` | common/audio.go:207-249 | whatever the reader does, a reported result is the maximum over the first pages of the full scan |
| `OggScan.NeverTooLong` | common/audio.go:207-254 | so it never exceeds that of the full scan |
| `OggScan.ErrorsAreHeaders` | common/audio.go:207-217 | an error is reported only when reading a header fails, and always when the first one does |
| `OggScan.GetOpusDuration` | common/audio.go:196-254 | the duration is that maximum at 48000 samples per second, or an error iff rewinding or reading a header fails |
| `OggScan.ScanIsLargest` | common/audio.go:207-249 | on every byte string the scan yields the maximum over exactly the visited pages |
| `OggScan.SumOf` | common/audio.go:241-245 | the page size is the sum of the segment table |
| `OggScan.SumAdds` | common/audio.go:241-245 | that sum is each byte's value, added up over the parts of the table |
| `OggPages.ScanOfPages` | common/audio.go:207-249 | on every stream of well-formed pages, with bytes between them in which no page begins, each page is visited exactly once and the result is the maximum of zero and the signed granule positions |
| `OggPages.LargestGranuleIsMaximum` | common/audio.go:228-232 | that maximum is attained and not exceeded |
| `OggPages.GranuleRoundTrip` | common/audio.go:228-229 | a signed granule position written as eight little-endian bytes is read back |
| `StepUp.GateIsBacked` | controller/passkey.go:569-586 | every passkey gate passed at t stands on a verification recorded less than 300 seconds ago that consumed a finish less than 60 seconds old, with no finish saved since |
| `StepUp.GatePassesIff` | controller/passkey.go:569-586 | a gate for one means passes iff a verification by that means, less than 300 seconds old, stands: no finish or clearing withdrew it and no other verification replaced it |
| `StepUp.AnyGatePassesIff` | middleware/secure_verification.go:22-78 | the middleware's gate passes iff a verification by either means so stands |
| `StepUp.VerifiesIff` | controller/secure_verification.go:85-179 | a verification succeeds iff the code is right and it is saved, or the passkey is enrolled, both saves work and the marker of a finish less than 60 seconds old was not taken away |
| `StepUp.GateLeavesOnlyFresh` | controller/passkey.go:569-586 | after a saved gate no verification shows that was 300 seconds old |
| `StepUp.VerificationUsesFinish` | controller/secure_verification.go:157-179 | every successful passkey verification consumes the last saved finish |
| `StepUp.DistinctFinishes` | controller/secure_verification.go:157-179 | two verifications consume two finishes, the second saved after the first verification |
| `StepUp.RecordedWithinMinuteIff` | controller/secure_verification.go:145-179 | the recorded time is within the minute for every accepted finish iff the clock did not tick between the two readings |
| `StepUp.ClockTickTrace` | controller/secure_verification.go:145-179 | a trace with a verification recorded 60 seconds after its finish |
| `StepUp.SessionStore.PasskeyVerifyFinish` | controller/passkey.go:495-503 | a saved finish sets the marker and withdraws the verification |
| `StepUp.SessionStore.ConsumePasskeyReady` | controller/secure_verification.go:157-179 | the marker is gone once the save works, and counts only if it is less than 60 seconds old |
| `StepUp.SessionStore.SetSecureVerification` | controller/secure_verification.go:145-155 | time and method are recorded and the marker withdrawn, or nothing changes |
| `StepUp.SessionStore.UniversalVerify` | controller/secure_verification.go:85-130 | both branches have exactly the effect of their event, with failing saves |
| `StepUp.SessionStore.RequireSecureVerificationMethod` | controller/passkey.go:569-586 | the gate passes iff the verification is fresh and of the method, and clears an expired one |
| `StepUp.SessionStore.SecureVerificationRequired` | middleware/secure_verification.go:22-78 | the middleware's gate passes iff a verification of any method is fresh, and clears an expired one |
| `StepUp.SessionStore.ClearSecureVerification` | middleware/secure_verification.go:80-84 | clearing withdraws time and method but not the ready marker |
| `RelayRetry.Relay` | controller/relay.go:170-237 | the attempts are exactly those the passes call for, within the exact maximum, and quota is refunded once iff it ends with an error and billing was set |
| `RelayRetry.RelayTask` | controller/relay.go:502-605 | it settles with the quota of the last attempt iff that succeeded, and otherwise refunds once when billing was set |
| `RelayRetry.TryChannels` | controller/relay.go:191-237 | the loop makes the one complete log of attempts and ends without error iff the last one succeeded |
| `RelayRetry.LogIsUnique` | controller/relay.go:325-355 | the passes determine the attempts |
| `RelayRetry.LogIsBounded` | controller/relay.go:518-566 | any sequence of attempts stays in the budget of retries and groups |
| `RelayRetry.FixedGroupBound` | controller/relay.go:191-237 | with a fixed group at most one attempt more than the retries, whatever the errors ask for |
| `RelayRetry.BoundsOf` | controller/relay.go:293-323 | a request that uses its own channel first and selects afterwards makes at most the exact maximum of attempts, and a locked task at most one more than the retries |
| `RelayRetry.MaximumIsReached` | service/channel_select.go:84-163 | that maximum is reached from every group, by every error that asks again while a retry is left, with groups that have a channel for every priority or for none |
| `RelayRetry.RateLimitedReaches` | controller/relay.go:615-655 | in particular by a rate-limited channel, in both loops |
| `RelayRetry.PassUsesBudget` | service/channel_select.go:34-47 | every pass with a channel uses up budget, whether or not the counter is reset |
| `RelayRetry.RetryParam.IncreaseRetry` | service/channel_select.go:34-43 | the counter grows by one unless a reset is pending |
| `RelayRetry.RetryParam.GetChannel` | service/channel_select.go:84-163 | the first group with a channel is taken, and counter, reset mark and group index are set for the next pass |
| `RelayRetry.ChannelFor` | controller/relay.go:293-323 | a given, locked or selected channel, or none |
| `RelayLaws.RequestFollowedIff` | controller/relay.go:325-355 | over every log of a request, which attempts are followed by another one, said of the error, the context, the retries left and the next pass |
| `RelayLaws.SubmissionFollowedIff` | controller/relay.go:615-655 | the same for task submissions: 429 and 307, server errors that are not skipped, and others except 400, 408, successes and local errors |
| `RelayLaws.AutoTakesFirstGroup` | service/channel_select.go:84-163 | an auto token gets a channel iff some group from the current one on has one, from the first such group, and the next pass continues there or starts afresh in the next group |
| `RelayLaws.FixedAsksItsGroup` | service/channel_select.go:84-163 | any other token asks its one group with the number of the retry |

## Left out

- HTTP handlers, request binding, logging, audit records and notifications: no property of their own.
- Payment gateways, signature checks, WebAuthn, one-time codes and OAuth: foreign calls and cryptography.
- Subscription orders, which the Stripe handlers try first under the same order lock: a flag of the job; how the database rounds the fraction of a credited Stripe payment is truncation here.
- Order locks across several server processes: the locks are local to one process.
- Floating-point rounding, the precision of decimal division and 64-bit overflow: reals and unbounded integers.
- The JSON parser of key columns and the regular-expression engine: parameters of the model.
- Vertex AI credentials in append mode: JSON documents in place of lines.
- Task columns that no billing or refund depends on; the other Midjourney columns are two values, compared and not compared.
- JSON arrays and objects as upstream prices: opaque values; local tables hold none.
- The key status page with its filters and the replace mode of key updates: easy members.
- StringOrder.SortedKeys: models the library sort by insertion.
- Conversion of OpenRouter prices: the same shape as the models.dev conversion with less to choose.
- Clean-up of old cache files while stores are open: its effect on the counters is approximate by design.
- The other audio formats: wrappers around third-party parsers.
- Session values of a wrong type: the program only stores integers and the two method names.
- RelayRetry.Relay: does not model the relay handlers themselves, the violation fee, or settings that change during a request.
