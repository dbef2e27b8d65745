# Fleet backend: verified models

This project models the stateful parts of the fleet, fuel and compliance backend and
proves what they keep over whole runs. Database tables are sequences and maps held in a
class; a query is a filter and a sort, and where the database may answer in several ways
(no `ORDER BY`, equal sort keys) the answer is any value that meets a relation. The clock,
provider answers, settings and directories are arbitrary inputs of each step.

`dafny verify dfyconfig.toml` checks everything.

| file | models |
|---|---|
| `Outbox.dfy` | the notification outbox: enqueue under idempotency keys, dispatch passes, retries |
| `OutboxRuns.dfy`, `OutboxDrain.dfy`, `OutboxKeys.dfy`, `OutboxOutcome.dfy`, `OutboxGuards.dfy` | what every run of it keeps: bounds, backoff, at-most-once, drain, keys, order, agreement with settings and preview |
| `OutboxAttempts.dfy` | what one attempt makes of a row, read from its log entries, and how often a row is tried |
| `OutboxRecipients.dfy`, `OutboxWitnesses.dfy` | one success per recipient over every run; two concrete runs that go wrong |
| `ContactDirectory.dfy`, `RecipientResolution.dfy` | who a notification is sent to, and the preview of it; when resolving throws or repeats somebody |
| `DirectoryRecipients.dfy` | who is told of an event, read from contacts and users |
| `FuelBaseline.dfy`, `DashboardAlerts.dfy`, `AlertIds.dfy` | consumption baseline, the loops that raise alerts, alert identifiers |
| `AlertMeaning.dfy` | which alerts the rows of the queries warrant |
| `Polling.dfy` | the alerts of one poll that become outbox candidates |
| `GreedyMatching.dfy`, `PaperChecklist.dfy`, `ChecklistNames.dfy`, `UiKeys.dfy` | assignment of checklist items to the cells of the paper form |
| `DailyChecks.dfy`, `StatusRoundTrip.dfy` | the daily check tables, and a status on its way from driver to office |
| `PasswordReset.dfy`, `PasswordOutcomes.dfy` | reset requests and every operation that writes credentials; when they succeed |
| `VehicleAssignment.dfy`, `DriverAssignments.dfy` | which driver row holds which vehicle; what each operation does to the holdings and when it fails |
| `OdometerIndex.dfy`, `VehicleList.dfy` | the previous odometer merged from two logs, and the list of vehicles it is shown for |
| `OdometerClient.dfy`, `OdometerWitness.dfy` | the client check against it over runs of submissions; two runs that go wrong |
| `FuelPages.dfy` | cursor pagination of fuel entries |
| `Accounts.dfy`, `Common.dfy`, `Sorting.dfy`, `Text.dfy` | shared values and helpers |

## What the models found

The code does not always do what one would expect of it. For each case there is an exact
condition, proved in both directions, and where it helps a concrete run.

- A dispatch pass handles its whole page exactly if no row of it is stuck. A row is stuck if the channel
  is open, the directory is silent, and the custom list holds a null entry, or a text entry that
  is neither a user nor a mail address nor a number of 8 to 15 digits (`PassCompletes`,
  `ResolutionFailsIff`, `PhoneUsableIff`). The settings page stores such entries. With the entry
  label x, value abc, a row for a site without a contact stops every pass of its tenant before
  the tenant's next row, although that row's site has one (`MalformedNumberBlocksQueue`). The
  one caller of the dispatch names a tenant, and such passes leave the rows and the log of other
  tenants alone (`TenantsAreApart`); a pass without a tenant, which the function also offers,
  would stop for them too (`ThrowingHeadBlocksQueue`).
- A resolution repeats a recipient exactly if it falls back to a custom list with two text entries
  for one recipient (`ResolvedDistinctIff`). If no list does, each recipient has at most one
  success per row in every run (`OneSuccessFromEmpty`); one number under two labels has two
  (`RepeatedEntryIsSentTwice`).
- The status of a row after sending depends on the order of the recipients exactly when
  something succeeded and the results mix the stub's name with another provider's
  (`StatusIsOrderFree`). Both providers in the repository report every result under their own
  name, so this takes a provider that is not among them.
- All alert ids are distinct if and only if no two of the day's fills of one vehicle carry
  the same creation time (`AllAlertIdsDistinct`); with equal times both fills are assessed
  as the same, later row.
- The client's check protects a vehicle's newest reading exactly if a vehicle is selected, the list
  offers it, and the newest reading is a fuel reading or has fewer than 500 rivals, rows about
  other things that are at least as new (`LowerMayPassIff`). The list offers a vehicle exactly if
  it is active and fewer than 100 active ones go before it (`ListedIff`). Beyond the list any
  reading passes (`AnyReadingIsTaken`): after 1000 km, 5 km for a vehicle made inactive
  (`UnlistedReadingIsTaken`). Beyond the 500 rows (`NewestInEveryPageIff`, `ForgottenIff`) the
  same happens to a listed one (`LowerReadingIsTaken`). While the check protects the vehicle, accepted
  readings never decrease (`AcceptedReadingsNeverDecrease`).
- Assigning a vehicle fails exactly if the user named is no driver of the tenant, or has no linked
  driver row and none can be made (`AssignFailsIff`); its old driver has lost the vehicle all the
  same (`FailedCallTakesVehicle`, `SupervisorNamedForVehicle`).

## Model

| member | source | states |
|---|---|---|
| Outbox.NotificationOutbox.EnqueueComplianceNotificationCandidates | apps/api/src/services/notification-dispatch.service.ts:304-371 | The loop over the candidates leaves the table as the enqueue function describes it: supported candidates only, status by settings, known keys skipped |
| Outbox.NotificationOutbox.CreateMany | apps/api/src/services/notification-dispatch.service.ts:367-370 | Rows are added one by one unless their key is already present |
| Outbox.NotificationOutbox.FindDue | apps/api/src/services/notification-dispatch.service.ts:446-459 | The page holds distinct due rows, in order of next attempt and creation, at most the limit, and no due row outside precedes one inside |
| Outbox.NotificationOutbox.SendToAll | apps/api/src/services/notification-dispatch.service.ts:557-655 | The recipient loop with its flags appends exactly one log entry per recipient and settles the row by the whole list of results |
| Outbox.NotificationOutbox.ProcessRow | apps/api/src/services/notification-dispatch.service.ts:465-656 | One row through all guards: disabled, channel off, no provider, no recipients, or sent; a resolution error writes nothing |
| Outbox.NotificationOutbox.DispatchPendingNotifications | apps/api/src/services/notification-dispatch.service.ts:442-661 | A pass reads a due page once and has the effect of its attempts in page order up to the first resolution error; it reports the page size or nothing |
| Outbox.NotificationOutbox.ProcessPage | apps/api/src/services/notification-dispatch.service.ts:465-660 | The loop works on the rows as the query read them, yet has the effect of attempts on the current rows, up to the first resolution error |
| OutboxRuns.InsertNewProperties | apps/api/src/services/notification-dispatch.service.ts:367-370 | Existing rows stay as they are, keys stay distinct, each given key is present, and only given rows with new keys were added |
| OutboxRuns.AttemptHasShape | apps/api/src/services/notification-dispatch.service.ts:465-656 | Every attempt counts one up, logs only its own attempt number, leaves PENDING, waits its backoff when retryable, and is final when something succeeded |
| OutboxAttempts.OneEntryPerRecipient | apps/api/src/services/notification-dispatch.service.ts:562-616 | An attempt that sends logs one entry per recipient, in order, each with the address, the attempt number and what the provider answered: message id of a success, error of a failure |
| OutboxAttempts.SendingSettles | apps/api/src/services/notification-dispatch.service.ts:618-655 | Judged by the entries logged: any success gives SENT, or STUBBED if the stub answered last; else a retryable failure gives a retry after 60, 300, 900 or 3600 seconds below the cap and FAILED_PERMANENT at it; else FAILED_PERMANENT with the last error |
| OutboxAttempts.RefusalsAre | apps/api/src/services/notification-dispatch.service.ts:474-555 | An attempt that does not send leaves the status of the first guard that fails on the settings, the provider and the recipients, with one entry that says so; if resolving throws it changes nothing |
| OutboxAttempts.QueuedIff | apps/api/src/services/notification-dispatch.service.ts:447-457 | A row is in a pass's queue if and only if it is pending or retryable, of the tenant, and its next attempt is not in the future |
| OutboxAttempts.LongestWaitingFirst | apps/api/src/services/notification-dispatch.service.ts:458-459 | No row is taken before one that fell due earlier, or at the same time and was created earlier, and none is left out for one |
| OutboxAttempts.DueAgainAfterPause | apps/api/src/services/notification-dispatch.service.ts:618-631 | A row that met only retryable failures is queued again if and only if attempts are left and the pause for its number of attempts is over |
| OutboxAttempts.RetriedUntilTheCap | apps/api/src/services/notification-dispatch.service.ts:442-661 | Over any run, a row that meets only retryable failures has had exactly as many attempts as passes got to it, is in the queue as long as it has had fewer than its maximum, and has failed when it has had that many |
| OutboxRuns.WriteKeepsInv | apps/api/src/services/notification-dispatch.service.ts:618-655 | One processed row keeps the invariant of rows and log together |
| OutboxRuns.EnqueueKeepsInv | apps/api/src/services/notification-dispatch.service.ts:304-371 | Enqueue keeps the invariant |
| OutboxRuns.RunKeepsInv | apps/api/src/services/notification-dispatch.service.ts:442-661 | Every run of enqueues and passes keeps the invariant |
| OutboxRuns.ReachableSafety | apps/api/src/services/notification-dispatch.service.ts:465-656 | In every reachable state: attempts within the cap, retryable rows strictly between 1 and the cap, no success logged for a row still active, all successes of a row in one attempt, and the logged attempt numbers of a row are exactly 1 to its count |
| OutboxRuns.BackoffOverRuns | apps/api/src/services/notification-dispatch.service.ts:269-272 | Two attempts of a row are separated by at least the sum of all backoffs between them, over whole runs |
| OutboxRuns.WaitValues | apps/api/src/services/notification-dispatch.service.ts:17 | Those sums are 60, 360, 1260, 4860 seconds, then an hour for each further attempt |
| OutboxRuns.TerminalRowsAreFinal | apps/api/src/services/notification-dispatch.service.ts:447-459 | A row that is no longer pending or retryable is never written or logged again |
| OutboxRuns.TenantsAreApart | apps/api/src/services/notification-dispatch.service.ts:447-459 | A row is neither written nor logged by any run whose passes name other tenants, whether they complete or throw |
| OutboxRuns.PassUsesAttempts | apps/api/src/services/notification-dispatch.service.ts:618-656 | Every processed row uses up at least one of the attempts left over all active rows |
| OutboxRuns.AttemptsAreBounded | apps/api/src/services/notification-dispatch.service.ts:442-661 | Over any run the processed rows are at most the attempts left at the start plus five per row enqueued meanwhile; without enqueues no row is added |
| OutboxRecipients.OneSuccessFromEmpty | apps/api/src/services/notification-dispatch.service.ts:562-586 | In every run from the empty tables in which no directory's custom list names a recipient twice, each recipient gets at most one successful message per row |
| OutboxRecipients.AllSentOnceIff | apps/api/src/services/notification-dispatch.service.ts:562-586 | If every message of an attempt goes through, each recipient has one success if and only if the resolution repeats nobody |
| OutboxRecipients.OpenGateDistinctIff | apps/api/src/services/notification-dispatch.service.ts:531-537 | The list a row without a recipient of its own is sent to is distinct if and only if the resolution repeats nobody |
| OutboxWitnesses.RepeatedEntryIsSentTwice | apps/api/src/services/contact-directory.service.ts:342-358 | A run from the empty tables in which one phone number under two labels gets two successes for one row |
| OutboxWitnesses.MalformedNumberBlocksQueue | apps/api/src/utils/phone.ts:11-39 | With the custom entry label x, value abc, and a row for a site without a contact at the head of the tenant's queue, no number of the tenant's passes sends its next row, which is due and has a contact |
| OutboxKeys.RawKeyInjective | apps/api/src/services/notification-dispatch.service.ts:293-302 | The hashed text determines tenant, event, record, recipient and date when the separator occurs in none of the first four |
| OutboxKeys.EnqueueIsIdempotent | apps/api/src/services/notification-dispatch.service.ts:343-370 | Enqueueing candidates with known keys again changes nothing, whatever was enqueued and dispatched in between, under any later settings and clock |
| OutboxKeys.RunKeepsKeyed | apps/api/src/services/notification-dispatch.service.ts:343-354 | In every run each row still carries the key of its own record and event |
| OutboxKeys.AtMostTwoRowsPerRecord | apps/api/src/services/notification-dispatch.service.ts:304-371 | However often alerts are polled and dispatched, a record has at most one row per event type, so at most two |
| OutboxKeys.EveryCandidateHasOneRow | apps/api/src/services/notification-dispatch.service.ts:319-370 | After a poll every supported candidate has exactly one row about it: no two candidates collide on a key |
| OutboxOutcome.StatusIsOrderFree | apps/api/src/services/notification-dispatch.service.ts:562-655 | The resulting status is the same for every order of the results if and only if nothing succeeded or the provider names agree on being the stub |
| OutboxOutcome.RowIsOrderFree | apps/api/src/services/notification-dispatch.service.ts:618-655 | With one provider name the whole row depends only on the multiset of results, up to which permanent error is remembered |
| OutboxDrain.ThrowsIffStuck | apps/api/src/services/notification-dispatch.service.ts:468-537 | An attempt throws if and only if the settings let the row through, it has no recipient of its own, and the directory is silent while the custom list has an unusable entry |
| OutboxDrain.PassCompletes | apps/api/src/services/notification-dispatch.service.ts:465-656 | A pass processes its whole page if and only if no row of the page is stuck in that sense |
| OutboxDrain.PassRemovesPage | apps/api/src/services/notification-dispatch.service.ts:618-656 | Seen from any moment within a minute of the pass, exactly the page has left the queue |
| OutboxDrain.SeriesTakesLimitEach | apps/api/src/services/notification-dispatch.service.ts:446-459 | Passes before any new row falls due take the limit each, until nothing is left |
| OutboxDrain.DrainsInCeiling | apps/api/src/services/notification-dispatch.service.ts:442-463 | The queue of n due rows is empty after k such passes if and only if k is at least n / limit rounded up |
| OutboxDrain.ThrowingHeadBlocksQueue | apps/api/src/services/contact-directory.service.ts:326-334 | If the first row of the queue cannot be resolved, no number of passes changes anything |
| OutboxGuards.EnqueueAnticipatesGuards | apps/api/src/services/notification-dispatch.service.ts:474-508 | Under unchanged settings a pending row passes the dispatch guards, a row they would refuse already has the status they would give it, and only the event's own switch is judged by enqueue alone |
| OutboxGuards.NewRowStatusIff | apps/api/src/services/notification-dispatch.service.ts:281-330 | A new row is SKIPPED_DISABLED if and only if settings are missing, notifications are off, or the switch of its own event is off; else SKIPPED_NOT_CONFIGURED if and only if the channel is off; else PENDING |
| OutboxGuards.NewRowsAre | apps/api/src/services/notification-dispatch.service.ts:319-366 | Every row a batch adds is one of a supported candidate, with that candidate's event, record, site and message, no attempts, five allowed, due at once |
| OutboxGuards.SwitchesAreSeparate | apps/api/src/services/notification-dispatch.service.ts:281-291 | Changing the switch of one event changes no row of a batch about the other |
| OutboxGuards.CandidateKeysIff | apps/api/src/services/notification-dispatch.service.ts:293-302 | Two candidates of a tenant share a key if and only if alert type, record and day are the same |
| OutboxGuards.EnqueuedRowSendsToPreview | apps/api/src/services/alerts.service.ts:1268-1287 | The row enqueued for a candidate is sent to exactly what is previewed for the candidate's site, has no recipients or throws exactly if the preview is empty or fails |
| ContactDirectory.ResolveDirectoryPreview | apps/api/src/services/contact-directory.service.ts:390-476 | The map filled in the loop yields the first eligible contact per destination |
| ContactDirectory.OrderedPermutation | apps/api/src/services/contact-directory.service.ts:418-436 | The query answer is the selected contacts, ordered by role and creation |
| ContactDirectory.FirstWins | apps/api/src/services/contact-directory.service.ts:438-469 | The items are exactly, and in order, the contacts that are the first eligible one with their destination, so no destination repeats |
| ContactDirectory.EveryDestinationCovered | apps/api/src/services/contact-directory.service.ts:439-469 | The destination of every selected, eligible contact is among the recipients (see the next two rows for what these words mean) |
| DirectoryRecipients.DirectoryNamesIff | apps/api/src/services/contact-directory.service.ts:398-469 | An address is among the recipients if and only if it is the phone, or without a phone the mail address, of an active contact of the tenant who is to hear of the event: of the site or of no site (a supervisor of the site), custom contacts and drivers only for compliance |
| DirectoryRecipients.ContactCoveredIff | apps/api/src/services/contact-directory.service.ts:451-455 | Such a contact is reached if and only if the phone is not empty, or is missing while the mail address is not empty |
| DirectoryRecipients.RecipientsByRole | apps/api/src/services/contact-directory.service.ts:435 | Recipients come in the order of the database's roles: supervisors, transport managers, head office, custom, tenant administrators, safety officers |
| DirectoryRecipients.FallbackUsersIff | apps/api/src/services/contact-directory.service.ts:361-387 | With a silent directory and no custom list exactly these users are told: active site supervisors of the tenant, or all active staff, and for compliance the drivers too |
| DirectoryRecipients.NobodyTold | apps/api/src/services/contact-directory.service.ts:338-345 | Nobody is told without a directory answer and settings, nor by a custom list for anything but compliance or one that is no list |
| DirectoryRecipients.EntryStandsFor | apps/api/src/services/contact-directory.service.ts:326-334 | An entry of a custom list stands for the user as written, the mail address trimmed and in lower case, or the number of its digits |
| DirectoryRecipients.PreviewSourceIs | apps/api/src/services/contact-directory.service.ts:525-596 | The preview names the directory as its source if and only if it answers, and the settings, as a fallback, if and only if it does not and they name somebody |
| ContactDirectory.DirectoryAnswer | apps/api/src/services/contact-directory.service.ts:478-496 | A non-empty directory answer passes unchanged through the second map into the dispatch |
| ContactDirectory.PreviewEqualsDispatch | apps/api/src/services/contact-directory.service.ts:513-596 | For every directory, settings, event and site the preview lists what a row carrying that site is sent to, fails when dispatch fails, and names no source if and only if it is empty |
| ContactDirectory.ItemsAreOwnContacts | apps/api/src/services/contact-directory.service.ts:398-468 | Every item is an active contact of the tenant under its own name and role, reached at its phone or, without one, its mail address; a driver's only for events drivers may hear of |
| ContactDirectory.SupervisorsOnlyOfTheSite | apps/api/src/services/contact-directory.service.ts:440-445 | A site supervisor is listed for a site only if assigned to it |
| RecipientResolution.PhoneUsableIff | apps/api/src/utils/phone.ts:11-39 | A number is accepted if and only if it is not blank and stands for 8 to 15 digits without a leading zero |
| RecipientResolution.CustomFailsIff | apps/api/src/services/contact-directory.service.ts:342-358 | A custom list throws if and only if an entry is null, or a text entry that is neither a user nor a mail address nor a usable number |
| RecipientResolution.DirectoryAnswersIff | apps/api/src/services/contact-directory.service.ts:390-476 | The directory names somebody if and only if some contact is selected for event and site and can be reached |
| RecipientResolution.ResolutionFailsIff | apps/api/src/services/contact-directory.service.ts:478-511 | Resolving throws if and only if the directory is silent and the tenant's custom list, used for this event, has an unusable entry |
| RecipientResolution.ResolvedDistinctIff | apps/api/src/services/contact-directory.service.ts:478-511 | A successful resolution has distinct recipients if and only if it does not fall back to a custom list with two text entries for one recipient |
| FuelBaseline.BuildBaselinePoints | apps/api/src/services/alerts.service.ts:93-124 | The loop yields the last five qualifying consecutive pairs |
| FuelBaseline.BaselineMissingIffFewPoints | apps/api/src/services/alerts.service.ts:101-134 | Points span at least 25 km, at most five are kept, and there is no baseline if and only if fewer than three pairs qualify: the exit for no distance is never taken |
| FuelBaseline.SampleIsTheLastFive | apps/api/src/services/alerts.service.ts:93-124 | The sample is exactly the last five, in order, of the consecutive fills with known odometers 25 km or more apart, each with the litres of the second fill and the distance between them |
| FuelBaseline.BaselineBetweenRates | apps/api/src/services/alerts.service.ts:126-138 | The baseline of any list of moving points lies between the smallest and largest rate of a point |
| FuelBaseline.HighLitersIsDeviation | apps/api/src/services/alerts.service.ts:1050-1072 | Expected litres are positive whenever present; litres against distance is the deviation test at 40 percent, its HIGH grade at 80 |
| FuelBaseline.ConstantRateBaseline | apps/api/src/services/alerts.service.ts:126-138 | A constant rate over the sampled points is the baseline |
| FuelBaseline.ConstantRateNeverAlerts | apps/api/src/services/alerts.service.ts:1048-1121 | If the sampled points, and the current fill when it spans 25 km or more, follow one positive rate, the deviation is exactly zero and no consumption alert is raised |
| DashboardAlerts.CollectAlerts | apps/api/src/services/alerts.service.ts:530-1245 | The loops together push exactly the alerts of compliance, missing checks, checklist issues, skippers, entries and anomalies |
| AlertMeaning.AlertsAreWarranted | apps/api/src/services/alerts.service.ts:530-1245 | An alert is in the list if and only if the rows warrant it with that grade, record and time: an expiry before today or from today on; an active vehicle without a check after the cutoff; a check with issues, with a required one, of a vehicle with two such days; a frequent skipper; a missing receipt, a fallback, an approved source, more than 120 litres; a fill within two hours or 30 km, and consumption 40 or 80, 35 or 60 percent off the sample's litres per kilometre; and the combinations of these factors |
| AlertMeaning.HistoryIs | apps/api/src/services/alerts.service.ts:979-985 | A fill is judged among the vehicle's rows up to its own time |
| AlertMeaning.TestsAre | apps/api/src/services/alerts.service.ts:1048-1072 | The four consumption tests compare the fill with the sample without any division: litres times the sample's kilometres against the sample's litres times the kilometres driven |
| DashboardAlerts.CollectAnomalies | apps/api/src/services/alerts.service.ts:979-1245 | The anomaly loop pushes for each of the day's fills the alerts of its own history |
| DashboardAlerts.GroupByVehicle | apps/api/src/services/alerts.service.ts:962-977 | The map holds for each vehicle its rows of the lookback in order, and nothing for other vehicles |
| DashboardAlerts.HighLitersImpliesDeviationAlert | apps/api/src/services/alerts.service.ts:1065-1125 | Of one fill, a high-litres alert comes with a deviation alert, HIGH with HIGH, and all anomaly alerts name one record |
| AlertIds.HighLitersAlertsComeInPairs | apps/api/src/services/alerts.service.ts:979-1172 | In the whole alert list every high-litres alert has a deviation alert on the same record, HIGH with HIGH |
| DashboardAlerts.HighRiskMeans | apps/api/src/services/alerts.service.ts:1174-1200 | A high-risk alert is raised if and only if the deviation is abnormal with two more factors, or all four others hold; so at least three of five |
| AlertIds.ScanFindsPredecessor | apps/api/src/services/alerts.service.ts:979-990 | The assessed row is the fill itself if and only if no later row of the vehicle has its time; then the previous row is its immediate predecessor |
| AlertIds.IdsTellAlertsApart | apps/api/src/services/alerts.service.ts:63-65 | Two alerts share an id if and only if they share type and record |
| AlertIds.DistinctTimesSuffice | apps/api/src/services/alerts.service.ts:979-1245 | With distinct times per vehicle no two anomaly alerts share type and record |
| AlertIds.EqualTimesRepeat | apps/api/src/services/alerts.service.ts:981-1004 | Two fills of a vehicle at one time are reported twice under one id |
| AlertIds.AllAlertIdsDistinct | apps/api/src/services/alerts.service.ts:530-1245 | All ids of all alerts of all loops are distinct if and only if no two of the day's fills of a vehicle share their time |
| Polling.PollsCarryCreationTimes | apps/api/src/services/alerts.service.ts:1268-1287 | Whatever the sort order, every candidate of a poll is a compliance record under its own creation time |
| Polling.PollNotifiesIff | apps/api/src/services/alerts.service.ts:1268-1287 | A poll enqueues a record as expired if and only if a document of it expired before today, and as expiring soon if and only if one has a date from today on; nothing else |
| Polling.NewRowsAreWarranted | apps/api/src/services/alerts.service.ts:1268-1290 | A row that a poll adds is about such a document, as its event says |
| Polling.PolledRecordsHaveTwoRows | apps/api/src/services/alerts.service.ts:1268-1290 | In every run whose enqueues are polls of any dashboards, a compliance record of a tenant has at most one row per event type, so at most two |
| GreedyMatching.FindIndex | packages/shared/ui/paper-checklist-renderer.tsx:218-221 | The first place that matches, or none if nothing does |
| GreedyMatching.GreedyIsStable | packages/shared/ui/paper-checklist-renderer.tsx:216-247 | No slot and matching item exist where the slot is empty or holds a later item while the item is left over or in a later slot; an item is left over if and only if no slot holds it |
| GreedyMatching.GreedyKeepsItems | packages/shared/ui/paper-checklist-renderer.tsx:213-247 | Held and left-over items together are the master list as a multiset |
| GreedyMatching.StableIsUnique | apps/driver-pwa/components/driver-daily-check.tsx:562-609 | Two assignments without a blocking pair agree on every slot |
| GreedyMatching.GreedyIsTheOnlyStable | apps/driver-pwa/components/driver-daily-check.tsx:562-609 | An assignment has no blocking pair if and only if it is the greedy one: a second implementation that leaves none gives the same map from codes to cells |
| PaperChecklist.BuildPaperItems | packages/shared/ui/paper-checklist-renderer.tsx:211-247 | The nested loops with findIndex, splice and push give the slots in template order with the items assigned to them, then the extras |
| PaperChecklist.FillGroup | apps/driver-pwa/components/driver-daily-check.tsx:571-591 | One group continues the assignment from what earlier groups left |
| PaperChecklist.SlotsAreDistinct | packages/shared/ui/paper-checklist-renderer.tsx:51-187 | The template lists 32 different slots |
| PaperChecklist.LayoutShows | packages/shared/ui/paper-checklist-renderer.tsx:189-201 | The rows show every slot once, except the fuse box, the toolbox and the controls |
| PaperChecklist.ItemOfSlot | packages/shared/ui/paper-checklist-renderer.tsx:249-254 | Looking a slot up by its key finds the item the assignment gave it, never an extra |
| ChecklistNames.NameWithWordFits | packages/shared/ui/paper-checklist-renderer.tsx:203-221 | An item fits a cell if its name contains one of the cell's words, in upper or lower case, whatever stands before and after it |
| ChecklistNames.FittingNameHoldsWord | packages/shared/ui/paper-checklist-renderer.tsx:218-221 | An item that fits holds every character of one of the cell's words |
| ChecklistNames.CellTellsItem | packages/shared/ui/paper-checklist-renderer.tsx:223-233 | A cell is configured if and only if it holds an item, which fits it, and then required and coded as that item is |
| ChecklistNames.FormEndsWithLeftovers | packages/shared/ui/paper-checklist-renderer.tsx:236-247 | After the 32 cells come the left-over items in order, each under its own code and required as the master list says |
| PaperChecklist.CellsAreSound | packages/shared/ui/paper-checklist-renderer.tsx:256-268 | The configured visible cells are exactly the visible slots that hold an item with a code, under different keys and, for different master codes, different codes |
| UiKeys.UiTextInjective | packages/shared/ui/paper-checklist-renderer.tsx:207-209 | The text key of a cell determines the cell |
| DailyChecks.DailyCheckTables.CreateDailyCheck | apps/api/src/services/daily-checklist.service.ts:52-116 | Errors in the source's order, else the upsert on tenant, vehicle and date |
| DailyChecks.DailyCheckTables.SubmitDailyCheck | apps/api/src/services/daily-checklist.service.ts:118-181 | Errors change nothing; else every item is upserted and the check is submitted |
| DailyChecks.CreateIsIdempotent | apps/api/src/services/daily-checklist.service.ts:88-113 | Creating a check again for the same vehicle and day finds the same one and changes nothing |
| DailyChecks.CreateLeaves | apps/api/src/services/daily-checklist.service.ts:52-116 | A foreign vehicle, driver or site is refused in this order; else the check of that vehicle and day is found, taking over driver and site if given, or made as a draft at the site given or the vehicle's; no other check and no item changes |
| DailyChecks.SubmitLeaves | apps/api/src/services/daily-checklist.service.ts:118-181 | A submission fails if and only if the check is not the tenant's or a code is unknown, changing nothing; else that check is submitted and no other check, and no item of another, changes |
| DailyChecks.UpsertedItem | apps/api/src/services/daily-checklist.service.ts:148-169 | After a submission each code of that check has the last status given for it; all else is as before |
| DailyChecks.StepKeepsInv | apps/api/src/services/daily-checklist.service.ts:88-113 | Each create or submit keeps: one check per tenant, vehicle and day, items only on submitted checks; a check keeps its identity and stays submitted |
| DailyChecks.RunKeepsInv | apps/api/src/services/daily-checklist.service.ts:146-178 | The same over every run |
| DailyChecks.CountsAgreeIff | apps/api/src/services/alerts.service.ts:324-343 | The counts with and without the filter on SUBMITTED agree for every tenant, scope and date if and only if no draft has an item marked not OK |
| DailyChecks.CountsAgreeAfterAnyRun | apps/api/src/services/daily-checklist.service.ts:275-293 | The list page and the alerts show the same repeated-issue counts after every run |
| DailyChecks.CountIsDays | apps/api/src/services/alerts.service.ts:324-343 | After any run the repeated-issue count of a vehicle is the number of days of the week ending with the anchor on which a submission in scope marked something not OK, at most seven, and absent if there is none |
| StatusRoundTrip.BuildPayload | apps/driver-pwa/components/driver-daily-check.tsx:807-824 | The loop sends the answered configured cells in order, photos only for issues |
| StatusRoundTrip.StatusByUiKey | apps/admin-web/components/tenant-daily-check-details-page.tsx:44-61 | The two loops show for each detail the cell its code maps to |
| StatusRoundTrip.ViewAt | apps/admin-web/components/tenant-daily-check-details-page.tsx:48-60 | A cell is shown if and only if the details name its code, with that status |
| StatusRoundTrip.PayloadAt | apps/driver-pwa/components/driver-daily-check.tsx:807-824 | The payload holds an entry for a cell's code if and only if the cell is answered |
| StatusRoundTrip.AnswersAreStored | apps/driver-pwa/components/driver-daily-check.tsx:807-824 | After a submission the item of each answered cell is stored as NOT_OK for an issue and OK for a pass, with the notes trimmed and the photo only for an issue |
| StatusRoundTrip.IssueIsCounted | apps/api/src/services/daily-checklist.service.ts:146-178 | An issue the driver reports makes its day count for every reader who sees the check |
| StatusRoundTrip.StatusSurvives | apps/driver-pwa/components/driver-daily-check.tsx:388-390 | Encoding a status for the API and decoding it in the office gives it back |
| StatusRoundTrip.DetailsExist | apps/api/src/services/daily-checklist.service.ts:410-418 | Every check has a details response that lists each of its codes once |
| StatusRoundTrip.SubmissionOverlays | apps/api/src/services/daily-checklist.service.ts:146-178 | Submitting lays the answered cells over what the office saw before and touches no other cell |
| StatusRoundTrip.RoundTrip | apps/admin-web/components/tenant-daily-check-details-page.tsx:44-61 | On a fresh check the submission succeeds, details exist, and whatever details it has show the office exactly the driver's answers on exactly the same visible cells |
| StatusRoundTrip.AnswersReturnIff | apps/admin-web/components/tenant-daily-check-details-page.tsx:44-61 | For cells under different keys that have codes, every set of answers comes back on its own cells and no others if and only if the codes differ |
| StatusRoundTrip.MasterCellsAreDistinct | apps/api/prisma/schema.prisma:735-748 | The configured cells of a master list whose codes differ, as its primary key makes them, are under different keys with different codes: the condition always holds |
| PasswordReset.CredentialTables.RequestTenantPasswordReset | apps/api/src/services/auth.service.ts:220-276 | A blank identifier changes nothing; else one pending request is appended, linked to an active match of the tenant if there is one |
| PasswordReset.CredentialTables.ApprovePasswordResetRequest | apps/api/src/services/password-reset-requests.service.ts:137-279 | Errors in the source's order change nothing; else user hash, auth row, driver row and request change together for the linked or matched user |
| PasswordReset.CredentialTables.RejectPasswordResetRequest | apps/api/src/services/password-reset-requests.service.ts:281-340 | Only a pending request of the tenant with a reason is rejected, and nothing else changes |
| PasswordReset.CredentialTables.ChangeTenantStaffPassword | apps/api/src/services/auth.service.ts:113-195 | With the current password the new hash is written without force, and all approved requests of the user are completed |
| PasswordReset.CredentialTables.ResetMasterDriverPassword | apps/api/src/services/master-data.service.ts:721-820 | Guards in the source's order, then the new hash is written with force |
| PasswordReset.CredentialTables.ResetSupportTenantUserAccount | apps/api/src/services/platform-support.service.ts:533-596 | Tenant and user must exist, then the new hash is written with force |
| PasswordReset.CredentialTables.WritePassword | apps/api/src/services/password-reset-requests.service.ts:197-232 | User, auth row and one linked driver row, if any is linked, carry the new hash |
| PasswordReset.StepKeepsInv | apps/api/src/services/password-reset-requests.service.ts:149-245 | Every operation keeps the invariant, and a status changes only from pending to approved or rejected, or from approved to completed |
| PasswordReset.RunKeepsInv | apps/api/src/services/auth.service.ts:146-195 | In every run an approved request has a user of its tenant who must change the password, every auth row carries its user's hash, and statuses only move forward |
| PasswordReset.CompletedWasApproved | apps/api/src/services/password-reset-requests.service.ts:162-164 | A request that ends completed was approved at some moment of the run |
| PasswordReset.CompletedOnlyByItsUser | apps/api/src/services/auth.service.ts:184-194 | A step completes a request if and only if it is approved and its own active user changes the password in its tenant with the right current one |
| PasswordReset.SignInForcesChange | apps/api/src/services/auth.service.ts:44-48 | After any run the user of an approved request cannot sign in without being told to change the password |
| PasswordReset.LastPasswordSignsIn | apps/api/src/services/auth.service.ts:20-48 | After any run a sign-in is refused if no active user of the tenant has the e-mail or user name entered; else, of the user found (one present before the run), exactly the last password written signs in, forced or not as its writer asked, and resets of others never touch it |
| PasswordReset.ApprovalSucceedsIff | apps/api/src/services/password-reset-requests.service.ts:158-195 | An approval succeeds if and only if the actor may govern requests, the request is pending in the tenant, and it is linked or an active user matches |
| PasswordOutcomes.RequestIsLinked | apps/api/src/services/auth.service.ts:228-262 | A request with an identifier is stored as pending for an active user of the tenant with that e-mail address or user name, and for nobody if and only if there is none; nothing else changes |
| PasswordOutcomes.ApprovalResetsItsUser | apps/api/src/services/password-reset-requests.service.ts:158-245 | Approving a request gives the user it was linked to the new password, to be changed at the next sign-in, whoever goes by the identifier now; no other user changes |
| PasswordOutcomes.ApprovalFaults | apps/api/src/services/password-reset-requests.service.ts:137-195 | Each error of an approval occurs if and only if its own fault is the first: no governor, no request of the tenant, not pending, nobody linked or matching; and then nothing changes |
| PasswordOutcomes.RejectionIs | apps/api/src/services/password-reset-requests.service.ts:281-340 | A rejection succeeds if and only if a governor gives a reason for a pending request of the tenant, and closes only that one |
| PasswordOutcomes.ChangeIs | apps/api/src/services/auth.service.ts:113-195 | A user changes the password if and only if active in the tenant and with the present one, and need not change it again |
| PasswordOutcomes.ManagerResetsIff | apps/api/src/services/master-data.service.ts:721-820 | A manager resets a password if and only if the whole tenant is in view and the user is on the driver pages, a transport manager any, other managers all but tenant administrators |
| PasswordOutcomes.SupportResetsIff | apps/api/src/services/platform-support.service.ts:533-596 | Support resets a password if and only if the tenant exists and the user is of it |
| PasswordOutcomes.HashesFollow | apps/api/src/services/password-reset-requests.service.ts:197-232 | With every new password the auth row and the driver row picked, linked by user name or employee number, carry the user's hash, and no other driver row changes |
| VehicleAssignment.FleetTables.GetDriverProjectionForUser | apps/api/src/services/master-data.service.ts:100-115 | The newest driver row linked by user name or employee number, none if and only if none is linked |
| VehicleAssignment.FleetTables.EnsureDriverProjection | apps/api/src/services/master-data.service.ts:117-145 | The newest linked row, else a new one if the user has a name and the unique indexes allow it |
| VehicleAssignment.FleetTables.SetDriverVehicleAssignment | apps/api/src/services/master-data.service.ts:238-288 | The linked row takes the vehicle or none, after its present holder, or the old vehicle, was cleared |
| VehicleAssignment.FleetTables.AssignVehicleToDriverUser | apps/api/src/services/master-data.service.ts:1017-1068 | The vehicle is cleared first; then the driver checks may fail; else the linked row takes it |
| VehicleAssignment.FleetTables.CreateDriver | apps/api/src/services/master-data.service.ts:415-541 | User, driver row and assignment are written one after another, each error keeping what came before it |
| VehicleAssignment.FleetTables.UpdateDriver | apps/api/src/services/master-data.service.ts:543-719 | User, driver row keys and assignment are updated one after another, each error keeping what came before it |
| VehicleAssignment.FleetTables.CreateVehicle | apps/api/src/services/master-data.service.ts:946-995 | The vehicle is created, then assigned if a driver is named |
| VehicleAssignment.FleetTables.UpdateVehicle | apps/api/src/services/master-data.service.ts:1070-1162 | The vehicle must be of the tenant; it is reassigned only if a driver field is given |
| VehicleAssignment.ReassignMoves | apps/api/src/services/master-data.service.ts:255-287 | A reassignment changes the named row, and of the others only the holder of the new vehicle |
| VehicleAssignment.OneVehicleMoves | apps/api/src/services/master-data.service.ts:255-287 | Of all held vehicles only the driver's old one is freed and only the new one is taken |
| DriverAssignments.SetAssignmentTakes | apps/api/src/services/master-data.service.ts:238-288 | Setting a driver's vehicle makes the newest linked row, or a new one, hold it alone, or nothing; of the others only its former holder loses it; it fails if and only if no row is linked and none can be made |
| DriverAssignments.NewDriverTakes | apps/api/src/services/master-data.service.ts:415-541 | Creating a driver fails if and only if the input has a fault, the first one reported, and then changes nothing; else the user is stored and a driver's row takes the vehicle, or none |
| DriverAssignments.EditDriverTakes | apps/api/src/services/master-data.service.ts:543-719 | An edit fails if and only if the input has a fault or the driver row clashes with another, and then no driver row changes; else the user is stored, and the row takes the vehicle given or none, or nobody moves if none is mentioned |
| DriverAssignments.EnsureIs | apps/api/src/services/master-data.service.ts:117-145 | The newest row linked by user name or employee number, else a new one without a vehicle; a failure if and only if an empty employee number is taken |
| VehicleAssignment.AssignFailsIff | apps/api/src/services/master-data.service.ts:1032-1060 | The call fails if and only if it names a user who is no driver of the tenant, or has no linked row while none can be made: no user name, or an empty employee number already taken |
| VehicleAssignment.AssignVehicleHolders | apps/api/src/services/master-data.service.ts:1022-1068 | Nobody holds the vehicle afterwards if and only if nobody or such a user was named; else one row, linked to the user, does |
| DriverAssignments.VehicleStepNames | apps/api/src/services/master-data.service.ts:946-1162 | Creating a vehicle, or editing one with a driver field, leaves it with the named driver's row alone, or with nobody if none or one who cannot hold it is named; any other edit changes nothing |
| VehicleAssignment.FailedCallTakesVehicle | apps/api/src/services/master-data.service.ts:1022-1049 | A driver who held the vehicle loses it to a call that names such a user and fails |
| VehicleAssignment.SupervisorNamedForVehicle | apps/api/src/services/master-data.service.ts:1156-1162 | A concrete update that names a supervisor: it fails, and the vehicle's driver is left without it |
| VehicleAssignment.RunKeepsInv | apps/api/src/services/master-data.service.ts:238-288 | In every run no vehicle is held twice, each held vehicle is of its driver's tenant, no two rows of a tenant share a key, and vehicles keep their tenant |
| VehicleAssignment.OneHolder | apps/api/src/services/master-data.service.ts:1017-1068 | After any run from empty tables a vehicle has at most one holder |
| VehicleAssignment.StepFrame | apps/api/src/services/master-data.service.ts:669-702 | A step, failing or not, changes the vehicle of no row but those its queries picked or created and the old holder of its vehicle |
| VehicleAssignment.KeepsVehicle | apps/api/src/services/master-data.service.ts:238-288 | A driver keeps a vehicle, alone, through any run that neither picks the driver nor names the vehicle |
| OdometerIndex.PreviousOdometers | apps/api/src/routes/driver.ts:58-138 | The two loops that fill maps, one skipping what is present, and the merge give each vehicle the later of its two entries |
| OdometerIndex.FuelSide | apps/api/src/routes/driver.ts:61-82 | The fuel map holds the newest fuel reading of a vehicle, whichever of equal rows the database picks |
| OdometerIndex.ChecklistSide | apps/api/src/routes/driver.ts:85-118 | The checklist map holds the newest reading of a vehicle among the page of audit rows |
| OdometerIndex.PreviousIsNewest | apps/api/src/routes/driver.ts:120-138 | The answer is the newest reading of the combined log, fuel winning ties, and none if and only if there is none |
| OdometerIndex.InEveryPageIff | apps/api/src/routes/driver.ts:86-97 | A row is in every page the query may answer if and only if fewer than 500 other matching rows are at least as new |
| OdometerIndex.ForgottenIff | apps/api/src/routes/driver.ts:86-97 | A row is in no page if and only if 500 matching rows are newer |
| OdometerIndex.NewestInEveryPageIff | apps/api/src/routes/driver.ts:86-118 | A newest reading that only the audit log holds is in every page if and only if fewer than 500 matching rows about anything else are at least as new |
| OdometerIndex.KeptIsShown | apps/api/src/routes/driver.ts:58-138 | The index holds the newest reading of a listed vehicle whenever that is a fuel reading or has fewer than 500 rivals, however many rows the tenant has |
| OdometerIndex.UnkeptMayShowLower | apps/api/src/routes/driver.ts:85-138 | If neither holds, and the newest reading exceeds the earlier ones, some answer of the database makes the index hold a lower reading or none |
| VehicleList.ListedIff | apps/api/src/routes/driver.ts:44-56 | The list offers a vehicle if and only if it is active and fewer than 100 active vehicles of the tenant have a smaller fleet number |
| OdometerClient.ErrorsAre | apps/driver-pwa/lib/odometer-workflow.ts:24-40 | A reading passes if and only if it is a number, not negative and not below what is shown; each error has exactly its own cause |
| OdometerClient.ClientShowsIff | apps/driver-pwa/lib/odometer-workflow.ts:6-15 | For a selected vehicle that is listed the client shows what the index holds; for any other, and for none, it shows nothing, and it always shows something the database may answer |
| OdometerClient.RefreshShowsCurrent | apps/driver-pwa/lib/odometer-workflow.ts:6-15 | If a vehicle is selected, listed and its newest reading kept, a refresh shows that reading |
| OdometerClient.LowerMayPassIff | apps/driver-pwa/lib/odometer-workflow.ts:6-40 | For a vehicle whose newest reading is positive and exceeds the earlier ones, a lower reading may pass if and only if no vehicle is selected, or it is not listed, or its newest reading is not kept |
| OdometerClient.AnyReadingIsTaken | apps/driver-pwa/lib/odometer-workflow.ts:10-15 | With no vehicle selected, or one that is not listed, nothing is shown and every reading is taken, whatever was read before |
| OdometerClient.AcceptedAtLeast | apps/driver-pwa/lib/odometer-workflow.ts:24-40 | Once a reading is the newest of a vehicle, no later one taken while the check protects the vehicle is lower |
| OdometerClient.AcceptedReadingsNeverDecrease | apps/driver-pwa/lib/odometer-workflow.ts:24-40 | For a client that refreshes after each submission, readings of a vehicle taken while it is selected, listed and its newest reading kept never decrease, whatever is read of other vehicles and whatever others add about them |
| OdometerWitness.LowerReadingIsTaken | apps/driver-pwa/lib/odometer-workflow.ts:24-40 | A run in which, after 500 checks of another vehicle, a reading of 5 km passes the check although 1000 km was accepted before |
| OdometerWitness.NotKept | apps/api/src/routes/driver.ts:86-97 | In that run the newest reading was not kept when the lower one was taken; nothing else is wrong with it, as the vehicle is listed and the others' rows spare it |
| OdometerWitness.UnlistedReadingIsTaken | apps/api/src/routes/driver.ts:44-56 | A run in which a reading of 5 km passes the check for a vehicle made inactive after 1000 km was accepted for it, although that reading is kept |
| FuelPages.NewestFirstSorts | apps/api/src/services/fuel.service.ts:249 | The order by creation and id, both descending, is a permutation and strict for distinct ids |
| FuelPages.NextStart | apps/api/src/services/fuel.service.ts:245-269 | There is a next cursor if and only if more than the limit is left, and it starts the next page where this one ended |
| FuelPages.PagesCoverRest | apps/api/src/services/fuel.service.ts:245-269 | From any cursor the pages together are the rest of the list |
| FuelPages.PagesAreTheSelection | apps/api/src/services/fuel.service.ts:192-270 | Following the cursor of the listing gives every wanted row once, newest first, in max(1, ceil(n / limit)) pages |
| FuelPages.PagesHoldAsked | apps/api/src/services/fuel.service.ts:192-270 | The pages hold exactly the entries of the tenant that the reader may see and that meet every filter given, the newest first and of one time the larger id first |

## Left out

- Routing, request schemas, tokens, hashing itself, file upload, the call to the message provider, React rendering and local storage.
- Concurrent dispatchers and crashes between a delivery log entry and the row update: the code takes no lock, the outbox claims are for passes one after another.
- sha256 is taken as injective, a password hash as a value that remembers its password; no hash collides.
- Row identifiers are places in a growing sequence or names given by the caller, and identifiers of fuel entries are numbers whose order stands for the order of UUIDs; fleet numbers are numbers whose order stands for the database's order of texts.
- The clock of the database and the clock of the service are one clock, and it does not run backwards within a pass.
- Floating-point rounding: litres, rates and percentages are exact reals.
- Rows with equal sort keys in the contact query keep the table's order; every other unordered query may answer in any way.
- Lower-casing is exact on the characters whose lower-case form contains an ASCII letter and leaves all others alone.
- Alert texts, labels, icons and links, the sort and the query filters of the alert list, and the window of the queries that feed the loops, which are inputs.
- `updateSupportTenantUser` writes a vehicle without releasing it elsewhere, so it is no step of the assignment model; its user edits are covered by the profile step of the credential model.
- The rule that counts site rows at sign-in, and updates that give both `site_id` and `site_ids`.
- Checks of names, roles and sites in the driver and vehicle operations that run before any write: a call they refuse changes nothing.
- Vehicle fields other than the tenant, and the unique indexes on fleet and plate numbers.
- Audit rows, except the ones the odometer index reads.
- Identifiers of new driver rows and vehicles are not in use before.
- Onboarding import (it writes user and auth hash together with force, like the resets), the operator assistant, dashboard formatting.
- Fallback submissions of the driver app, and readings that are not whole kilometres.
- Multi-step effects of the draft in the driver app (marking all as OK, notes, photos) beyond the payload they end in.
- The vehicle that a checklist without a selected one is stored for is an input; the code takes the driver's assigned vehicle.
- OdometerClient.LowerMayPassIff: where an earlier reading is as high as the newest, a refresh that misses the newest may show that one, so the condition then only suffices for the protection.
- OdometerClient.AcceptedReadingsNeverDecrease: one client at a time; what others add must not be readings of the vehicle.
- OutboxRecipients.OneSuccessFromEmpty: de-duplication by the message provider, to which the key and the recipient are passed, is not modelled.
- StatusRoundTrip.RoundTrip: the request schema wants at least one item, so a submission without any answered cell is refused before the operation modelled here.
- PasswordReset.LastPasswordSignsIn: a user created during the run is not covered, as the first password comes with the profile.
- AlertIds.AllAlertIdsDistinct: assumes both fuel queries of one dashboard see the same rows of a fill, the lookback in order of creation, and each table's rows under different ids.
- OutboxKeys.EveryCandidateHasOneRow: assumes tenant and record identifiers without the separator `|`, as UUIDs are.
- OutboxDrain.DrainsInCeiling: for passes within one minute in which no other row falls due, so before any new backoff can expire.
