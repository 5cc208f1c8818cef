# Monitoring engine, log buffer, route guard and storage keys — a Dafny model

This project models the core of a multi-tenant business web application and proves properties of it:

- **The monitoring and alerting engine** (`MonitoringService`, lib/monitoring.ts), in `monitoring.dfy`. It covers:
  - the rule registry, seeded with the four default rules;
  - the evaluator, which takes a window of at most ten samples, newest first, averages their values and compares the mean with the threshold;
  - the alert lifecycle: trigger under a cooldown, resolve, acknowledge;
  - the notification fan-out over the channels, retention cleanup and the start/stop flag;
  - the metric and alert-history queries and the status counts.

  The engine is a class whose fields are the rule map, the map of open alerts, and the metric and alert tables, all held as sequences in insertion order. Each method is proved against pure specification functions (`Step`, `EvaluateAll`, `Retained`, …), and the lemmas are stated about those functions.
- **The log buffer** (`Logger`, lib/logging.ts), in `logging.dfy`. It covers the level filter, appending with a flush at 100 entries, the flush and its put-back on failure, the query (filter chain, sort and page), the statistics and child loggers.
- **The request guard** (`middleware`, middleware.ts), in `middleware.dfy`. It covers token extraction, route classification, the two redirects and the forwarding of the user's id and e-mail as headers.
- **The storage key builders** (`generateKey` and `generateJobOutputKey`, lib/storage.ts), in `storage.dfy`. Strings there are sequences of UTF-16 code units, because that is what the regular expression works on.

`common.dfy` holds the shared collection helpers: filter, stable descending sort, take, slice, "top n", and the sum of a map's values.

Time is an integer number of milliseconds, and metric values and thresholds are reals. The following are all parameters:
- the clock;
- the ids of new alerts and log entries;
- the samples the providers return;
- which store queries, channel senders and storage targets throw;
- the token verifier.

Where the code and the intended design disagree, the model follows the code, and the gap is stated as a lemma about the code as written:
- **More than one open alert per rule.** Once the cooldown has elapsed, a rule can open a second alert while its first is still open (`Monitoring.ReTriggerWhileOpen`, `Monitoring.SecondOpenAlertScenario`).
- **Acknowledged alerts stay open.** Evaluation resolves only alerts whose status is `active`, so an acknowledged alert is never resolved and stays in the map of open alerts (`Monitoring.AcknowledgedNeverResolved`).
- **An empty window changes nothing.** It is not read as a false condition, so it does not resolve anything (`NoData` in `Monitoring.Step`).
- **Acknowledging twice is allowed.** `acknowledgeAlert` fails only for an id that is not in the map, so an alert that is already acknowledged can be acknowledged again (`Monitoring.MonitoringService.AcknowledgeAlert`).

The first two gaps, and the guard's handling of identity headers, are also listed under "Findings", each with a corrected definition and its proof.

## Model

| member | source | states |
|---|---|---|
| Monitoring.DefaultRulesWellFormed | lib/monitoring.ts:96-155 | The four default rules have distinct ids. Each is enabled, has a window of at least one minute, a non-negative cooldown, at least one channel, and has never been triggered. |
| Monitoring.DefaultRules | lib/monitoring.ts:96-155 | The four rules seeded by the constructor. Their contract is `Monitoring.DefaultRulesWellFormed`. |
| Monitoring.RecentMetrics | lib/monitoring.ts:317-333 | The window holds at most 10 samples. Each has the rule's metric name and a timestamp no earlier than now minus the duration. The window is ordered newest first and is drawn from the store. A matching sample is left out only when the window is full and the sample is no newer than its last one. |
| Monitoring.RecentMetricsEmpty | lib/monitoring.ts:322-335 | The window is empty exactly when no sample of the store matches the rule. |
| Monitoring.MeanBounds | lib/monitoring.ts:362-363 | The mean of the window lies between any lower and upper bound of its values. |
| Monitoring.CheckCondition | lib/monitoring.ts:361-379 | The mean of the window compared with the threshold by the rule's operator. Its contract is carried by `Monitoring.MeanBounds`, `Monitoring.ConditionWhenAllAbove`, `Monitoring.ConditionWhenAllBelow`, `Monitoring.ConditionWhenAllEqual` and `Monitoring.UnrecognisedNeverFires`. |
| Monitoring.ConditionWhenAllAbove | lib/monitoring.ts:361-379 | When every value is above the threshold, the condition holds exactly for `gt` and `gte`. |
| Monitoring.ConditionWhenAllBelow | lib/monitoring.ts:361-379 | When every value is below the threshold, the condition holds exactly for `lt` and `lte`. |
| Monitoring.ConditionWhenAllEqual | lib/monitoring.ts:361-379 | When every value equals the threshold, the condition holds exactly for `eq`, `gte` and `lte`. |
| Monitoring.UnrecognisedNeverFires | lib/monitoring.ts:376-377 | A condition outside the five operators is false. Evaluation then never triggers or suppresses, and leaves the rule unchanged. |
| Monitoring.IndexOfId | lib/monitoring.ts:615 | `Map.get` by alert id: it returns a position holding that id, or none exactly when no entry has it. |
| Monitoring.FirstActive | lib/monitoring.ts:351-352 | The `find`: it returns the first alert of the rule with status `active`, or none exactly when there is no such alert. |
| Monitoring.PutAlert | lib/monitoring.ts:404 | `Map.set`: the new alert is in the map and nothing else is added. Alerts with other ids stay, and a new id goes at the end. Distinct ids and "no resolved alert" are preserved. |
| Monitoring.RemoveAt | lib/monitoring.ts:461 | `Map.delete`: exactly the removed alert is gone. Distinct ids and "no resolved alert" are preserved. |
| Monitoring.CreateRecord | lib/monitoring.ts:407-427 | Storing a new alert id appends the alert. Storing an existing id fails, the failure is caught, and the table is unchanged. Distinct ids are preserved. |
| Monitoring.UpdateRecord | lib/monitoring.ts:445-456 | A keyed update changes exactly the records with that id. An unknown id changes nothing. An update that keeps the id keeps every record's id, and so keeps ids distinct. |
| Monitoring.Dispatches | lib/monitoring.ts:489-523 | The early return of the email, Slack and webhook senders: a sender acts only when its channel has an enabled entry in the configuration. Its contract is carried by `Monitoring.Deliveries` and `Monitoring.DefaultConfigDeliversNothing`. |
| Monitoring.Deliveries | lib/monitoring.ts:467-522 | A channel receives a notification exactly when it is listed, is one of email, slack or webhook, is enabled in the configuration, and its sender does not throw. |
| Monitoring.SendNotifications | lib/monitoring.ts:467-486 | The loop over the channels delivers exactly `Deliveries`, in channel order. A channel that throws does not stop the ones after it. |
| Monitoring.DefaultConfigDeliversNothing | lib/monitoring.ts:84-90 | With the constructor's empty channel settings, nothing is ever delivered. |
| Monitoring.Step | lib/monitoring.ts:317-358 | One rule's evaluation on its window: the map of open alerts, the alert table, the rule and the event afterwards. Its contract is carried by the lemmas from `Monitoring.StepKeepsOtherRules` to `Monitoring.AcknowledgedNeverResolved` below, and `Monitoring.MonitoringService.EvaluateRule` is proved equal to it. |
| Monitoring.StepKeepsOtherRules | lib/monitoring.ts:317-358 | Evaluating one rule with a fresh alert id leaves every other rule's alerts exactly as they were. |
| Monitoring.CooldownSuppresses | lib/monitoring.ts:342-348 | Within the cooldown (the difference not strictly greater), no alert is created, `lastTriggered` is unchanged and no alert is added. |
| Monitoring.NoRetriggerWithinCooldown | lib/monitoring.ts:340-348 | A trigger at `t0` sets `lastTriggered` to `t0`, and no evaluation at most `cooldownPeriod` minutes later creates an alert. |
| Monitoring.TriggerAddsOneAlert | lib/monitoring.ts:382-404 | A trigger appends exactly one alert and keeps the earlier ones. The alert is active and carries the rule's id, name, severity and channels, the window's first sample and `createdAt = now`. `lastTriggered` becomes now, and the event lists the deliveries. |
| Monitoring.TriggerCarriesNewestSample | lib/monitoring.ts:329-346 | The sample on a triggered alert is a sample of the store in the rule's window, and no sample in the window is newer. |
| Monitoring.NewestSample | lib/monitoring.ts:322-333 | The first sample of a non-empty window is the newest matching sample of the store. |
| Monitoring.FalseConditionResolvesFirstActive | lib/monitoring.ts:349-357 | A false condition resolves the rule's first active alert (`resolved`, `resolvedAt = now`) and removes it from the map. Every other alert stays, and the rule is unchanged. |
| Monitoring.ResolutionIgnoresCooldown | lib/monitoring.ts:338-357 | On a false reading, the map, the table and the event do not depend on `lastTriggered`. |
| Monitoring.QuietIsIdempotent | lib/monitoring.ts:349-357 | A false reading with no active alert for the rule changes nothing, so repeating it gives the same state. |
| Monitoring.StepValid | lib/monitoring.ts:317-358 | One evaluation preserves distinct ids in the map and the table and keeps the map free of resolved alerts. It changes nothing of the rule but `lastTriggered`. |
| Monitoring.ReTriggerWhileOpen | lib/monitoring.ts:340-348 | As written: once the cooldown has elapsed, a true condition raises the rule's open-alert count by one, whatever is already open. |
| Monitoring.SecondOpenAlertScenario | lib/monitoring.ts:340-348 | As written, with concrete inputs: the default CPU rule with an alert still open and one 85% sample eleven minutes after the last trigger ends with two open alerts. |
| Monitoring.AcknowledgedNeverResolved | lib/monitoring.ts:349-357 | As written: a false condition leaves every acknowledged alert in the map. |
| Monitoring.FirstOpen | lib/monitoring.ts:351-352 | Corrected search: it returns an alert of the rule that is active or acknowledged, and no earlier alert is one. It returns none exactly when there is no such alert. |
| Monitoring.OpenCountRemove | lib/monitoring.ts:461 | Removing an entry lowers a rule's open count by one exactly when the entry is one of that rule's open alerts. |
| Monitoring.IntendedStep | lib/monitoring.ts:340-357 | The corrected evaluation: no new alert while the rule has an open one, and a false reading resolves the first open alert. Its contract is carried by `Monitoring.IntendedStepAtMostOneOpen`, `Monitoring.IntendedResolvesOpen` and `Monitoring.IntendedAgreesWhenNothingOpen`. |
| Monitoring.IntendedStepAtMostOneOpen | lib/monitoring.ts:340-357 | Corrected evaluation: "at most one open alert per rule" holds after every step if it held before. |
| Monitoring.IntendedResolvesOpen | lib/monitoring.ts:349-357 | Corrected evaluation: a false reading resolves the rule's open alert even when it is acknowledged. Afterwards nothing of the rule is open. |
| Monitoring.IntendedAgreesWhenNothingOpen | lib/monitoring.ts:317-358 | For a rule with no open alert, the corrected evaluation is the evaluation as written. |
| Monitoring.EvaluateAll | lib/monitoring.ts:303-314 | The evaluation loop produces one rule value and one event per rule. |
| Monitoring.CycleStep | lib/monitoring.ts:304-312 | One turn of the loop over the rules: skip a disabled rule, catch a failing query, otherwise `Step`. Its contract is carried by `Monitoring.EvaluateAllEvents` and `Monitoring.EvaluateAllSkipsRule`, and `Monitoring.MonitoringService.EvaluateAt` is proved equal to it. |
| Monitoring.CycleExtends | lib/monitoring.ts:304-313 | The loop over one more rule is the loop so far followed by that rule's turn. |
| Monitoring.EvaluateAllEvents | lib/monitoring.ts:303-314 | Each rule reports `Skipped` exactly when it is disabled, and `QueryFailed` exactly when it is enabled and its query throws. Such rules keep their value, the loop goes on to the next rule, and no rule changes but `lastTriggered`. |
| Monitoring.EvaluateAllSkipsRule | lib/monitoring.ts:303-314 | A disabled rule, or one whose query throws, ends the cycle with exactly the alerts it had before. |
| Monitoring.IdsStayFresh | lib/monitoring.ts:303-314 | After a cycle, every alert in the map is an old one or carries one of the cycle's fresh ids. |
| Monitoring.Collected | lib/monitoring.ts:180-218 | The samples the three providers add in order; a failed pull adds none. `Monitoring.MonitoringService.CollectMetrics` is proved to append exactly these before the cleanup. |
| Monitoring.Retained | lib/monitoring.ts:280-300 | Cleanup keeps every occurrence of each sample at or after the cutoff and removes every sample before it. |
| Monitoring.MergeConfig | lib/monitoring.ts:643-646 | Each field given in the patch replaces the current one, and every other field is kept. |
| Monitoring.MergeConfigIdempotent | lib/monitoring.ts:643-646 | An empty patch changes nothing, and applying a patch twice is the same as applying it once. |
| Monitoring.CountEnabled | lib/monitoring.ts:660 | The rule-by-rule count equals the length of the rules filtered by `enabled`. It is at most the number of rules, equals it exactly when all rules are enabled, and is zero exactly when none is. |
| Monitoring.MonitoringService.constructor | lib/monitoring.ts:83-93 | The default configuration, the four default rules and no open alert; not running. |
| Monitoring.MonitoringService.Start | lib/monitoring.ts:158-168 | Starts exactly when not already running; afterwards it is running. |
| Monitoring.MonitoringService.Stop | lib/monitoring.ts:171-177 | Reports whether it was running; afterwards it is not running. |
| Monitoring.MonitoringService.UpdateConfig | lib/monitoring.ts:643-646 | The new configuration is the merge of the old one with the patch. |
| Monitoring.MonitoringService.CollectProviderMetrics | lib/monitoring.ts:201-218 | The pulled samples are appended in order. A failed pull adds nothing. |
| Monitoring.MonitoringService.CleanupOldMetrics | lib/monitoring.ts:280-300 | The metric table becomes `Retained` at the retention cutoff. |
| Monitoring.MonitoringService.TriggerAlert | lib/monitoring.ts:382-437 | Stores the new alert in the map and the table and returns the deliveries to its channels. The invariant is kept. |
| Monitoring.MonitoringService.ResolveAlert | lib/monitoring.ts:440-464 | Marks the alert resolved at now in the table and removes it from the map. The invariant is kept. |
| Monitoring.MonitoringService.EvaluateRule | lib/monitoring.ts:317-358 | The new rule, map, table and event are those of `Step` on the rule's window. |
| Monitoring.MonitoringService.OnConditionMet | lib/monitoring.ts:340-348 | The true-condition branch agrees with `Step`. |
| Monitoring.MonitoringService.OnConditionNotMet | lib/monitoring.ts:349-357 | The false-condition branch agrees with `Step`. |
| Monitoring.MonitoringService.EvaluateAlertRules | lib/monitoring.ts:303-314 | The loop over the registry yields exactly `EvaluateAll`: the rules, the map, the table and the events. |
| Monitoring.MonitoringService.EvaluateAt | lib/monitoring.ts:304-312 | One turn of the loop agrees with `CycleStep`: skip, caught failure or one evaluation. |
| Monitoring.MonitoringService.CollectMetrics | lib/monitoring.ts:180-198 | A tick collects from the three providers in order, cleans up at the cutoff, then evaluates every rule on the new table. |
| Monitoring.MonitoringService.AcknowledgeAlert | lib/monitoring.ts:614-640 | Fails exactly when the id is not in the map, and then changes nothing. Otherwise the alert becomes acknowledged by the user at now, in place, stays in the map, and the table is updated. |
| Monitoring.MonitoringService.GetActiveAlerts | lib/monitoring.ts:569-571 | The map's alerts in insertion order. All are active or acknowledged, and no id appears twice. |
| Monitoring.MonitoringService.GetMetrics | lib/monitoring.ts:531-566 | Returns at most `limit` (default 100) samples of the table that match every given filter, newest first. A matching sample is left out only when the result is full and the sample is no newer than its last one. |
| Monitoring.MonitoringService.GetAlertHistory | lib/monitoring.ts:574-611 | Returns at most `limit` (default 50) alerts of the table that match the time bounds and the severity, newest first. A matching alert is left out only when the result is full and the alert is no newer than its last one. |
| Monitoring.MonitoringService.GetStatus | lib/monitoring.ts:649-662 | The configuration flag, the number of open alerts and the number of rules. The enabled count is the length of the rules filtered by `enabled`. It is bounded by the total, equals it exactly when all rules are enabled, and is zero exactly when none is. |
| Logging.ShouldLogThreshold | lib/logging.ts:148-154 | The level filter is a threshold. It is monotone in the message level and in the configured level, `critical` always passes, and `debug` passes only at `debug`. |
| Logging.ShouldLog | lib/logging.ts:148-154 | The level gate. Its contract is `Logging.ShouldLogThreshold`, and `Logging.Admit` states that a message is kept exactly when it passes. |
| Logging.WithError | lib/logging.ts:92-110 | The metadata gets an `error` key with the error's name and message. The stack is included exactly when configured and present, and the key is `undefined` without an error. Every other key is kept. |
| Logging.ContextFields | lib/logging.ts:388-391 | The spread of a context has exactly the fields that are set, each holding the context's value. |
| Logging.ContextualMetadata | lib/logging.ts:388-391 | Context fields overwrite metadata keys of the same name, and every other metadata key is kept. |
| Logging.ContextualCategory | lib/logging.ts:392 | A non-empty context category replaces the caller's category; otherwise the caller's category is kept. |
| Logging.Admit | lib/logging.ts:113-131 | An entry is made exactly when the level passes. It has the given id, time, level and message, and the category and metadata as given or as the child context rewrites them. |
| Logging.MergeLogConfig | lib/logging.ts:75-77 | Each field given in the patch replaces the current one. |
| Logging.MergeLogConfigIdempotent | lib/logging.ts:75-77 | An empty patch leaves the configuration unchanged, and applying a patch twice equals applying it once. |
| Logging.PassesAllStages | lib/logging.ts:294-328 | Passing all eight filter stages is the same as satisfying every given filter. |
| Logging.Matches | lib/logging.ts:294-328 | The conjunction of the filters that are given; an empty string filter counts as not given, as JavaScript's truthiness test does. `Logging.PassesAllStages` and `Logging.ChainIsConjunction` prove that the source's chain selects exactly these entries. |
| Logging.SearchHit | lib/logging.ts:321-327 | The search stage: the lowercased message or category includes the lowercased search string. It enters the contracts through `Logging.Matches`. |
| Logging.ChainIsOneFilter | lib/logging.ts:292-328 | The first `k` stages of the chain are a single filter by "passes each stage that runs". |
| Logging.ChainIsConjunction | lib/logging.ts:292-328 | The whole chain keeps exactly the entries that satisfy every given filter, in buffer order. |
| Logging.Ranked | lib/logging.ts:292-331 | The filtered entries are ordered newest first. Each entry occurs as often as in the buffer when it satisfies the filters, and not at all otherwise. |
| Logging.RankedIsSortedChain | lib/logging.ts:292-331 | Sorting the chain's result gives `Ranked`. |
| Logging.QueryLimit | lib/logging.ts:335 | The limit is positive. A given non-zero limit is used; no limit or a limit of 0 means 100. |
| Logging.Query | lib/logging.ts:289-338 | A query returns at most `limit` entries. |
| Logging.QueryResults | lib/logging.ts:289-338 | Every result satisfies every filter, the results are newest first and are drawn from the buffer, and all matches are returned when the page starts at 0 and has room. |
| Logging.WholePage | lib/logging.ts:334-337 | A page at offset 0 with room for every match is the whole ranking. |
| Logging.RankedIgnoresPaging | lib/logging.ts:330-337 | Offset and limit do not change which entries are selected or their order. |
| Logging.PageAt | lib/logging.ts:333-337 | The result is the slice `[offset, offset + limit)` of the unpaged ranking. |
| Logging.FieldFiltersMatchNothing | lib/logging.ts:302-312 | Entries made by `log` carry no user, provider or operation, so a query filtering on one of these returns nothing. |
| Logging.Tally | lib/logging.ts:347-355 | The keys of the count map are exactly the keys that occur, and each maps to its number of occurrences. |
| Logging.TallySum | lib/logging.ts:347-355 | The counts add up to the number of entries. |
| Logging.TallyCounts | lib/logging.ts:347-355 | The `reduce` count is a complete, exact count that sums to the buffer length. |
| Logging.RecentErrors | lib/logging.ts:357-360 | At most 10 error or critical entries of the buffer, newest first. An error entry is left out only when the list is full and the entry is no newer than its last one. |
| Logging.Stats | lib/logging.ts:341-368 | `totalEntries` is the buffer length. The counts by level and by category are exact and each sums to the buffer length (see "Left out" for category names that clash with `Object.prototype`). The recent errors are as above. |
| Logging.Logger.constructor | lib/logging.ts:57-72 | The default configuration, an empty buffer and no context. |
| Logging.Logger.UpdateConfig | lib/logging.ts:75-77 | The configuration becomes the merge with the patch. |
| Logging.Logger.Flush | lib/logging.ts:194-198 | Takes every entry and leaves the buffer empty. An empty buffer yields nothing. |
| Logging.Logger.FinishFlush | lib/logging.ts:200-214 | Storing fails exactly when an enabled target fails. The batch is then put back, in order, ahead of whatever was logged in the meantime; otherwise the buffer is left alone. |
| Logging.Logger.Log | lib/logging.ts:113-145 | A rejected level changes nothing. An accepted message appends one entry; when the buffer reaches 100 all entries are taken and the buffer empties. If the buffer held fewer than 100 entries before the call, it holds fewer than 100 after it. A failed flush puts the whole batch back (`Logging.Logger.FinishFlush`), which can leave 100 or more entries; the next accepted message then flushes them again. |
| Logging.Logger.LogFailure | lib/logging.ts:92-110 | `error` and `critical` log with the error folded into the metadata. A critical message is always accepted. |
| Logging.Logger.Child | lib/logging.ts:371-396 | A fresh logger with a copy of the configuration, an empty buffer and the given context. |
| Logging.Logger.QueryLogs | lib/logging.ts:289-338 | The query over the buffer, drawn from it, with the buffer left unchanged. |
| Logging.Logger.GetLogStats | lib/logging.ts:341-368 | The statistics of the current buffer. |
| Middleware.RemoveFirst | middleware.ts:14 | `replace` with a string pattern: without an occurrence the string is unchanged; otherwise the first occurrence of the pattern is cut out and the rest is kept. |
| Middleware.ExtractToken | middleware.ts:13-14 | The Authorization header with its first `Bearer ` removed, when that leaves something. Otherwise the cookie. |
| Middleware.BearerToken | middleware.ts:13-14 | `Authorization: Bearer t` with a non-empty `t` gives `t`, whatever the cookie holds. |
| Middleware.BareBearerFallsBack | middleware.ts:14 | A header that is exactly `Bearer ` falls back to the cookie. |
| Middleware.VerifiedUser | middleware.ts:21 | There is a user only when a non-empty token was extracted and the verifier accepted it, and then it is the verifier's user. |
| Middleware.Guard | middleware.ts:9-48 | The guard's response. Its contract is carried by `Middleware.LoginRedirect`, `Middleware.WorkspaceRedirect`, `Middleware.UserHeaders` and `Middleware.OtherwiseUnchanged`, which together cover every request. |
| Middleware.WithUser | middleware.ts:36-38 | Sets `x-user-id` and `x-user-email` from the user and keeps every other header. |
| Middleware.RoutesDisjoint | middleware.ts:6-7 | No path is both protected and an authentication page. |
| Middleware.LoginRedirect | middleware.ts:24-27 | Redirects to `/login` exactly for a protected path without a verified user. |
| Middleware.WorkspaceRedirect | middleware.ts:29-32 | Redirects to `/workspace` exactly for an authentication page with a verified user. |
| Middleware.UserHeaders | middleware.ts:34-45 | Headers are rewritten exactly for an `/api/` path with a verified user: identity from the token, every other header kept. |
| Middleware.OtherwiseUnchanged | middleware.ts:47 | Every other request goes on unchanged, exactly when none of the three earlier branches applies. |
| Middleware.ForgedIdentityForwarded | middleware.ts:34-47 | As written: a tokenless request to `/api/compute/jobs` carrying `x-user-id: victim` reaches the handler with that header. |
| Middleware.StripIdentity | middleware.ts:34-47 | Corrected: removes exactly the two identity headers. |
| Middleware.SafeGuard | middleware.ts:34-47 | The corrected guard, which drops client-sent identity headers. Its contract is carried by `Middleware.SafeGuardIdentity` and `Middleware.SafeGuardAgrees`. |
| Middleware.SafeGuardIdentity | middleware.ts:34-47 | Corrected: a handler sees `x-user-id` or `x-user-email` only for a verified user, and then they are that user's. |
| Middleware.SafeGuardAgrees | middleware.ts:9-48 | The correction keeps the same redirects and the same headers for verified `/api/` requests, and forwards every other header as before. |
| Storage.Sanitize | lib/storage.ts:117 | The length is unchanged. Units in `[a-zA-Z0-9.-]` are kept and every other unit becomes `_`, so only `[a-zA-Z0-9._-]` remains. |
| Storage.SanitizedHasNoSlash | lib/storage.ts:117 | A sanitised filename contains no `/`. |
| Storage.SanitizeIdempotent | lib/storage.ts:117 | Sanitising twice gives the same result as sanitising once. |
| Storage.SanitizeFixpoint | lib/storage.ts:117 | A filename is unchanged exactly when it already consists of `[a-zA-Z0-9._-]`. |
| Storage.Decimal | lib/storage.ts:118 | The timestamp is written as one or more decimal digits with no leading zero. |
| Storage.DecimalRoundTrip | lib/storage.ts:118 | Reading the digits back gives the timestamp. |
| Storage.GenerateKey | lib/storage.ts:115-119 | The key starts with `workspaces/` and ends with `<now>_<sanitised filename>`. |
| Storage.Segments | lib/storage.ts:115-119 | `split("/")`, used to read a key back into its parts: there is always at least one piece. The key lemmas below are stated with it. |
| Storage.GenerateKeyLastSegment | lib/storage.ts:115-119 | Whatever the ids contain, the last `/`-separated segment of the key is exactly `<now>_<sanitised filename>`. |
| Storage.GenerateKeySegments | lib/storage.ts:115-119 | When neither id contains `/`, the key splits into exactly `workspaces`, the workspace id, `users`, the user id and the stored name. Only the filename is sanitised. |
| Storage.StoredName | lib/storage.ts:116-118 | The last part of the key, `<now>_<sanitised filename>`. Its contract is carried by `Storage.StoredNameParts` and `Storage.StoredNameIsOneSegment`. |
| Storage.StoredNameParts | lib/storage.ts:116-118 | The last segment is the decimal timestamp (which reads back), `_`, and the sanitised filename. |
| Storage.GenerateJobOutputKey | lib/storage.ts:121-123 | The key starts with `workspaces/` and ends with the filename unchanged. |
| Storage.GenerateJobOutputKeySegments | lib/storage.ts:121-123 | The key splits into `workspaces`, the workspace id, `jobs`, the job id, `output` and the filename's own segments. It has six segments exactly when the filename has no `/`. |

## Left out

- Database access (the metric and alert tables) is replaced by two in-memory sequences. Write failures that the code catches and logs are no-ops. An insert with an alert id that is already in the table is such a failure. Ties between equal timestamps keep table order, which the database does not promise.
- Random inputs and the clock are parameters: the sample generator with its `Math.random` and rounding, the alert and log ids, `Date.now()`, and `new Date()`. One evaluation uses a single `now`, where the code reads the clock several times.
- Timers, `async` interleavings and concurrency are not modelled. `setInterval` in `start` and in the logger constructor is modelled as the caller invoking a tick or a flush; a cycle is one sequential pass.
- Metric values and thresholds are reals. IEEE rounding, the exactness of `===` on the mean, and the NaN mean of an empty window are not modelled; the evaluator never uses the empty-window case.
- Retention takes a day as 86400000 ms; `setDate` works in local calendar days, which differ across daylight-saving changes.
- The following are not modelled:
  - message texts and their number formatting;
  - console output and ISO timestamps;
  - writing to files and rotating them;
  - the per-channel senders (the configuration check they make is modelled by `Monitoring.Dispatches`);
  - the resolution notification, which only logs.
- Calls into the logger made by the monitoring engine are not modelled.
- `verifyToken` is a parameter: the authentication module is not part of this model.
- The S3 operations of the storage helper are not part of this model.
- A negative `offset` or `limit` is not modelled; both are natural numbers here. In `queryLogs`, `slice` counts a negative value from the end. In `getMetrics` and `getAlertHistory`, the store reads a negative `take` as the last rows.
- Logging.Logger.FinishFlush: the model takes storing as failing or not. Which entries reached the database before a failure is not modelled.
- The case-insensitive search folds only ASCII letters; `toLowerCase` on other characters is not modelled.
- Monitoring.MonitoringService.CollectMetrics: a failed `deleteMany` is not modelled. `cleanupOldMetrics` catches it itself, so the metric table stays as it was and evaluation still runs; the model always applies the cutoff. A failure to store one sample (caught in `storeMetric`) is not modelled either: the whole pulled batch is appended or, when the pull fails, nothing. Failures inside one rule's query are modelled.
- Monitoring.MergeConfig: a patch field passed explicitly as `undefined` is not modelled. The object spread lets such a field overwrite the current value with `undefined`; the model has only absent fields (`None`), which keep the current value.
- Logging.MergeLogConfig: the same holds for the logger's configuration patch.
- Logging.ContextualMetadata: a context field set explicitly to `undefined` (for example `userId: undefined`) is not modelled. The spread lets it replace the metadata's value; in the model an absent context field keeps the metadata's value.
- Logging.Stats: the counts are kept in a plain object, so a category named after an `Object.prototype` member is not counted as the model counts it. With `constructor`, `toString`, `valueOf` or `hasOwnProperty` the inherited function is taken as the starting value, giving a string instead of a number. A `__proto__` category is never stored, so the counts by category then sum to less than `totalEntries`. The model counts every category name as an ordinary key.

## Findings

| source | as written | input that shows it | evidently intended | confidence | as-written member | corrected member |
|---|---|---|---|---|---|---|
| lib/monitoring.ts:340-348 | A true condition triggers whenever the cooldown has elapsed, without looking for an alert of the rule that is still open. | The default CPU rule, last triggered 11 minutes ago, alert `alert-1` still active, and one 85% sample now: a second open alert is created. | At most one open (active or acknowledged) alert per rule: no new alert while one is open. | medium; not executed | Monitoring.SecondOpenAlertScenario | Monitoring.IntendedStepAtMostOneOpen |
| lib/monitoring.ts:349-357 | A false condition resolves only alerts whose status is `active`. | An acknowledged alert of a rule whose window then reads false: it is never resolved and stays in the open-alert map and in the status count. | A false reading resolves the rule's open alert, whether active or acknowledged. | medium; not executed | Monitoring.AcknowledgedNeverResolved | Monitoring.IntendedResolvesOpen |
| middleware.ts:34-47 | A request without a verified user on a path that is not protected is passed on with its headers untouched, including any `x-user-id` it brings. The job routes take the caller's identity from that header (app/api/compute/jobs/route.ts:23). | `GET /api/compute/jobs` with header `x-user-id: victim` and no token or cookie. | Identity headers reach a handler only when the guard set them from a verified token. | medium; not executed | Middleware.ForgedIdentityForwarded | Middleware.SafeGuardIdentity |
