# Remote submit, spool and retrieve

A Dafny model of the HTCondor remote-submission client. The client exists in
two near-identical versions: `submit`/`retrieve` in `remote_submit.py` and
`submit`/`retrieve` in `functions.py`.

`submit` edits a submit description in place, in four steps:
- it sets the `My.RETRIEVED` marker to `false`;
- it puts the job on hold with reason `"Spooling input files"` and code 16;
- it stores a queue-retention expression (`leave_in_queue` in remote_submit.py, `My.LeaveJobInQueue` in functions.py);
- it rewrites `transfer_output_remaps` so that standard output and error come back with the job's output.

It then locates the schedd, queues the jobs in one transaction, rebuilds the job ads from the same item list and the new cluster id, and spools exactly those ads.

`retrieve` builds the constraint `ClusterID == <id>`. It sleeps and queries the job statuses until the first answer in which every status is 4 (completed), an empty answer included. It then fetches the output and sets `RETRIEVED` to `true`, in that order.

Modules:

- `Text` models the Python string operations the client uses: `str(n)`, `replace`, `split`, `join` and `filter(None, …)`. Each comes with its inverse or a reference property.
- `ClassAd` models `classad.quote` with its inverse. It also holds a syntax tree for the retention expressions, the serialiser that writes their text, a measure of parenthesis nesting, and a three-valued evaluator.
- `Retention` holds the completion-date test that both retention expressions contain, with its text and its value.
- `Remaps` holds the `transfer_output_remaps` merge, as pure functions.
- `Scheduler` holds the pool as the client sees it: `SubmitDescription` is a class with a mutable map, and `Remote` is a class that appends every call to an operation log and takes its answers from oracles. It also holds the ordering predicate `WellOrdered` on that log, and the logs that `submit` and `retrieve` must produce.
- `Spooling` holds what the two versions share: the rewritten description, the queue-and-spool steps and the poll-then-retrieve loop.
- `RemoteSubmit` models `remote_submit.py` and `Functions` models `functions.py`.

Each imperative step is a method proved against a function: a description rewrite against `SpoolingDescription`, and a log append against `SubmitTrace` or `RetrieveTrace`. The properties the client promises are lemmas about those functions.

## Model

| member | source | states |
|---|---|---|
| Text.NatToString | remote_submit.py:71 | `str(n)` is a non-empty string of decimal digits whose first digit is 0 exactly when n is 0 |
| Text.NatToStringRoundTrip | remote_submit.py:71 | reading back the numeral of a cluster id gives the id |
| Text.NatToStringInjective | functions.py:56 | distinct cluster ids have distinct numerals |
| Text.Remove | remote_submit.py:43 | `replace('"', "")` leaves no `"`, adds no character, and changes nothing in a string without `"` |
| Text.RemoveIsJoinOfSplit | remote_submit.py:43 | removing `"` is joining the pieces of a split on `"` with nothing between them: every other character is kept, in order |
| Text.Split | remote_submit.py:43 | `split(";")` gives one more piece than there are separators (so `""` gives `[""]`), and no piece holds a separator |
| Text.JoinSplit | remote_submit.py:43 | joining the pieces of a split with the separator gives back the string |
| Text.SplitJoin | remote_submit.py:48 | splitting a join recovers the parts when no part holds the separator |
| Text.Join | remote_submit.py:48 | the join of a non-empty list starts with its first part |
| Text.JoinExcludes | remote_submit.py:48 | a character in neither the parts nor the separator is not in the join |
| Text.SplitOnlySeparators | remote_submit.py:43 | a value made only of separators splits into empty pieces |
| Text.SplitSpacedJoin | remote_submit.py:48 | splitting a `" ; "` join on `;` gives the parts with the blanks of the separator around them |
| Text.Compact | remote_submit.py:48 | `filter(None, …)` keeps exactly the non-empty parts and adds nothing |
| Text.CompactAppend | remote_submit.py:48 | filtering a concatenation is the concatenation of the filtered halves |
| Text.CompactNonEmpty | remote_submit.py:48 | filtering a list with no empty part leaves it as it is |
| Text.CompactAllEmpty | remote_submit.py:48 | filtering a list of empty parts leaves nothing |
| ClassAd.QuoteRoundTrip | remote_submit.py:38 | the quoted literal reads back as the original string |
| ClassAd.Quote | remote_submit.py:38 | a quoted literal starts and ends with a double quote |
| ClassAd.EscapePlain | remote_submit.py:38 | quoting leaves text without `"` or `\` unchanged between the quotes |
| ClassAd.SecondsText | remote_submit.py:33 | the rendered removal delay holds no parenthesis |
| ClassAd.ThreeDaysText | remote_submit.py:7 | three days in seconds is written `259200.0`, as Python writes the float (also functions.py:7) |
| ClassAd.SerializeBalanced | remote_submit.py:33 | every parenthesis the serialiser opens it also closes |
| ClassAd.Eval | functions.py:28 | `=?=` and `IS` always give a boolean; `==` and `<` never give a number; `-` never gives a boolean |
| Retention.DateTestText | remote_submit.py:33 | the date test is the three disjuncts on `CompletionDate` (undefined, zero, younger than the delay) with the delay's rendering filled in, as in functions.py:28 |
| Retention.DateTestWellFormed | remote_submit.py:33 | no attribute name in the date test holds a parenthesis |
| Retention.DateValue | functions.py:28 | `CompletionDate` is UNDEFINED when the job has none, and its value otherwise |
| Retention.UndatedValue | functions.py:28 | the undated disjunction is true exactly when the job has no date or a zero date, and is never UNDEFINED |
| Retention.RecentValue | functions.py:28 | the age comparison is UNDEFINED without a date, and otherwise true exactly when `now - date < delay` |
| Retention.DateTestValue | functions.py:28 | the date test is a plain boolean: true exactly when the date is missing, is zero, or lies less than `delay` seconds before now |
| Remaps.StreamEntries | remote_submit.py:44-47 | an entry is appended for `output` and one for `error`, each only when it is present and non-empty, output first; each is `_condor_stdout=<file>` |
| Remaps.MergedRemaps | remote_submit.py:43-48 | the new `transfer_output_remaps` value is a double-quoted literal |
| Remaps.MergedSegmentsShape | remote_submit.py:43-48 | the merged list is the non-empty pieces of the old value, in order, then the appended entries; no piece is empty; the old pieces hold no `"` and no `;`; a bound on its length (also functions.py:30-36) |
| Remaps.MergedRemapsReadsBack | remote_submit.py:48 | the new value is a ClassAd string literal whose text is the `" ; "` join of the merged list |
| Remaps.MergedHasNoQuote | remote_submit.py:43-48 | when `output` and `error` hold no `"`, the joined text holds no `"` before quoting |
| Remaps.EmptyRemaps | remote_submit.py:43-48 | with no real old value and no `output` or `error`, the list is empty and the value is `""` quoted |
| Remaps.BothStreamsShareStdoutKey | remote_submit.py:44-47 | with both files set, both entries use the `_condor_stdout` key |
| Remaps.StreamEntriesPlain | remote_submit.py:44-47 | an appended entry holds a `;` only when the file name does |
| Remaps.MergedReparse | remote_submit.py:48 | splitting the written value on `;` recovers each merged entry, with blanks around it |
| Scheduler.ClusterConstraint | remote_submit.py:71 | the constraint is `ClusterID == ` followed by a run of decimal digits |
| Scheduler.ClusterConstraintRoundTrip | remote_submit.py:71 | the constraint `ClusterID == <id>` selects exactly the cluster it was built from |
| Scheduler.FirstCompleted | remote_submit.py:84-85 | the loop's exit is the first answer whose statuses are all 4 (an empty answer included); no earlier answer is; it is absent exactly when no answer qualifies |
| Scheduler.PollOpsAt | remote_submit.py:75-81 | each round of the loop is a sleep followed by a query that returns that round's answer |
| Scheduler.QueriedStatusesOfPolls | remote_submit.py:78-81 | the loop queries exactly the answers it consumes, in order |
| Scheduler.SubmitTrace | remote_submit.py:54-67 | the log of `submit` starts with the schedd lookup; it has six entries when the schedd is found and that lookup alone otherwise |
| Scheduler.RetrieveTrace | remote_submit.py:70-88 | the log of `retrieve` starts with the schedd lookup, then two entries per answer consumed and, when some answer was all completed, two more |
| Scheduler.SubmitTraceWellOrdered | remote_submit.py:58-65 | the log of `submit` puts Queue inside one transaction, Jobs right after it with the same item list and cluster, and Spool right after Jobs with exactly its ads |
| Scheduler.RetrieveTraceWellOrdered | remote_submit.py:75-88 | in the log of `retrieve`, Retrieve comes right after a query that saw only completed jobs, and Edit sets RETRIEVED to true right after Retrieve |
| Scheduler.RetrieveTraceQueries | remote_submit.py:75-85 | the queries of a run return the answers up to and including the first all-completed one, and no others |
| Scheduler.RetrieveTraceEnds | remote_submit.py:84-88 | Retrieve and Edit are the last two entries, in that order, present exactly when some answer was all completed; no earlier entry is a Retrieve or an Edit |
| Scheduler.WellOrderedConcat | remote_submit.py:58-88 | appending a well-ordered run to a well-ordered log keeps it well ordered |
| Scheduler.SubmitDescription.Get | remote_submit.py:43 | `get(key, "")` is the stored value, or `""` for an absent key; it is `Remaps.Get` on the entries |
| Scheduler.SubmitDescription.Set | remote_submit.py:25 | `submit[key] = value` changes that key alone |
| Scheduler.Remote.Locate | remote_submit.py:13-18 | the schedd is found exactly when the collector knows it, and the lookup is logged |
| Scheduler.Remote.BeginTransaction | remote_submit.py:58 | opens the transaction and logs it |
| Scheduler.Remote.QueueWithItemdata | remote_submit.py:59 | only inside a transaction: returns the next cluster id, advances it, and logs the queue |
| Scheduler.Remote.CommitTransaction | remote_submit.py:58-59 | closes the transaction and logs it |
| Scheduler.Remote.Jobs | remote_submit.py:62 | the ads are the bindings' expansion of the description, count, items and cluster; the call is logged |
| Scheduler.Remote.Spool | remote_submit.py:65 | logs the spool of the given ads |
| Scheduler.Remote.Sleep | remote_submit.py:76 | logs the sleep |
| Scheduler.Remote.Query | remote_submit.py:78-81 | returns the next answer, consumes it, and logs it with the constraint and projection |
| Scheduler.Remote.Retrieve | remote_submit.py:87 | logs the retrieve of the constraint |
| Scheduler.Remote.Edit | remote_submit.py:88 | logs the edit |
| Spooling.HoldReasonQuoted | remote_submit.py:38 | the hold reason is written as `"Spooling input files"` between double quotes, and reads back as that text |
| Spooling.ItemList | remote_submit.py:54 | `list(itemdata or [])` is the given items, or no items when none are given (also functions.py:40) |
| Spooling.SpoolingDescription | remote_submit.py:25-48 | the rewrite adds exactly the marker, hold, reason, code, retention and remaps keys, and every other key keeps its value (also functions.py:22-36) |
| Spooling.SpoolingDescriptionValues | remote_submit.py:25-48 | after the rewrite: marker `false`, hold `true`, the quoted reason, code `16`, the retention text, and the merged remaps |
| Spooling.RetentionSecond | remote_submit.py:25-39 | writing the retention key right after the marker, before the hold keys, gives the same description |
| Spooling.RetentionBeforeHold | remote_submit.py:31-39 | the retention key is none of the hold keys, so its assignment commutes with theirs |
| Spooling.MergeRemaps | remote_submit.py:43-48 | the in-place remaps rewrite sets `transfer_output_remaps` to the merged value of the description before it and changes nothing else (also functions.py:30-36) |
| Spooling.QueueAndSpool | remote_submit.py:56-67 | the log grows by the submit run, which is well ordered; the cluster counter advances by one exactly when the schedd is found; the result is the queued cluster, or not-found when the collector does not know the schedd (also functions.py:42-52) |
| Spooling.AwaitCompletion | remote_submit.py:75-85 | the loop stops at the first all-completed answer; the log grows by one sleep and one query for each answer it consumes (also functions.py:60-67) |
| Spooling.AwaitAndRetrieve | remote_submit.py:73-88 | the log grows by the retrieve run and stays well ordered; the outcome is success exactly when the schedd exists and some answer was all completed |
| RemoteSubmit.DefaultRemovalDelayText | remote_submit.py:7 | the default delay is 259200 seconds, written `259200.0` |
| RemoteSubmit.LeaveInQueue | remote_submit.py:31-33 | the `leave_in_queue` expression holds no attribute name with a parenthesis, so its text is balanced |
| RemoteSubmit.LeaveInQueueText | remote_submit.py:31-33 | `leave_in_queue` is the template with 4, `CompletionDate` and the delay filled in |
| RemoteSubmit.RetrievedClauseAtTopLevel | remote_submit.py:33 | the text ends with the `RETRIEVED IS false` disjunct, and every parenthesis before it is closed, so the disjunct sits outside the `JobStatus == ( … )` group |
| RemoteSubmit.AssignedKeepsRemapInputs | remote_submit.py:25-48 | the five assignments before the remaps rewrite leave its inputs (`transfer_output_remaps`, `output`, `error`) as they were |
| RemoteSubmit.AssignmentOrder | remote_submit.py:25-48 | the five assignments in the source's order, followed by the remaps rewrite, give the spooling description with `leave_in_queue` as the retention key |
| RemoteSubmit.RewriteWith | remote_submit.py:24-48 | the in-place rewrite, in the source's order, leaves the description equal to the spooling description with `leave_in_queue` as the retention key |
| RemoteSubmit.PrepareForSpooling | remote_submit.py:24-48 | the same rewrite, with the retention text rendered for the given removal delay |
| RemoteSubmit.Submit | remote_submit.py:21-67 | takes `count` (default 1), `itemdata` (default none), `pool`, `schedd` and `removalDelay` (default three days) by name; the description is rewritten; the log grows by the submit run for that description and the item list, and stays well ordered; the cluster counter advances by one exactly when the schedd is found; the queue's result is returned |
| RemoteSubmit.Retrieve | remote_submit.py:70-88 | polls every 5 seconds on `ClusterID == <id>`, asking only for `JobStatus`; the log is the retrieve run; success exactly when some answer was all completed |
| Functions.RemovalDelayText | functions.py:7 | the fixed delay is 259200 seconds, written `259200.0` |
| Functions.LeaveJobInQueue | functions.py:26-28 | the `My.LeaveJobInQueue` expression holds no attribute name with a parenthesis, so its text is balanced |
| Functions.LeaveJobInQueueText | functions.py:26-28 | `My.LeaveJobInQueue` is the template with 4, `CompletionDate` and the fixed delay filled in |
| Functions.RetrievedInsideGroup | functions.py:28 | the text ends with the RETRIEVED disjunct and a closing parenthesis, with one parenthesis open before it, so RETRIEVED sits inside the group under the `JobStatus == 4 &&` conjunct |
| Functions.LeaveJobInQueueValue | functions.py:28 | the expression is true exactly when the job is completed and either in its grace period or retrieved, and is never UNDEFINED or ERROR |
| Functions.NotCompletedLeaves | functions.py:28 | a job that is not completed is never kept |
| Functions.UndatedStays | functions.py:28 | a completed job whose date is missing or zero is kept |
| Functions.RetrievedStays | functions.py:28 | a completed, retrieved job is kept whatever time has passed |
| Functions.UnretrievedKeptThreeDays | functions.py:28 | a completed, unretrieved job with a real date is kept exactly while fewer than 259200 seconds have passed |
| Functions.RewriteWith | functions.py:22-36 | the in-place rewrite, in the source's order, leaves the description equal to the spooling description with `My.LeaveJobInQueue` as the retention key |
| Functions.PrepareForSpooling | functions.py:22-36 | the same rewrite, with the retention text rendered for the fixed three-day delay |
| Functions.Submit | functions.py:21-52 | takes `count` (default 1), `itemdata` (default none), `pool` and `schedd` by name; the description is rewritten; the log grows by the submit run and stays well ordered; the cluster counter advances by one exactly when the schedd is found; the queue's result is returned |
| Functions.Retrieve | functions.py:55-70 | polls every second, without a projection, on the cluster of the submit result; the log is the retrieve run; success exactly when some answer was all completed |

## Left out

- The network and the HTCondor bindings are not modelled. `get_schedd` and the collector, schedd, transaction, queue, `Submit.jobs`, spool, query, retrieve and edit calls become entries in the `Remote` log. What they return comes from oracles fixed when the `Remote` is built: the known schedds, the next cluster id, the expansion function and the sequence of query answers.
- An exception thrown by the bindings is not modelled. The one exception modelled is the collector's not-found, which becomes `Failure(ScheddNotFound)`.
- Spooling.QueueAndSpool: when the schedd is not found, the source raises an exception. The model returns `Failure(ScheddNotFound)` instead, and the description stays rewritten, as it is in the source.
- Spooling.AwaitCompletion: the source's `while True` loop runs forever when no answer is ever all completed. The model's answers are a finite sequence, and running out of them is reported as not completed (`Failure(PollsExhausted)` in `AwaitAndRetrieve`). That case stands for the endless loop.
- `time.sleep` is not modelled: it is a log entry with its duration, with no clock. The retention expressions take the current time as a parameter of the evaluator.
- `print` output is not modelled.
- Removal delays are whole numbers of seconds, written as Python writes a whole float (`259200.0`). Fractional delays and the exponent form Python uses from 1e16 on are not modelled. A caller of remote_submit.py's `submit` may also pass an `int` `removal_delay`, which Python writes without `.0`; that rendering is not modelled either.
- The ClassAd library is not part of this model. `classad.quote` is modelled as wrapping in double quotes after backslash-escaping `"` and `\` only; any other escaping the library does is not modelled.
- The ClassAd value of the `leave_in_queue` expression (remote_submit.py:33) is not modelled, because `JobStatus == ( 4 && … )` compares a status with a conjunction that involves an integer. The expression is kept as text, and its structure is proved through the serialiser.
- The submit description is a map. The order in which keys were inserted is not modelled, and neither is the case-insensitivity of HTCondor's key lookup.
- The query answers are the `JobStatus` values alone. The functions.py query without a projection is recorded with an empty projection, and only the status of each returned ad is kept.
- The token scripts (get_remote_submit_token.py, get-token.py) and the driver scripts (remote-spool.py, remote-spool-with-itemdata.py, local-spool.py, s3.py) are not part of this model. They are argument parsing, interactive input, network requests, and top-level examples that call the code modelled here or repeat its poll loop.
