# A verified model of pg-maintainer

pg-maintainer is a sequential driver that finds PostgreSQL tables in need of maintenance and
runs VACUUM or ANALYZE on them. This project models the parts of it that hold real protocol,
parsing and arithmetic logic, and proves properties of them with Dafny 4.11:
`dafny verify dfyconfig.toml` checks everything.

## What is modelled

* **The run** (`World`, `LagGate`, `Retry`, `Runner`, `Run`). Eight phases share one session, three
  growing sets of matched tables, a replica-lag gate, an active-vacuum gate, a lock-timeout retry
  and an exit code. What the gates, the retry and the booking of a table decide is told by the
  answers alone in `LagStory`, `GateVerdicts`, `RetryStory`, `RetryCap` and `Outcome`; the laws of
  whole runs are in `RunnerLaws`, `RunLaws`, `Searches`, `CalmRun`, `Reprocessing`, `GateOff`,
  `WaitBudget` and `AbortCode`.
* **The shutdown watcher** (`Watcher`; that it never does too much in `ActedOn`, that it acts in
  `WatcherActs`): signals, sampling, cancel, grace, terminate.
* **Connection strings** (`Text`, `KeywordString`, `KeywordGrammar`, `TrimLaw`, `Uri`, `Dsn`,
  `TwiceLaw`, `RedactLaw`, `PgPass`): the libpq keyword parser, its exact grammar and both
  printers, the SSL-parameter extraction in both syntaxes, masking, and the password file.
* **Candidate lists** (`Merge`, `MergePushdown`, `ExplicitTables`): the needs-vacuum merge with its
  limit pushed into the query, and the explicit table list.

### How the outside world appears

PostgreSQL, the clock and the signal handlers are a *tape*: a datatype of functions from a step
number to an answer. Every observation (a query, a statement, a flag read, a wait) takes one
step, so signals may arrive and time may pass between any two of them. Nothing is assumed about
the answers except what `World.Env.Valid` says: the two shutdown flags are never unset, and a
handler sets the process flag before it sends. A theorem for all tapes is a theorem for all
behaviours of the server and all arrival times of signals.

Code that mutates state is written as methods with loops over fields and locals, and each such
method is proved equal to a specification function on values; the laws are lemmas about those
functions. What a run does is recorded in a trace (tables found, tables taken up, statements sent,
sleeps, kills, logbook rows, a client found closed), and the laws are about traces.

The eight runners of src/operations.rs repeat one loop. It is modelled once and indexed by
phase; the differences are the statement, whether an already-handled set is consulted (phases 4 to
8), and the second pass through the lag gate in `run_also_tables`.

### Where the code and its documentation differ

* The repository's README.md:45 says that a table matched by an earlier mode is not reprocessed by a later one.
  Phases 2 and 3 consult no set, phases 5 and 6 ignore what phase 2 matched, and phase 7 ignores
  everything but phase 2. `Reprocessing.PairExactly` says for which pairs of phases every run keeps the
  claim, `Reprocessing.NothingReprocessedExactly` for which configurations; `RunLaws.OnceInv` is what
  every run keeps.
* The repository's README.md:79 says that a connection lost in mid-run exits with 3. If the loss shows in the
  lookup of active vacuums, the error becomes a message (src/operations.rs:606-612) and the run exits
  with 1 (`AbortCode.LookupLosesCode`). This is the only error that ends a run and loses its code
  (`AbortCode.AbortCodes`).
* The repository's README.md:114 says that only a running VACUUM or ANALYZE is acted on. This holds
  for every behaviour of the server if and only if the mode is finish or at most one signal is sent
  (`ActedOn.ActsOnMaintenanceExactly`). With two, any active statement may be terminated
  (src/shutdown.rs:232-236, `ActedOn.OtherStatementTerminated`), and a second signal during the grace
  period terminates without another look (src/shutdown.rs:288-297, `ActedOn.TerminatedUnread`).
* src/main.rs:294 and config.example.toml:115 document the lag wait as the most for one table. The explicit
  tables pass the gate twice and may wait for up to twice the time (`WaitBudget.WaitsTwice`); for every
  other phase, and only for these, the documented wait is kept (`WaitBudget.OneWaitExactly`).
* src/config.rs:82-84 describes the retry wait as if each delay were capped. It is not: the bound is
  geometric (`Retry.RetryBound`). `RetryCap.EachWithinExactly` and `RetryCap.TotalWithinExactly` say for
  which settings a cap is kept, `RetryCap.DocumentedBoundsFail` gives settings that break both.
* `redact` promises a text that is safe to log. A URI whose password holds a `/` or `?` is not masked as a
  whole, and without an `@` before it not at all (`Uri.PasswordShown`; `Uri.RedactUriHidesPassword` is
  the exact condition). A `password=` in the query of a URI is never masked
  (`Uri.RedactUriKeepsQuery`).
* Extracting SSL parameters is not idempotent on every keyword string: after the SSL parameters are
  gone, what is left may read as a URI (`TwiceLaw.ExtractTwiceFails`; the exact condition, on the
  parsed pairs, in `TwiceLaw.ExtractTwice`).
* `redact` and `parse` trim first, which changes a value that ends in an escaped blank
  (`TrimLaw.TrimmingChangesAValue`; exact condition in `TrimLaw.ParseTrimmed`). So a masked string does
  not always read as the original with its passwords masked: `RedactLaw.RedactExactly` says when it
  does, and `RedactLaw.EscapedBlank` gives the strings `key=\ ` on which it does not, unless the key is
  a password key.
* The lines of a password file are trimmed, so a password that ends in a blank does not come back
  (`PgPass.StoredPassword`).
* A built connection string does not re-parse when host, database or user is empty. An empty
  password does no harm, because it comes last (`KeywordString.BuiltStringReparses`).

## Model

| member | source | states |
|---|---|---|
| KeywordString.SplitKeywordPairs | src/dsn.rs:83-163 | The index-driven parser returns exactly the pairs, or exactly the error, of the grammar given as a recursive function on the remaining text. |
| KeywordString.ParseAnySpelling | src/dsn.rs:78-163 | Completeness of the grammar: blanks before the key and around `=` are skipped, and every spelling of a value (quoted or bare, with any optional backslashes) is read as that value. |
| KeywordGrammar.ParsesExactly | src/dsn.rs:78-163 | The parser returns pairs if and only if the text is, in a grammar without positions, these pairs in order (key, equals sign with blanks around it, any spelling of the value, the last one with a dangling backslash or empty) and then blanks. |
| KeywordGrammar.FailsExactly | src/dsn.rs:104-146 | It returns an error if and only if, behind pairs that it can read, the text goes on with an equals sign without a name, a name without an equals sign, or a value whose quote is never closed; and the error names which. |
| KeywordString.ParsePrint | src/dsn.rs:165-176 | Parsing the printed form of any pairs with well-formed keys and arbitrary values gives those pairs back, in order. |
| KeywordString.ParsedKeysValid | src/dsn.rs:96-107 | Every key the parser returns is non-empty and free of `=` and blanks, so the round trip applies to its output. |
| KeywordString.NormalForm | src/dsn.rs:264-281 | Printing what was parsed and parsing it again changes nothing. |
| KeywordString.QuoteInnerStep | src/dsn.rs:171-172 | Two whole-text replacements in sequence escape each character on its own. |
| KeywordString.BuildConnectionString | src/connection.rs:123-148 | The text assembled from the configuration is the space-joined rendering of its fields, password last. |
| KeywordString.ParseRender | src/connection.rs:139-148 | With the escaper that leaves the empty value bare, a field list reads back exactly when no value but the last is empty. |
| KeywordString.BuiltStringReparses | src/connection.rs:123-137 | A built connection string reads back as the configured fields if and only if host, database and user are non-empty, with any password or none. |
| KeywordString.BuiltStringValues | src/connection.rs:123-148 | Unless host, database or user is empty, a reader of the built string finds each configured value under its own name, once, and numbers that denote the port and the timeout. |
| KeywordString.DecimalDenotes | src/connection.rs:126-131 | The digits written for a number denote it. |
| TrimLaw.ParseTail | src/dsn.rs:145-158 | Blanks after a text change its reading exactly when they follow a dangling backslash in a text that parses; then the last value changes and nothing else. |
| TrimLaw.ParseTrimmed | src/dsn.rs:385-402 | Trimming keeps the reading of a keyword string if and only if it did not remove blanks behind a dangling backslash of a text that parses; otherwise both readings exist and differ in the last value alone. |
| TrimLaw.TrimmingChangesAValue | src/dsn.rs:385-402 | For every key, `key=` with a backslash and a blank reads as a blank, and as a backslash once it is trimmed. |
| Uri.PercentDecodeBytes | src/dsn.rs:59-76 | The index loop computes the decoding of the remaining text, including invalid escapes left as they are and the plus sign that the hex reader accepts. |
| Uri.DecodeEncode | src/dsn.rs:57-76 | Decoding undoes every RFC 3986 encoding of every byte string, whichever bytes are left literal. |
| Uri.EscapesExactly | src/dsn.rs:59-68 | What follows a percent sign is an escape if and only if it is two hexadecimal digits, or a plus sign and one; and which byte it stands for. |
| Uri.IsUriExactly | src/dsn.rs:53-56 | A text is a URI if and only if it starts with `postgres://` or `postgresql://` in any case. |
| Uri.AuthorityIsAfterScheme | src/dsn.rs:179-186 | The authority found by searching for two slashes is the one after the scheme. |
| Uri.AuthorityFoundInPlace | src/dsn.rs:398-399 | The textual search that `replacen` makes for the authority cannot hit an earlier place in the URI. |
| Uri.RedactUriInPlace | src/dsn.rs:389-400 | Masking a URI replaces exactly the span from the first userinfo colon to the last `@` of the authority, and changes nothing when there is no such span. |
| Uri.RedactUriHidesPassword | src/dsn.rs:389-400 | For every scheme, user, password, host and tail: the masked URI is the text with `***` for the password, if and only if the password holds neither `/` nor `?`. |
| Uri.PasswordShown | src/dsn.rs:389-400 | A password with a `/` or `?` is shown: from the last `@` before the first of these on, and if there is none the whole URI comes back unchanged. |
| Uri.RedactUriKeepsQuery | src/dsn.rs:389-400 | Whatever follows the authority is copied, so a password given in the query is never masked. |
| Dsn.ExtractSslParams | src/dsn.rs:214-281 | Both loops compute the three lists of the specification, in order, for either syntax and for parse errors. |
| Dsn.ExtractKeywordParams | src/dsn.rs:264-281 | The keyword loop pushes exactly the SSL pairs, the other keys and the reprinted other pairs. |
| Dsn.ExtractUriParams | src/dsn.rs:224-263 | The segment loop skips empty segments, decodes and splits off the SSL ones and keeps the others verbatim. |
| Dsn.ExtractKeywordMeaning | src/dsn.rs:264-281 | The remainder parses to the order-preserving filter of the original pairs to non-SSL keys, values intact. |
| Dsn.ExtractedPairs | src/dsn.rs:20 | A pair named `sslmode`, `sslrootcert`, `sslcert` or `sslkey` in any case is listed under the lower-case name with its value, every other pair is kept, and nothing is invented or lost. |
| Dsn.ExtractedSegments | src/dsn.rs:236-256 | The same for the segments of a query, by their decoded names and values; an empty segment is dropped. |
| Dsn.SegmentRead | src/dsn.rs:240-250 | A segment is split at its first equals sign and both parts are decoded, the name in lower case; without an equals sign the value is empty. |
| Dsn.OtherNames | src/dsn.rs:251-275 | The names reported beside the SSL parameters are in lower case and none of the four, in either syntax. |
| Dsn.ExtractKeywordTwice | src/dsn.rs:264-281 | Read as a keyword string, the remainder yields no SSL parameter, itself, and the same keys. |
| Dsn.ExtractUriVerbatim | src/dsn.rs:224-263 | Base and kept query segments are copied byte for byte and in order: splitting the remainder gives them back. |
| Dsn.ExtractUriReads | src/dsn.rs:224-263 | From a query written with any encoder, extraction reads the SSL parameters with their decoded values and leaves the query of the other parameters unchanged. |
| Dsn.ExtractUriIdentity | src/dsn.rs:224-263 | URI extraction is the identity if and only if no query segment is empty or an SSL parameter. |
| TwiceLaw.ExtractTwice | src/dsn.rs:214-281 | For every string that can be extracted: a second extraction is the identity if and only if the string is a URI, or its first kept key does not read like one, or no piece that the printed kept pairs hold behind the first question mark is empty or an SSL parameter. |
| TwiceLaw.CleanPairsMeaning | src/dsn.rs:214-281 | Looking at each kept pair by itself, with pieces that run on over a blank told apart, decides whether the query of the whole remainder is clean. |
| TwiceLaw.ExtractTwiceFails | src/dsn.rs:214-281 | A family of keyword strings on which a second extraction finds SSL parameters again. |
| RedactLaw.RedactExactly | src/dsn.rs:385-415 | For every keyword string that parses: the masked string reads as its pairs with only the password values masked, if and only if no blank was trimmed behind a dangling backslash, or the last key is a password key. |
| RedactLaw.RedactMasksPasswords | src/dsn.rs:402-415 | For every text that is no URI and parses once trimmed: the masked text reads as the same keys in order, with `***` under every key that is `password` in any case, and every other value unchanged. |
| RedactLaw.EscapedBlank | src/dsn.rs:385-415 | For every key that does not read as a URI: masking `key=` with a backslash and a blank turns the blank into a backslash, or into the mask if it is a password key. |
| RedactLaw.RedactUnparsable | src/dsn.rs:402-414 | A keyword string that does not parse is replaced as a whole, whether it is trimmed first or not. |
| Dsn.RedactKeywordMeaning | src/dsn.rs:402-415 | Against the trimmed text there is no exception: the masked string parses to its pairs with only the values of password keys replaced by the mask. |
| PgPass.SplitPgpassLine | src/credentials.rs:67-93 | The peeking loop computes the fields of the remaining line. |
| PgPass.SplitLine | src/credentials.rs:67-93 | Splitting the `:`-join of any non-empty list of escaped fields returns the fields. |
| PgPass.GetPassword | src/credentials.rs:41-64 | The result is the password of the first line of the file that is an entry of five fields matching under wildcards, and nothing exactly when no line matches. |
| PgPass.LinesOfFile | src/credentials.rs:43 | A file written from entries without newlines, with either line ending and with or without a last one, splits into the lines written, up to a carriage return at the end of a password. |
| PgPass.LookupEntries | src/credentials.rs:41-64 | In the text of such a file the lookup finds the first entry that is no comment and matches, the host taken without leading blanks, and returns its password without trailing blanks; and nothing exactly when none matches. |
| PgPass.AnswersByColumn | src/credentials.rs:50-60 | An entry of a file answers if and only if it is no comment and host, port, database and user, in this order, are each empty, a star, or the value asked for. |
| PgPass.StoredPassword | src/credentials.rs:43-64 | The stored password itself comes back if and only if its entry answers and it does not end in a blank. |
| PgPass.FirstMatchUnique | src/credentials.rs:43-64 | The lines and a query determine the result. |
| Merge.MergeCandidates | src/operations.rs:476-497 | The filter on the seen set, the sort and the cut compute the merged list of the specification. |
| Merge.MergeCorrect | src/operations.rs:473-497 | For any two lists: one entry per table, in the order asked for; all tables of both lists before the cut; of a table in both the classic entry is kept, in front of added ones; and the result is a prefix of a permutation that is stable on every key. |
| Merge.SortStable | src/operations.rs:488-493 | For every key, sorting keeps the order of the entries that have it. |
| MergePushdown.UniqueOfCut | src/operations.rs:482-486 | Cutting the classic list before the merge loses exactly the keys of the cut-off tables that the second list does not bring back. |
| MergePushdown.LimitPushdown | src/operations.rs:476-497 | If the query keeps the rows with the least keys, in whatever order it breaks ties, merging the cut list and truncating gives the same keys in the same places as merging the full list, for each of the three orders. |
| ExplicitTables.ParseList | src/types.rs:455-486 | The first malformed entry decides the error; otherwise the result lists the named tables once each, in order of first occurrence. |
| ExplicitTables.ParseEntryAccepts | src/types.rs:457-480 | An entry is accepted as schema and table if and only if both are non-empty and the table has no dot. |
| ExplicitTables.ParseEntryRefuses | src/types.rs:457-480 | A blank entry names nothing; one without a dot, with an empty part, or with a second dot is refused, each with its own error. |
| ExplicitTables.Resolve | src/operations.rs:3117-3199 | The loop keeps, in order, the tables outside the logbook schema, in a listed schema and known to the catalog. |
| ExplicitTables.KeptLaws | src/operations.rs:3117-3200 | Resolution keeps exactly the tables outside the logbook schema, in a listed schema and known to the catalog, and introduces no duplicate. |
| World.WaitEndsOnNews | src/operations.rs:783-786 | A wait is cut short only by a signal not seen before, which is then visible on both shutdown flags and cannot cut short any later wait; any other wait lasts its full time. |
| LagGate.ExceedsMeaning | src/types.rs:512-534 | The fold over standbys exceeds a threshold that is not negative exactly when some standby reports a lag that does; a standby without a figure never does. |
| LagGate.ReplicaLagGate.Hold | src/operations.rs:2807-2879 | The waiting loop, with its clipped sleep and early exits, computes the specification of the loop. |
| LagGate.ReplicaLagGate.WaitForReplicaLag | src/operations.rs:2728-2880 | The method computes verdict, counters, clock and trace of the specification, for every tape. |
| LagGate.WaitLoopBounded | src/operations.rs:2803-2879 | From any point of the loop, the sleeps to come add up to at most the time left and number at most its quotient by the poll interval, rounded up. |
| LagGate.WaitLoopVerdict | src/operations.rs:2807-2879 | Each verdict adds the whole wait once, a skip is counted exactly with a skip verdict and only after the deadline, and proceeding rests on the latest reading being within the threshold. |
| LagGate.WaitForLagVerdict | src/operations.rs:2728-2880 | One call sleeps at most the configured wait in at most ceil(wait / poll) naps; skips and counted skips coincide; the gate goes off for good exactly on an empty or unreadable view; a dry run never waits. |
| LagGate.WaitForLagPatience | src/operations.rs:2764-2879 | A table is skipped only after the whole configured wait, and lag within the threshold at once means no wait. |
| LagStory.WaitLoopStory | src/operations.rs:2803-2879 | The whole course of a wait, told by the readings, the signals and the clock: so many full naps that each end in a reading above the threshold, then the first reading within it, the first failed query, the first signal, or the deadline; every nap but the last lasts the poll interval, with 0 read as 1, in nanoseconds, and the clock moves on by exactly the naps that were not cut short. |
| LagStory.LagGateVerdict | src/operations.rs:3299-3352 | What the gate decides for a table in every case: no gate, gate off, failed query, nothing to see, low lag or dry run, no time to wait, and otherwise the end of the wait that the verdict claims. |
| GateOff.OffIsAbsent | src/types.rs:590-599 | From any point of any run on, a gate that is off makes no difference: the rest of the run, over all phases, is that of a run without a gate, and the gate stays as it is. |
| GateOff.BlindGateGoesOff | src/operations.rs:2738-2762 | Where no standby can be seen, the gate is off at the end of every run that took up a table at all. |
| Retry.WithLockTimeoutRetry | src/operations.rs:753-790 | The loop with its saturating delay computes outcome, waits and trace of the specification. |
| Retry.RetryBound | src/operations.rs:753-790 | At most retries + 1 calls; the k-th delay is min(d * 2^k, 2^64 - 1); all delays together at most d * (2^retries - 1); all calls but the last timed out on the lock; the result is the last outcome; a lock timeout is returned only when retries are used up or a shutdown was requested. |
| Retry.NoSaturation | src/main.rs:1020-1035 | Within the accepted ranges the delays double exactly, without saturating. |
| RetryStory.RetryClock | src/operations.rs:753-790 | The clock moves on by the time of the steps and, in milliseconds, by every delay that was not cut short; only the last can be, and no call follows it. |
| RetryStory.RetryHeedsSignals | src/operations.rs:770-790 | If signals beat timers, no call but the first is begun once a signal has been sent. |
| RetryStory.OperateExactly | src/operations.rs:879-941 | Which operations count dead tuples; an operation succeeds if and only if all it asks succeeds, returns its first failure, and sends its statement unless the count in front of it fails. |
| RetryCap.EachWithinExactly | src/config.rs:82-88 | Every delay stays within a cap on every tape if and only if there is no retry or the last scheduled delay does. |
| RetryCap.TotalWithinExactly | src/config.rs:82-88 | For accepted settings, the whole wait for a table stays within a bound on every tape if and only if delay * (2^retries - 1) does. |
| RetryCap.DocumentedBoundsFail | src/config.rs:82-88 | Two retries from 60000 ms sleep 120000 ms; twenty add up to more than fifty thousand times the documented total. |
| Retry.OperateTable | src/operations.rs:879-941 | The four operations: whether dead tuples are counted before and after, and which failure is returned. |
| Runner.PhaseRunner.TerminateBackends | src/operations.rs:625-633 | Backends are killed in order up to the first failure. |
| Runner.PhaseRunner.Gates | src/operations.rs:3299-3352 | One pass through the lag gate, two for the explicit tables, then the active-vacuum gate. |
| Runner.PhaseRunner.HandleActiveVacuums | src/operations.rs:956-1064 | The method computes the decision, the kills and the booked skip of the specification, in all branches of skip, force and dry run. |
| Runner.PhaseRunner.BookOutcome | src/operations.rs:1164-1282 | Success, lock timeout, failure, connection loss and shutdown interruption are booked, logged and left as the specification says. |
| Runner.PhaseRunner.Table | src/operations.rs:1796-1878 | The body of a runner's loop: checks, gates, dry-run cut and work, in this order. |
| Runner.PhaseRunner.Tables | src/operations.rs:1080-1287 | The loop of every runner computes the summary, gate and trace of the specification. |
| RunnerLaws.ActiveVacuumKills | src/operations.rs:956-1064 | The gate opens only after every autovacuum worker found was killed, and every manual session too, which needs force; a skip kills no manual session. |
| GateVerdicts.ActiveVacuumVerdict | src/operations.rs:956-1064 | The verdict as an if-and-only-if over the answers: pass if nothing is found, or skipping is off, every worker can be killed, and manual sessions are absent or may and can be killed; skip if skipping is on or manual sessions remain that may not be killed; otherwise the run ends with the error that stood in the way. |
| GateVerdicts.KillAllExactly | src/operations.rs:625-633 | Killing succeeds if and only if every answer is a success, and otherwise returns the first failure. |
| RunnerLaws.TakenUpOnlyWhenClear | src/operations.rs:1786-1848 | A table is taken up only with an open client, no visible shutdown, not already handled, a clear lag gate, and a lookup of active vacuums that lets it pass. |
| Outcome.TableOutcome | src/operations.rs:1164-1282 | The last call made for a table decides, as an if-and-only-if on its error and on the channel in the step that reads the flag: an interruption, which books a skip and leaves the loop, exactly if the call ended in a cancelled statement or a lost connection and the shutdown is published; otherwise success, skip on a lock timeout, failure, or the typed loss; with exactly the one logbook row of phase, table and status that goes with it, or none; without a call neither success, failure nor row. |
| Outcome.TableLoss | src/operations.rs:669-680 | A closed client or a lost connection leaves the runner with the typed loss, unless a shutdown explains it. |
| Outcome.SuccessMeansStatement | src/operations.rs:879-941 | A success is booked only for a table whose statement was sent and succeeded. |
| RunnerLaws.TableLate | src/operations.rs:1104-1160 | A statement of a table is sent after the flag is set only if the flag was clear at the top of the loop, and at most one is. |
| RunnerLaws.TablesTakeUp | src/operations.rs:1786-1975 | In one phase every table is begun at most once, only if the phase matched it and its set does not hold it; statements belong to begun tables. |
| RunnerLaws.Accounting | src/operations.rs:1089-1287 | Succeeded, failed and skipped never exceed the total and add up to it without dry run and shutdown; every skip of the lag gate is a booked skip; a dry run succeeds and fails at nothing and notices at most a closed client. |
| Run.Maintenance.Candidates | src/main.rs:1702-1846 | Needs-vacuum tolerates failures of every query but the classic list and returns the merged tables. |
| RunLaws.RunSets | src/main.rs:1510-1997 | In every run that is not aborted, whatever is skipped, fails or is interrupted, the three sets hold exactly the tables matched by the phases that feed them. |
| Searches.DiscoverExactly | src/main.rs:1702-1846 | What each phase finds, in terms of the answers and the options; for needs-vacuum one entry a table from both lists in the order asked for, classic before added, as many as the limit allows and the best of them, with a failed second list read as empty. |
| Searches.MergedIsChosen | src/operations.rs:473-497 | The merged list is a choice in this sense: no table left out comes before one that is kept. |
| Searches.ZeroMeansSearched | src/main.rs:1510-2158 | In every run each phase searches at most once, only if it was asked for, and in the fixed order; and a run that exits with 0 has searched in every phase that was asked for. |
| Searches.NothingAfterShutdown | src/main.rs:1514-1520 | Once a shutdown is visible between two phases, the rest of the run does nothing. |
| Searches.FailedSearchExits | src/main.rs:1531-1951 | For every error and every configuration with a phase that searches: if the searches fail with it and no signal comes, the run exits with 3 for the seven kinds of lost connection and with 1 otherwise. |
| RunLaws.ConsultedSet | src/main.rs:1510-1997 | The set a phase consults is exactly the tables matched by the phases that block it. |
| Run.Maintenance.Phase | src/main.rs:1514-1997 | One phase computes the sets, the failure total, the gate and the trace of the specification; phases 1 to 3 insert before they run, 4 to 7 after. |
| Run.Maintenance.Run | src/main.rs:1510-2158 | Eight phases in order with early return, the last flag check and the exit code of `main`. |
| RunLaws.AtMostOneLateStatement | src/main.rs:1514-1997 | However and whenever a shutdown arrives, at most one statement of the whole run is sent after the flag is set, counting retries and all later phases. |
| RunLaws.RunOnce | src/main.rs:1510-1997 | In every run each phase takes up a table at most once, only if it matched it, and never if an earlier blocking phase matched it. |
| RunLaws.AtMostOncePerGroup | src/main.rs:1510-1997 | A table is taken up at most once by phases 1, 4, 5, 6, 8 together, by 3, 4, 5, 6, 8 together, and by 2, 7, 8 together. |
| RunLaws.MatchedMeansHandled | src/main.rs:1532-1535 | A table matched in phase 1 or 3 is never taken up in phases 4, 5, 6 or 8, whatever happened to it. |
| CalmRun.CalmRunExact | src/main.rs:1510-1997 | When nothing goes wrong and the lag never holds the gate, the run exits with 0 and takes up a matched table exactly once unless an earlier blocking phase matched it, and then not at all. |
| Reprocessing.PairExactly | README.md:45 | For every pair of phases: in no run of any configuration does the later one take up what the earlier one matched, if and only if the earlier one blocks it. |
| Reprocessing.NothingReprocessedExactly | README.md:45 | For every configuration: no run on any tape that honours the limit reprocesses a table, if and only if the run is dry, or the limit is 0, or every two selected phases block. |
| Reprocessing.ReprocessedUnlessBlocked | README.md:45 | On a server where one table satisfies every query, with two phases selected, the later one leaves the table alone if and only if the earlier one blocks it. |
| Outcome.TablesRows | src/operations.rs:78-102 | One success row per success, one error row per failure, and no more cancelled rows than skips. |
| Outcome.ExitCodes | src/main.rs:2144-2158 | 130 whenever a shutdown was published before the last check, on either path; 0 exactly without abort, shutdown and failed statement; 3 exactly on a typed connection loss without a marked shutdown; a client found closed or a statement that lost its connection ends in 3, or in 130 after a signal. |
| WaitBudget.TableNaps | src/operations.rs:3299-3339 | One table waits in the lag gate at most the configured time, at most twice that in phase 8, and not at all in a dry run. |
| WaitBudget.OneWaitExactly | src/main.rs:294 | On every tape and from every state one table waits at most the configured time, if and only if the phase is not 8, or there is no gate, or the run is dry, or the configured time is 0. |
| WaitBudget.WaitsTwice | src/operations.rs:3299-3339 | For every gate that waits at all, a tape on which a table of phase 8 waits the whole configured time and one poll interval more, which is twofold if the interval is the longer. |
| WaitBudget.RunWaitsWithinBudget | src/main.rs:1510-1997 | The lag waits of a whole run add up to at most the budgets of the tables matched. |
| AbortCode.AbortCodes | src/db_error.rs:111-113 | An aborted run without a marked shutdown ends in 3 for a closed client, for a lost statement, and for a query of the last step whose error is a lost connection, else in 1; a failed lookup of active vacuums, and nothing else, ends in 1 whatever its error. |
| AbortCode.LookupLosesCode | src/operations.rs:606-612 | On every tape that finds tables, is open and does not lag, and for every configuration that selects a phase: if the lookups of active vacuums fail, with whatever errors, the run exits with 1. |
| AbortCode.UnreadableLagExits | src/operations.rs:2728-2745 | A run that finds a table and cannot query the lag exits with 3 for a lost connection, else with 1. |
| AbortCode.FailedKillExits | src/operations.rs:1003-1013 | So does a run that cannot kill the autovacuum worker in its way. |
| AbortCode.ClosedClientExits | src/operations.rs:1104-1112 | A run that finds a table and its client closed exits with 3. |
| Outcome.DryRunSilent | src/operations.rs:1143-1152 | A dry run only searches and notices a closed client, whatever the server answers: no statement, kill, wait, logbook row or failure. |
| Watcher.ShutdownWatcher.HandleSignal | src/shutdown.rs:218-318 | The polling loop and the escalation compute counter, position and trace of the specification. |
| Watcher.ShutdownWatcher.RunWatcher | src/shutdown.rs:174-216 | The receiving loop computes the whole run of the watcher. |
| Watcher.RunSafe | src/shutdown.rs:174-330 | For every tape, mode and number of signals: the counter is the number of signals received; a cancel comes only at count 1 on a read that shows maintenance; a terminate only on an active read at count 2 or in terminate mode, after a cancel, the full grace and a read of the same statement, or on a second signal during the grace. |
| Watcher.RunCounts | src/shutdown.rs:182-184 | Every signal that is sent is received and counted. |
| Watcher.SafeTrace | src/shutdown.rs:174-330 | At most one cancel per process, and in finish mode nothing but received signals. |
| Watcher.IdleLeftAlone | src/shutdown.rs:228-268 | If no read shows an active statement, nothing is cancelled or terminated. |
| Watcher.HandleBounded | src/shutdown.rs:158-162 | Handling one signal ends after at most nine reads, seven polls, one cancel, one grace period and one terminate. |
| Watcher.PollingFinds | src/shutdown.rs:226-261 | A statement that starts during any of the eight polls is found there, or, if a further signal is queued, at an earlier read that this signal made worth acting on. |
| Watcher.FirstSignalTerminates | src/shutdown.rs:270-316 | If the controller connects and a maintenance statement stays active with one start time, the first signal ends in a terminate after at most two reads and one grace period. |
| Watcher.SecondSignalActsAtOnce | src/shutdown.rs:270-272 | From the second signal on, a read that shows anything active is followed at once by a terminate. |
| WatcherActs.LaterSignalTerminates | src/shutdown.rs:174-216 | In a run outside finish mode, connected and with a signal already counted, the next signal is followed by a read, and by a terminate at once if the read shows anything active. |
| WatcherActs.LaterSignalConnects | src/shutdown.rs:188-216 | The same where the connection is only opened at that later signal. |
| WatcherActs.FailedConnect | src/shutdown.rs:188-206 | A signal that cannot open the connection is counted and nothing else; the next one tries again. |
| WatcherActs.FirstSignalActs | src/shutdown.rs:174-316 | The first signal on a session that runs maintenance terminates it in terminate mode and cancels it in cancel mode, in every run. |
| WatcherActs.EscalateExactly | src/shutdown.rs:274-316 | After a cancel: a second signal during the grace terminates at once; otherwise one more read decides, and terminates if and only if the same statement is still active. |
| WatcherActs.HandleDoesNothing | src/shutdown.rs:218-268 | A signal does nothing but look if a read fails before one that is worth acting on, if all eight reads show an idle session, or if there is no further signal and none shows maintenance. |
| ActedOn.ActsOnMaintenanceExactly | README.md:114 | Every cancel and terminate hits a statement that was seen to be maintenance and just before to be active, for every tape, if and only if the mode is finish or at most one signal is sent. |
| ActedOn.OtherStatementTerminated | src/shutdown.rs:228-272 | In cancel and terminate mode, two signals lead to a terminate of a session in which no read ever showed maintenance. |
| ActedOn.TerminatedUnread | src/shutdown.rs:288-297 | In cancel mode a second signal during the grace period terminates the session without another read. |

## Left out

- PostgreSQL itself, TLS, sockets and the SQL text of statements and queries; answers come from the tape.
- Everything in `run()` before the first phase (arguments, configuration file, connecting, locking, session settings) and the printed summary; the run starts with an arbitrary clock and gate.
- Logging, log rotation, message texts, `Display` and `FromStr`; the horizon diagnostics after a vacuum that changed nothing, which only affect a message.
- The floating-point side of lag: lags and thresholds are reals and NaN does not occur.
- Uri.PercentDecodeBytes: works on bytes; the lossy UTF-8 conversion of the result and slicing inside a multi-byte character are not modelled.
- Uri.DecodeEncode: states the round trip on bytes, before the lossy conversion, which is the identity on valid UTF-8.
- Reading the password file and its permission check; the lookup starts from the text of the file.
- `dsn::parse` after the extraction: `tokio_postgres::Config` is foreign code. `map_sslmode` and `uri_has_explicit_port` are easy one-call facts.
- Wrap-around of the watcher's 32-bit signal counter.
- Runner.PhaseRunner.Tables: the eight loops are one loop indexed by phase; the dead-tuple figures written to the logbook are not modelled.
- Watcher.RunSafe: a select with a queued signal may also take its timer, which allows more behaviours than the runtime shows; the log-only results of cancel and terminate calls are not modelled.
- LagGate.ReplicaLagGate.WaitForReplicaLag: time passes only at steps, one of them before each look at the remaining time, so the two clock reads at the end of a turn agree.
- Merge.SortByKey: the library's stable sort is an insertion sort here; the laws fix its result.
