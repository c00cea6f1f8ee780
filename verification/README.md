# Verification of the agami core

This project models the parts of the agami core where a mistake is silent: the SQL guard's lexer and
gates, the two thread protocols around a running statement, the guarded execution pipeline, the OAuth
token endpoint, the database handle with its reconnects and migrations, the account life cycle, the
served model's rows, the activity view and exact number printing. Each is stated in Dafny as the code
does it, branch by branch, and its promises are proved for every input, every run or every reachable
state.

How the parts are built:

- Code that changes things step by step is a class or a method with loops. Its `ensures` ties it to a
  function of its inputs or of the old state, and lemmas about that function state what it means.
- Concurrent code is a state machine over labelled steps. Every request, thread or instance is split
  where the code is split (a read, later one write transaction; a lock section; a statement on one
  connection), and theorems quantify over every legal sequence of steps from the start. Where a read
  may be used by a later write, the machine keeps the read usable for ever, which covers every request
  in flight and more; where a theorem turns on what is in flight, as with a login's rehash, it is used once.
- What the repository takes from outside (Unicode tables, deny-lists, hashes, drivers, clocks, gates of
  the semantic model) is a parameter. The theorems hold for every value of it that has the few
  properties named at its declaration.

| files | what they model |
|---|---|
| `SqlText`, `SqlLexer`, `SqlGrammar`, `Neutralizer`, `SqlWelding`, `SqlCopies`, `SqlSpans`, `SqlGates`, `SqlVerdicts`, `SqlShapes`, `SqlLiterals` | the statement lexer, its analysis copy and the gates that read it |
| `TokenTables`, `TokenRuns`, `TokenSafety`, `TokenChecks`, `IsoStamp` | authorization codes, refresh tokens, and the text order of their expiries |
| `Accounts`, `AccountRuns`, `AccountChecks`, `ResetLinks` | the users table, and reset links over it and the token tables together |
| `BoundedExecutor`, `Watchdog` | the bounded wait, the statement watchdog and the batch connections |
| `FailureMessages`, `GuardedPipeline`, `PipelineAnswers`, `RedactSpans` | the execution chokepoint, its failure sentences, and span redaction |
| `StoreReconnect`, `Migrations`, `MigrationRuns`, `MigrationEnds` | the database handle, one migration run, and several at once |
| `ModelStore`, `ModelRoundTrip`, `ModelOrder`, `ModelWriter` | the model's rows, written and rebuilt |
| `Activity`, `ActivitySessions` | conversations and turns |
| `Numerals`, `DigitGroups`, `NumberFormat`, `NumberExact` | exact number printing |
| `Sorting`, `Common` | the stable sort and the few definitions several of them use |

The handlers that change state are methods of these classes. Each method's `ensures` gives its whole new
state as the function the module's machine steps with, so the theorems below, which are about that
machine, are about the handlers:

| class | source | what its methods tie to |
|---|---|---|
| `TokenTables.TokenStore` | `packages/agami-core/src/oauth_server.py:382-681` | `MintCode`, `Exchange`, `Overwrite`, `Rotate`, `BurnFamily`, `RevokeUser`, the steps of `TokenRuns` |
| `Accounts.UserStore` | `packages/agami-core/src/user_store.py:55-328` | `Create`, `ClaimOidc`, `Bind`, `SetUp`, `Reset`, `Rehash`, the steps of `AccountRuns` |
| `BoundedExecutor.Executor` | `packages/agami-core/src/execute_sql.py:3279-3317` | `Finish`, `Decide` and the cap check, the steps of a call |
| `Watchdog.Deadline`, `Watchdog.BatchPool` | `packages/agami-core/src/execute_sql.py:2239-2266`, `2673-2695` | the timer's and the block's sections, `HandedOut`, `Kept` |
| `StoreReconnect.Store` | `packages/agami-core/src/store.py:182-270` | `Execute`, `Commit`, `Rollback` and the guard of a reconnect |
| `Migrations.Database` | `packages/agami-core/src/store.py:274-366` | `Missing` over `Plan` |
| `GuardedPipeline.Chokepoint` | `packages/agami-core/src/execute_sql.py:3376-3609` | `Guarded` |
| `ModelWriter.ModelTables` | `packages/agami-core/src/model_store.py:96-158` | `Written` |

Results that are not what a first reading of the code or its comments suggests:

- At the cap of abandoned workers the bound is `cap - 1 + n` for `n` concurrent callers, and it is
  reached (`BoundedExecutor.BoundAttained`). A call gets its own outcome exactly when its worker's last
  section comes before the end of its caller's wait (`BoundedExecutor.OwnIffWorkerFirst`), so one whose
  work is complete can be answered as expired (`BoundedExecutor.DoneYetExpired`).
- `rollback` does not free a handle whose connection died mid-transaction: it raises before it clears the
  flag. `StoreReconnect.LostIff` says exactly which handles only `close` can free, and
  `StoreReconnect.LostReached` reaches one.
- A reset can be undone by the rehash of a login that was verified before it (`AccountRuns.ResetUndone`).
  It shuts the old password out for good exactly when no login that passed with it has its rehash still to
  write at that moment (`AccountRuns.ResetShutsOutIff`, from `AccountRuns.RestoredIff`).
- Connection deaths cannot be told from the database as long as no call raised
  (`StoreReconnect.DeathsUnseen`), and one that hits an idle handle costs no statement
  (`StoreReconnect.IdleDeathHealed`).
- The migration lock outlives a call only in a live session whose call failed and could not unlock
  (`MigrationEnds.HeldIff`), so an instance that boots can always finish (`MigrationEnds.BootCanFinish`).
- Overwriting a refresh token in place gives up replay detection for it, and nothing else does
  (`TokenSafety.ReplayExact`).
- What a literal or a comment says reaches the analysis copy exactly when a `$` tag left open in front of
  it stands in its body (`SqlLiterals.BodyMattersIff`); `SqlLiterals.DollarBodyMatters` is such a pair.
- Relationship keys are unique by position but sort as text, in order exactly up to ten of them
  (`ModelOrder.KeysAscendIff`). Where the database sorts by code point, an area's relationships come back
  in their order up to ten, and distinct ones never beyond (`ModelOrder.LoadKeepsOrderIff`).
- A listed session mixes two conversations exactly when a call without one has the actor `conversation`
  and the other's id as its thread (`ActivitySessions.MixedIff`); `ActivitySessions.BorrowedSession` shows
  two such rows. Likewise a turn mixes two correlation ids exactly when a call without one has an id that
  is another's correlation id (`Activity.MixedTurnIff`).
- An overlay directory whose name continues another's after a colon, or a core file named like an
  overlay's file behind its name, can share a tracking id with it. `run_migrations` accepts them:
  `Migrations.IdsMeetIff` and `Migrations.PlanUniqueIff` say exactly when a plan names an id twice, and
  `MigrationRuns.InsertConflictIff` that the call then fails at the second one's tracking row.

## Model

| member | source | states |
|---|---|---|
| SqlText.RunsAreMaximal | packages/agami-core/src/sql_guard.py:345-372 | the words a whole-word pattern is asked about are exactly the maximal runs of word characters |
| SqlLexer.QuoteIdentRoundTrip | packages/agami-core/src/execute_sql.py:2575-2578 | lexing a quoted identifier gives back exactly the name that was quoted, and consumes exactly the quoted text, if and only if no further quote follows it |
| SqlLexer.ConsumeIsDelimited | packages/agami-core/src/sql_guard.py:259-310 | the scan of a delimited construct ends at its first unescaped closer, or at the end of the text |
| SqlGrammar.LexIffParses | packages/agami-core/src/sql_guard.py:127-339 | the lexer returns a list of constructs exactly when those constructs cut the whole statement by the declarative grammar, first opener wins: no statement has two readings |
| SqlGrammar.AmbiguousIffLive | packages/agami-core/src/sql_guard.py:186-250 | a statement is refused exactly when a live `#`, `/*!` or bare `--x` opens where the constructs before it end |
| SqlGrammar.LexPartitions | packages/agami-core/src/sql_guard.py:174-326 | the constructs partition the statement |
| Neutralizer.NeutralizeStatement | packages/agami-core/src/sql_guard.py:127-339 | the one-pass loop with its running width and spans computes the copy that the recursive lexer's constructs emit |
| Neutralizer.ScanIsLexThenRender | packages/agami-core/src/sql_guard.py:174-326 | scanning construct by construct with a look-behind at the last emitted character equals lexing first and rendering after |
| SqlWelding.NoWelding | packages/agami-core/src/sql_guard.py:162-339 | every character of the copy is the input's at its recorded origin or a supplied separator, and two adjacent word characters come from adjacent input positions of one construct |
| SqlWelding.TextShowsVisible | packages/agami-core/src/sql_guard.py:127-339 | the word runs and the non-blank characters of the copy are those of the visible statement with every construct boundary spelled out |
| SqlCopies.CopyIs | packages/agami-core/src/sql_guard.py:127-339 | the copy is exactly: each character of the statement's own text, one space for each comment and literal, each identifier without its quotes with a space for a quote exactly where it stood next to a word character of the own text, stripped; the spans are exactly those of closed contents that are not empty and that the strip left whole |
| SqlSpans.QuotedSpans | packages/agami-core/src/sql_guard.py:311-339 | reported spans are in range, ordered, disjoint and non-empty, and each holds exactly the unescaped content of a closed quoted identifier |
| SqlSpans.QuotedSpansComplete | packages/agami-core/src/sql_guard.py:328-339 | every closed identifier is reported whose content is not empty and lost nothing to the strip |
| SqlSpans.NiladicExact | packages/agami-core/src/sql_guard.py:745-784 | the niladic matcher fires exactly when a niladic word not qualified by a dot stands outside every closed identifier, or inside one the strip cut |
| SqlGates.ReadOnlyExact | packages/agami-core/src/sql_guard.py:523-606 | within the cap, emptiness, a second statement, the first word behind any `(`, denied words and row-lock clauses are decided by the visible text of a readable statement alone; only the function pattern, the last rung, is matched on the copy |
| SqlGates.AcceptedNames | packages/agami-core/src/sql_guard.py:523-606 | of an accepted statement no word of a quoted identifier's content is a denied keyword |
| SqlGates.AcceptedOwnText | packages/agami-core/src/sql_guard.py:523-606 | nor is any word of a stretch of the statement's own text |
| SqlGates.AcceptedIsOneStatement | packages/agami-core/src/sql_guard.py:523-606 | and its visible text has no `;` but a last one followed only by whitespace |
| SqlVerdicts.UnreadableIff | packages/agami-core/src/sql_guard.py:545-566 | told from the grammar alone: a statement is refused as empty exactly when all of it is blank, as too long exactly when it is longer than 50,000 characters, and as unreadable with a form exactly when a live instance of that form opens behind constructs that read all before it |
| SqlVerdicts.AllowedIff | packages/agami-core/src/sql_guard.py:523-620 | a statement is accepted exactly when it is within the cap, cut by the grammar, and what it reads as is, behind one last `;`, not blank, one statement, opened by a query word behind any `(`, without denied words, row-lock clauses told by the places of their words, and without a match of the function pattern |
| SqlVerdicts.ReconIff | packages/agami-core/src/sql_guard.py:807-850 | the metadata gate refuses a statement as metadata exactly when it is not blank, reads, and its copy matches a pattern of calls or it names a niladic word outside wholly kept identifiers; and as unparseable with a form exactly when a live instance of that form stops it |
| SqlShapes.FingerprintIff | packages/agami-core/src/sql_guard.py:787-805 | a statement has a fingerprint exactly when it reads and its shape is not blank, and the fingerprint is then the one text that has the shape's pieces in order with single spaces between them and no final `;` |
| SqlLiterals.BodyMattersIff | packages/agami-core/src/sql_guard.py:186-310 | where the lexer meets a closed string literal or a comment, it meets the one with another well-formed body exactly when no `$` tag left open in front of it stands in that body, and the text and spans emitted for a readable statement agree exactly then |
| SqlLiterals.BodyIsIrrelevant | packages/agami-core/src/sql_guard.py:162-339 | so any other such body leaves the copy, its spans and every ambiguity refusal as they are |
| SqlLiterals.VerdictsIgnoreBodies | packages/agami-core/src/sql_guard.py:787-850 | and with them both gate verdicts, within the length cap, and the fingerprint |
| IsoStamp.PadOrder | packages/agami-core/src/oauth_server.py:95-96 | zero-padded numbers of one width order as text exactly as they order as numbers |
| IsoStamp.IsoOrder | packages/agami-core/src/oauth_server.py:95-96 | stored ISO stamps order as text exactly as their instants do in time, with or without a fraction |
| IsoStamp.ExpiredIsPast | packages/agami-core/src/oauth_server.py:473-482 | so the text comparison means expired, and stays true as the clock moves on |
| TokenChecks.ExchangeWasChecked | packages/agami-core/src/oauth_server.py:535-567 | every exchange in any run follows a look-up, earlier in that run, that found the code as it was minted, unused and unexpired, with the redirect of its row and a verifier whose challenge is the stored one |
| TokenChecks.PassesIff | packages/agami-core/src/oauth_server.py:535-553 | a code is let through exactly when its row is unused and unexpired, its redirect is the form's and the challenge of the form's verifier is the stored one |
| TokenChecks.CodeErrorIff | packages/agami-core/src/oauth_server.py:535-553 | and any other code form gets the error of its first failing check: no unused row, past its time, another redirect, no proof, or no secret to sign with |
| TokenChecks.RenewalWasChecked | packages/agami-core/src/oauth_server.py:570-616 | every renewal in any run follows a look-up, earlier in that run, that found the shown token held, not revoked, not past its expiry at that clock, and issued to the form's client where both name one |
| TokenChecks.RenewableIff | packages/agami-core/src/oauth_server.py:577-616 | a refresh token is let through exactly then; a replay is answered exactly for a revoked row, an expiry exactly for one not revoked and past its time, and each other error exactly for the first check that fails |
| TokenChecks.CleanupsExact | packages/agami-core/src/oauth_server.py:382-390 | the clean-ups remove exactly the codes used or expired and exactly the revoked tokens past their expiry, and change no other row |
| TokenChecks.LineageKeepsClient | packages/agami-core/src/oauth_server.py:429-470 | every row of a lineage carries the client its code was exchanged for |
| TokenChecks.FlowSucceeds | packages/agami-core/src/oauth_server.py:393-651 | in any state, a code minted now and shown with its redirect and a verifier of its challenge is exchanged, and its token renewed, in either mode, by its own client or one that gives no id; the successor is live then and its predecessor is not |
| TokenSafety.ExchangedOnce | packages/agami-core/src/oauth_server.py:535-567 | over every interleaving each code and each refresh token is exchanged at most once, no token is issued twice and no two exchanges share a family |
| TokenSafety.LineageKeepsSid | packages/agami-core/src/oauth_server.py:429-470 | every access token of a lineage carries the `sid` and the user of its exchange, and lineages are told apart by family |
| TokenSafety.OneLiveRow | packages/agami-core/src/oauth_server.py:570-651 | at any time a family has at most one live row, in either mode and with the mode changing mid-run |
| TokenSafety.LiveExactly | packages/agami-core/src/oauth_server.py:570-681 | a token is live exactly when it was issued and has since not been renewed, nor its family burned, nor its user revoked: a burned family never lives again and no clean-up takes a live row |
| TokenSafety.RevocationOutlived | packages/agami-core/src/oauth_server.py:654-681 | a row of a user that is live after a revocation descends from a code exchanged after it |
| TokenSafety.NothingIssuedAfter | packages/agami-core/src/oauth_server.py:591-603 | nothing is ever issued in a burned family, and what is issued to a user after a revocation is of a later lineage |
| TokenSafety.ReplayExact | packages/agami-core/src/oauth_server.py:587-605 | a spent token shown no later than its expiry is recognised as a replay exactly when it was spent by rotation |
| TokenSafety.ReplayBurns | packages/agami-core/src/oauth_server.py:591-603 | such a replay may be answered by a burn, after which the family has no live row in any continuation |
| AccountRuns.BindingWriteOnce | packages/agami-core/src/user_store.py:98-121 | over any interleaving provider and subject are write-once, an account never returns to pending, and one with a password never gains a provider |
| AccountRuns.OneTaker | packages/agami-core/src/user_store.py:184-194 | at most one of all set-up passwords and provider claims of an account ever succeeds |
| AccountRuns.LoginsAgree | packages/agami-core/src/oauth_server.py:892-934 | all successful provider logins to one account carry the same provider and subject, those of its row |
| AccountChecks.SignInWasChecked | packages/agami-core/src/oauth_server.py:887-934 | over every run, a provider sign-in signed up a new name or follows a look-up, earlier in that run, of the same name, provider and subject, at a state where that account's status was `active` or `demo` |
| AccountChecks.LookUpAllows | packages/agami-core/src/oauth_server.py:907-930 | a look-up leaves a claim to write exactly for an account with one of those statuses and neither a password nor a provider, a binding exactly for one with such a status and this provider, and otherwise nothing |
| AccountChecks.SignInSucceeds | packages/agami-core/src/oauth_server.py:910-930 | a sign-in that nothing interrupts succeeds on such an account: a claimed one carries its provider and subject then, a bound one unless another subject is bound to it |
| AccountChecks.NewNameSignsIn | packages/agami-core/src/oauth_server.py:936-959 | a name that is not taken signs up as a demo account bound to its provider and subject, and the same sign-in succeeds again |
| AccountChecks.ResetWasLinked | packages/agami-core/src/onboarding.py:109-302 | every reset in any run used a link minted earlier in that run for the account, with the marker of its hash at that time, and spent a hash with that marker |
| AccountRuns.LinkOnce | packages/agami-core/src/onboarding.py:275-302 | any number of posts of one reset link change the password at most once, and a spent link is never actionable again |
| AccountRuns.OpensIffLastWritten | packages/agami-core/src/user_store.py:184-328 | over every interleaving a password opens an account exactly when it is the one written last by a create, a set-up or reset whose guard passed, or any rehash, and the account is active |
| AccountRuns.ResetOpensIff | packages/agami-core/src/user_store.py:197-235 | the password a reset set opens the account from then on exactly until another is written last or the account is switched off |
| AccountRuns.RestoredIff | packages/agami-core/src/user_store.py:307-328 | a password that does not verify can open the account again, without being chosen again, exactly when a login that passed with it has its rehash still to write |
| AccountRuns.ResetShutsOutIff | packages/agami-core/src/user_store.py:197-328 | so a reset shuts the old password out for good exactly when no such login is in flight at the reset |
| AccountRuns.ResetUndone | packages/agami-core/src/user_store.py:321-327 | a reachable run in which a reset succeeded and the old password opens the account again |
| ResetLinks.IssuedAfterReset | packages/agami-core/src/oauth_server.py:672-677 | every token issued to that user after the reset is of a lineage whose code was exchanged after it |
| ResetLinks.LiveAfterReset | packages/agami-core/src/onboarding.py:358-385 | and so is every row of that user that is live at a later time |
| BoundedExecutor.CounterExact | packages/agami-core/src/execute_sql.py:3285-3317 | in every reachable state the counter is the number of abandoned calls whose worker still runs, so it is never negative and 0 once they are done |
| BoundedExecutor.AbandonedBounded | packages/agami-core/src/execute_sql.py:1998-2000 | with at most n callers at once the counter never exceeds cap - 1 + n |
| BoundedExecutor.BoundAttained | packages/agami-core/src/execute_sql.py:3279-3317 | and it is reached, for every cap and every n |
| BoundedExecutor.AnswersFinal | packages/agami-core/src/execute_sql.py:3318-3322 | every call that has ended has exactly one answer for good: saturated, expired, or its own worker's own result or error |
| BoundedExecutor.OwnIffWorkerFirst | packages/agami-core/src/execute_sql.py:3296-3322 | over every run, an admitted call that has ended gets the outcome its worker produced exactly when its worker's last section came before the end of its wait, and the expiry answer otherwise |
| BoundedExecutor.SaturatedIff | packages/agami-core/src/execute_sql.py:3279-3283 | a call is answered as saturated, for good, exactly when the counter stood at the cap or past it at its check |
| Watchdog.CancelSound | packages/agami-core/src/execute_sql.py:2239-2266 | the flag is set before the cancel, the cancel is sent at most once, and a statement that gave a result was never cancelled |
| Watchdog.NothingLate | packages/agami-core/src/execute_sql.py:2254-2266 | once the block is left neither the flag nor the cancels change, however late the timer runs |
| Watchdog.LimitIff | packages/agami-core/src/execute_sql.py:1304-1327 | over every run, a statement that has ended is refused as over its limit exactly when the flag was set by the point it was read, and failed exactly when its set-up, its commit or, before the flag was set, its driver raised; an error raised behind a cancel is never reported as the database's own |
| Watchdog.NeverStuck | packages/agami-core/src/execute_sql.py:2236-2266 | from every reachable state with a statement open, whatever its timer holds, a continuation releases it; while it runs and the timer has not fired, one ends in its result uncancelled and one in the limit refusal after one cancel |
| Watchdog.HandedOutClean | packages/agami-core/src/execute_sql.py:2673-2695 | every connection a batch hands out has never been cancelled and never raised an error |
| Watchdog.ReusedIff | packages/agami-core/src/execute_sql.py:2669-2695 | the next statement on a key gets the connection of the one before it exactly when that one gave a result, whatever runs on other keys in between and however late old timers run |
| FailureMessages.MessageFixed | packages/agami-core/src/execute_sql.py:3552-3599 | for every code but 2 and 3 the message is one of the fixed sentences, whatever the driver's text and however it is read |
| FailureMessages.SqlstateFixed | packages/agami-core/src/execute_sql.py:458-470 | the sentence chosen from a SQLSTATE is fixed but for its five-character code |
| FailureMessages.KindSurvivesIff | packages/agami-core/src/execute_sql.py:254-302 | a failure's kind survives the exit code of its process exactly when it is not a timeout, and every code from 2 to 11 survives the kind it is read as |
| FailureMessages.SentenceChosen | packages/agami-core/src/execute_sql.py:3552-3599 | which kind and sentence each error gets: an authored code keeps its text; of the execution errors a rewrite could fix, a dialect rule comes first, then the nested-aggregate sentence, then the SQLSTATE of one nothing else could read; every other is told by its kind alone |
| GuardedPipeline.Chokepoint.ExecuteGuarded | packages/agami-core/src/execute_sql.py:3376-3609 | the answer, the context left behind and the steps taken are a function of the call alone, not of what the context held before |
| GuardedPipeline.Total | packages/agami-core/src/guardrail.py:503-515 | every path gives exactly one envelope with the payload of its status and no other; only what is no exception escapes |
| GuardedPipeline.ExecutorGated | packages/agami-core/src/execute_sql.py:3437-3505 | the executor runs exactly when every gate that applies passes the call: audit, write, recon, and unless waived the model pass and the engine check; then once, last, behind them in order, on the statement the model pass returned and the vetted connection |
| GuardedPipeline.OkExactly | packages/agami-core/src/execute_sql.py:3505-3538 | `ok` exactly when the executor returned an untruncated result, which is the data |
| GuardedPipeline.NotOkBounded | packages/agami-core/src/execute_sql.py:3138-3153 | an answer that is not `ok` carries a receipt bounded to the received statement, or none of a model |
| PipelineAnswers.StatusIff | packages/agami-core/src/execute_sql.py:3425-3609 | from the world alone: refused exactly when a gate refused, a time bound fired or the result was truncated; failed exactly when something else was raised that is an exception; `ok` exactly for untruncated rows; only what is no exception escapes |
| PipelineAnswers.RaisedIs | packages/agami-core/src/execute_sql.py:3539-3609 | a fired time bound is answered with its own refusal and the bounded receipt of the received statement, an executor's error with its sentence, anything else with the generic one; and what the two detail channels then hold |
| PipelineAnswers.CapRefuses | packages/agami-core/src/execute_sql.py:3530-3533 | a truncated result is refused by the statement's shape, with the bounded receipt of the received statement and no rows |
| PipelineAnswers.GateRefuses | packages/agami-core/src/execute_sql.py:3437-3490 | a gate's refusal is the answer, with no receipt of a model exactly for the six rules that come before one |
| PipelineAnswers.RowsAreOk | packages/agami-core/src/execute_sql.py:3505-3538 | rows are answered `ok` with the receipt of the statement that ran, and the carriers hold exactly what was published |
| RedactSpans.Merge | packages/agami-core/src/execute_sql.py:1682-1687 | merging sorted spans gives spans apart from each other that cover the same positions |
| RedactSpans.Redact | packages/agami-core/src/execute_sql.py:1681-1690 | for spans in any order, overlapping or touching, the result reads one marker per maximal covered block and every other character in order |
| RedactSpans.HidesSpans | packages/agami-core/src/execute_sql.py:1681-1690 | lines that differ only under the spans are redacted alike |
| StoreReconnect.IsReadIsFirstWord | packages/agami-core/src/store.py:62-81 | a statement counts as a read exactly when its whole first word is SELECT |
| StoreReconnect.ReconnectSafe | packages/agami-core/src/store.py:182-222 | an uncommitted write implies mid-transaction or held session state, and a reconnect happens in neither |
| StoreReconnect.ReplacedIff | packages/agami-core/src/store.py:163-222 | in every reachable state a statement has the connection replaced exactly when it is dead or dies under it, on Postgres with a URL that answers, with no write outstanding and no session state held |
| StoreReconnect.IdleDeathHealed | packages/agami-core/src/store.py:211-222 | so a connection that died with nothing outstanding costs no statement: the next one, whatever it is, is answered from a new connection, where it ran once |
| StoreReconnect.SentOnce | packages/agami-core/src/store.py:211-250 | in every other case, and always on a living connection that does not die under it, a statement gets the answer of the connection it was first sent on and is not sent again |
| StoreReconnect.LockMarked | packages/agami-core/src/store.py:317-366 | the session lock is marked exactly from the statement that took it to the release that went through, or to the end of the clean-up after a failure |
| StoreReconnect.CommitExact | packages/agami-core/src/store.py:211-259 | a commit that returns after a unit of work without a surfaced error makes durable exactly the acknowledged writes, once and in order |
| StoreReconnect.DurableIsLedger | packages/agami-core/src/store.py:163-270 | over a whole run with connection deaths the database holds exactly the acknowledged writes of the commits that returned |
| StoreReconnect.DeathsUnseen | packages/agami-core/src/store.py:163-366 | after any run in which every call returned, however often connections died and were replaced, the database holds exactly what one behind a connection that never fails would hold, and so after a commit |
| StoreReconnect.ExecuteOnceOnly | packages/agami-core/src/store.py:211-250 | a statement answered as done ran once on the connection the handle now has |
| StoreReconnect.LostIff | packages/agami-core/src/store.py:182-270 | in every reachable state, no run without a `close` gets a statement, commit or rollback through exactly when the connection is gone and a write was outstanding or the handle never reconnects |
| StoreReconnect.LostReached | packages/agami-core/src/store.py:211-270 | such a state is reached by a death between a write and its commit, and `close` frees it exactly where the handle can reconnect |
| StoreReconnect.RollbackReturnsIff | packages/agami-core/src/store.py:261-266 | a rollback returns, and clears the flag, exactly when the driver takes the connection for open and either nothing was begun or the message gets through |
| StoreReconnect.CommitReturnsIff | packages/agami-core/src/store.py:257-259 | a commit returns exactly when a rollback would, with everything pending durable; one that raises keeps the flag and makes nothing durable unless the connection died under it |
| Migrations.ReadsBackIff | packages/agami-core/src/store.py:338-341 | a tracking id reads back as its root and file exactly when the overlay name, or the core file's name, holds no colon |
| Migrations.IdsMeetIff | packages/agami-core/src/store.py:338-341 | two files share a tracking id exactly when they are one file, or the name of one's root continues the other's after a colon and the file names make up for the rest |
| Migrations.SharedNeedsColon | packages/agami-core/src/store.py:338-341 | so ids are distinct wherever overlay names and core file names hold no colon |
| Migrations.PlanUniqueIff | packages/agami-core/src/store.py:295-341 | a plan over distinct roots names no id twice exactly when no two of its roots hold such files |
| Migrations.FilesInOrder | packages/agami-core/src/store.py:338-339 | the files of a root run in name order, each once |
| Migrations.Database.ApplyRoot | packages/agami-core/src/store.py:339-351 | the missing files of one root run in order, each with its tracking row, up to the first failure |
| Migrations.Database.RunMigrations | packages/agami-core/src/store.py:274-366 | a run that returns ran exactly the missing ids in root-then-file order; one that fails kept a proper prefix of them |
| MigrationRuns.ExactlyOnce | packages/agami-core/src/store.py:322-351 | however many instances boot in whatever order, each script runs in a committed transaction at most once and exactly when it is tracked |
| MigrationRuns.OneAtATime | packages/agami-core/src/store.py:320-366 | at most one live call is between lock and unlock |
| MigrationRuns.FinishedApplied | packages/agami-core/src/store.py:334-366 | a call that returns ran exactly the ids it found missing, in order, and its plan is applied |
| MigrationRuns.InsertConflictIff | packages/agami-core/src/store.py:343-347 | the tracking insert of a live call meets an existing key exactly when its own plan names the id a second time |
| MigrationRuns.RerunAppliesNothing | packages/agami-core/src/store.py:317-342 | a call that reads the tracking table after another call with its plan, or a larger one, has returned runs no script |
| MigrationEnds.HeldIff | packages/agami-core/src/store.py:320-366 | the lock is held exactly by a live session inside the bracket, or by one whose call failed and could not unlock |
| MigrationEnds.CanFinish | packages/agami-core/src/store.py:274-366 | from every reachable state a live call whose plan repeats no id can still return, by its own moves alone unless another session holds the lock; its plan is applied then, the lock free, and exactly what was missing has run |
| MigrationEnds.BootCanFinish | packages/agami-core/src/store.py:274-366 | so an instance that boots in any reachable state can finish, and leaves its plan applied |
| ModelStore.KeyReads | packages/agami-core/src/model_store.py:60-93 | the position and the readable part can be read back from a relationship key |
| ModelStore.KeysDiffer | packages/agami-core/src/model_store.py:60-93 | two positions never share a key, for any list of relationships |
| ModelStore.KeysUniqueIffNames | packages/agami-core/src/model_store.py:96-158 | the rows of a model have distinct primary keys exactly when its names are unique per area, tables by name and schema |
| ModelRoundTrip.RoundTrip | packages/agami-core/src/model_store.py:161-195 | a model with unique names per area comes back as it was written, up to the order of each collection |
| ModelRoundTrip.WriteIdempotent | packages/agami-core/src/model_store.py:96-107 | writing a model twice leaves exactly the rows of writing it once |
| ModelRoundTrip.OthersUnchanged | packages/agami-core/src/model_store.py:101-107 | rows and models of every other organization and datasource stay as they were |
| ModelOrder.KeysAscendIff | packages/agami-core/src/model_store.py:60-93 | the keys of a list of relationships ascend as text exactly up to ten of them |
| ModelOrder.LoadKeepsOrderIff | packages/agami-core/src/model_store.py:161-195 | with ORDER BY by code point, an area's relationships come back in their order when they are at most ten, and distinct ones never when they are more |
| ModelWriter.ModelTables.WriteDatasource | packages/agami-core/src/model_store.py:96-158 | the write goes through exactly when names are unique per area, and otherwise commits nothing |
| ModelWriter.ModelTables.InsertEach | packages/agami-core/src/model_store.py:132-157 | one insert per object, refused at the first duplicate key |
| Activity.Group | packages/agami-core/src/model_store.py:801-808 | the dictionary-and-order loop gives each key once, where first seen, and each group in order |
| Activity.FirstSeenExact | packages/agami-core/src/model_store.py:801-808 | the order lists exactly the keys that occur, each once |
| Activity.FirstSeenInOrder | packages/agami-core/src/model_store.py:801-808 | keys stand in the order of their first calls |
| Activity.GroupPlaces | packages/agami-core/src/model_store.py:801-808 | the group of a key is the calls at all its places, in their order |
| Activity.GroupingConserves | packages/agami-core/src/model_store.py:861-894 | the groups one after the other are a permutation of the calls |
| Activity.GroupTurns | packages/agami-core/src/model_store.py:794-825 | the turn loop computes the turns of a conversation |
| Activity.TurnsConserve | packages/agami-core/src/model_store.py:794-825 | every call of a conversation is in exactly one turn, and each turn is in time order from its start |
| Activity.TiesKeepOrder | packages/agami-core/src/model_store.py:811-811 | calls of one time keep their order within a turn |
| Activity.SameTurnIff | packages/agami-core/src/model_store.py:801-808 | two calls are in one turn exactly when they have one key |
| Activity.MixedTurnIff | packages/agami-core/src/model_store.py:801-808 | the calls of a turn differ in their correlation id exactly when one has none and its own id is the other's, and some turn holds such calls exactly when some are fetched |
| Activity.SelfReportedExact | packages/agami-core/src/model_store.py:828-845 | the self-reported marker is dropped only when every call agrees on one source other than the default |
| Activity.TurnSays | packages/agami-core/src/model_store.py:809-845 | a turn shows the earliest question its calls reported, none when none did, and is marked self-reported unless every call names one and the same source other than the default |
| ActivitySessions.ListSessions | packages/agami-core/src/model_store.py:848-917 | the session loop computes the sessions of the fetched rows |
| ActivitySessions.CollectDatasources | packages/agami-core/src/model_store.py:907-911 | the reversed walk collects the datasources in order of first use |
| ActivitySessions.DatasourcesExact | packages/agami-core/src/model_store.py:903-911 | each datasource used is listed once, in the order of the last place it stands in the fetched rows |
| ActivitySessions.SessionDatasources | packages/agami-core/src/model_store.py:857-911 | over rows that come newest first, that is the order of its first use in time: the stamps of the first uses ascend |
| ActivitySessions.SessionsConserve | packages/agami-core/src/model_store.py:861-917 | every fetched row is in exactly one session and one turn of it, and the call counts add up to the rows |
| ActivitySessions.SessionBounds | packages/agami-core/src/model_store.py:896-911 | `started` and `last_activity` bound every call and are reached, and the datasources are those used |
| ActivitySessions.SessionSays | packages/agami-core/src/model_store.py:884-917 | a session counts exactly its calls and those that did not succeed, and takes thread, actor and datasource from the newest of them |
| ActivitySessions.SameSessionIff | packages/agami-core/src/model_store.py:863-884 | two calls are in one session exactly when they have one key |
| ActivitySessions.MixedIff | packages/agami-core/src/model_store.py:863-884 | a listed session mixes conversations exactly when some row borrows another's key, by the actor `conversation` and a thread of that conversation's name, and then mixes those two |
| DigitGroups.ChunkingGroupsRight | plugins/agami/lib/_semantic_model_units.py:75-79 | reversing, chunking, joining and reversing back groups from the right |
| DigitGroups.WesternShape | plugins/agami/lib/_semantic_model_units.py:75-79 | western groups are of three digits, the first of one to three, and spell the digits |
| DigitGroups.IndianShape | plugins/agami/lib/_semantic_model_units.py:89-96 | Indian groups are of two digits, the last of three, the first of one or two unless alone |
| NumberFormat.PlainParts | plugins/agami/lib/_semantic_model_units.py:198-221 | the printed text is sign, whole part and the fraction without trailing zeros, and no sign for zero |
| NumberExact.FormatExact | plugins/agami/lib/_semantic_model_units.py:224-234 | taking the commas out of a printed cell and reading it gives back the exact number |
| NumberExact.PrintedInFullIff | plugins/agami/lib/_semantic_model_units.py:195-234 | a number is printed in full, and then exactly, when its exponent is at most 400 and its first digit stands at most 400 places behind the point; every other cell is the text the number came with |
| NumberExact.PrintsAlike | plugins/agami/lib/_semantic_model_units.py:198-221 | two numbers print the same text exactly when they are the same number |
| NumberExact.LengthBounded | plugins/agami/lib/_semantic_model_units.py:195-221 | an n-digit coefficient prints in at most n + 402 characters before grouping |
| NumberExact.LengthAttained | plugins/agami/lib/_semantic_model_units.py:195-221 | and that length is reached for every n |
| Sorting.SortedOrdered | packages/agami-core/src/model_store.py:811-811 | the sort is in order |
| Sorting.SortedHolds | packages/agami-core/src/model_store.py:811-811 | and a permutation |
| Sorting.SortedStable | packages/agami-core/src/model_store.py:811-811 | and stable: elements equal to each other keep their order |

## Left out

- Unicode: `isalnum` and `isspace` are a parameter of the lexer with a few ASCII facts; case folding of keywords is inside the opaque word predicates.
- The deny-lists and the metadata patterns are opaque predicates on a word or on the copy; that each listed name is matched is data, not logic.
- The text of refusals and their remediations, apart from the audit refusal, is not modelled.
- The OAuth endpoint's transactions are atomic and serializable; under READ COMMITTED a family burn may miss a successor inserted by a rotation that has not committed yet.
- SHA-256 of refresh tokens and of PKCE verifiers, argon2 and JWT signing are abstract: tokens are their own keys, the challenge and the session id are arbitrary functions, hashes are fresh, the reset marker is injective where a theorem says so.
- Dynamic client registration, redirect registration, the authorize page, the OIDC provider's own verification and the admin pages are not modelled; `migrate_password_user_to_oidc` is not called and is left out.
- Accounts.UserStore.CreateUser: the refusals of a blank password and of a taken e-mail are not modelled; accounts are keyed by user name and the e-mail column is left out.
- SqlGates.ReadOnlyExact: the function pattern is an opaque predicate on the whole copy and not told on the visible text, because one of its names (`system$` and a word) can be put together from the statement's own text and an identifier.
- SqlVerdicts.AllowedIff: for the same reason its function pattern, and the patterns of calls in `SqlVerdicts.ReconIff`, are told on the copy, which `SqlCopies.CopyIs` gives character by character.
- ModelOrder.LoadKeepsOrderIff: a database collation other than code-point order, and areas of more than ten relationships with repeated documents, are left open.
- A worker thread that cannot be started is not modelled, and join returning is one step that may happen at any time.
- Engines other than the shape shared by SQLite and Postgres, BigQuery's own bound, and the non-batch connection (always closed) add no state to the watchdog.
- `_classify_db_error`, the dialect rules and the nested-aggregate test are arbitrary functions of the driver's text: the theorems hold for every one of them, so which label a text gets is not stated.
- `_detail_window`, the redaction patterns and the command-line detail are parameters or left out; only the span splice is modelled.
- The semantic-model pass, the engine and catalog checks, credentials, the search path and the receipt assembler are oracles of the pipeline; an executor that reports its identity before it raises is not modelled.
- `_is_read` upper-cases with Unicode rules; here a parameter says which six characters spell SELECT.
- SQLite's `executescript` commits apart from the tracking row, so the migration results are for Postgres; a script that commits on its own is not modelled, nor is the check that a root is a directory.
- A connection's behaviour is a choice between working, failing and dying at each message, and one the driver knows to be closed raises on every call, as psycopg2's does; what a commit left behind when its connection died is free.
- JSON and pydantic: a document stands for the object it encodes, and the promoted columns computed from it (row counts, value patterns, descriptions) are not modelled.
- Examples, memory, model versions and organization records (`select_examples`, `metric_ranked`, `write_examples`, `write_memory` and their readers) would add only easy members.
- `avg_ms` of a session rounds a float and is left out; `tool_calls` rows are given as the query returns them.
- Number text inputs (`_NUMBER_RE`, codes with leading zeros), floats, currencies, percentages and dates are left out: numbers come as finite decimals, an integer having exponent 0.
