# Verified model of the audit and measurement platform

A Dafny 4.11 model of the parts of the platform whose behaviour is decided by algorithms, state or
arithmetic, with proofs of what they promise. `dafny verify dfyconfig.toml` checks all of it.

Where the source changes state step by step, the model is a method or a class whose contract equates
the new state with a function of the old one; that function is then what the lemmas about whole runs
speak of. Clock readings, random nonces and generated identifiers are parameters, and so are the
language model, the tools it calls, the wording of issues and the cryptographic primitives.

| file | subject |
|---|---|
| `RateLimit.dfy` | sliding-window limiter: a forgetful table that decides like a complete log |
| `SseFraming.dfy` | incremental parser of the chat stream: independence of how the stream is cut |
| `Codecs.dfy`, `Session.dfy` | base64url, decimal and UUID codecs over bytes; signed session cookies |
| `TokenStore.dfy` | versioned encryption of refresh tokens; the table of connections over runs |
| `AuditEngine.dfy`, `Detection.dfy` | reconciliation of issues with each scan; what a scan detects |
| `Sequences.dfy`, `Gtm*.dfy` | compiler of tag-manager containers: freshness, closure, order |
| `ChatLoop.dfy`, `ChatRecord.dfy`, `ChatView.dfy` | bounded tool loop of the chat; what it records and streams; bubbles derived from its log |
| `ChatOrder.dfy` | what sorting by `created_at` leaves open when a thread is loaded |
| `HeadlessSlot.dfy` | the single browser slot as a concurrent protocol |
| `JwksCache.dfy` | cache of signing keys |
| `WorkspaceMigration.dfy`, `Partitions.dfy` | data migration with its way back; monthly partitions |

## Where the code does less than it promises

Each of these is proved with its exact condition.

* Limiter: over any run with any windows, evictions and clearings, the limiter decides like the complete
  log if and only if at each check it still holds `limit` hits, or the admission that would be the
  `limit`-th from the end is missing or out of the window (`DecisionsExact`). That is so whenever cutoffs
  never go back and nothing is cleared (`ForwardRefinesCompleteLog`), in particular with one window. Two
  windows on one key (`SeveralWindowsForget`) and a key too many (`SaturationForgets`) break it.
* Stream: payloads come back from their frames if and only if each is non-empty, contains no blank line
  and does not end in white space (`Clean`).
* Tokens: `unpack` inverts `pack` if and only if the nonce has twelve bytes; the length is not checked.
* Sessions: reading a cookie raises an error, instead of refusing it, if and only if it has two parts and
  the second is not ASCII (`RaisingCookies`).
* Chat log: every thread begins with its brief, an assistant message. So every list passed to the model
  begins on the assistant's side, at every call of every turn (`EveryCallIsSound`). From there on, roles
  alternate if and only if every turn but the last was done (`ThreadAlternates`), since a turn that
  exhausts its rounds ends on the user's side. Every tool use is answered if and only if no reply that
  ended a turn contained one.
* Chat order: messages are loaded in order of `created_at`, which is the time their transaction started.
  A turn is one transaction, so all its messages tie. Every load has the turns in order, each with its own
  messages in some order (`LoadKeepsTurns`); the order is determined if and only if no turn ever called
  the model (`OrderIsDetermined`), and already after one turn the answer may come before the question,
  right after the brief (`AnswerBeforeQuestion`). The other results about the chat hold of loads that keep ties in order of
  insertion.
* Chat view: the tools of a turn that shows no answer, because it was exhausted or ended with a blank
  reply or with tool blocks, appear on the bubble of the next question. No question carries tools if and
  only if every question to show finds none left over (`QuestionsCarryNoTools`); where no question is
  blank in the view, that is: every turn but the last shows an answer or used no tool
  (`NothingLeftIfSettled`). `ToolUnderQuestion` is a run where one does.
* Signing keys: the documentation speaks of one refresh per interval. Within the interval a call for the
  same key fetches again if and only if the fetch before it failed (`ThrottledIffFetched`); while fetches
  fail every call attempts one, without bound (`OutageAttemptsEveryCall`, `AttemptsAreUnbounded`).
* Migration: on data that meets the old constraints the upgrade succeeds if and only if every display
  name, or address where there is none, fits the 200 characters of a workspace name; the old columns
  hold 255 and 320 (`UpgradeSucceeds`, `LongNameStopsUpgrade`). PostgreSQL lets excess spaces pass and
  drops them. The way back then restores every user, website and usage row, and the whole database if
  and only if there was no Google connection, since the upgrade deletes them all.
* Audit: the result lists of a scan name every issue at most once if and only if the probe lists no
  missing event twice. The findings of a page are already in order of severity when they are sorted.

## Model

| member | source | states |
|---|---|---|
| RateLimit.SlidingWindowLimiter.Prune | backend/app/security/rate_limit.py:44-47 | the deque keeps exactly its hits from the first one later than the cutoff |
| RateLimit.SlidingWindowLimiter.RetryAfter | backend/app/security/rate_limit.py:49-58 | waiting time and pruned table of one reading, for any limit of at least one |
| RateLimit.SlidingWindowLimiter.Record | backend/app/security/rate_limit.py:60-62 | appends the later clock reading, then collects |
| RateLimit.SlidingWindowLimiter.CollectGarbage | backend/app/security/rate_limit.py:72-81 | nothing below the size limit; else expired keys go, and everything goes if that is not enough |
| RateLimit.SlidingWindowLimiter.Check | backend/app/security/rate_limit.py:64-70 | one call is one step of the limiter, with the two clock readings kept apart |
| RateLimit.SlidingWindowLimiter.Reset | backend/app/security/rate_limit.py:83-84 | forgets all hits |
| RateLimit.SlidingWindowLimiter.Enforce | backend/app/security/rate_limit.py:96-117 | refuses exactly when the check does, with the header of its wait; changes nothing when disabled |
| RateLimit.CheckIsPeekThenRecord | backend/app/security/rate_limit.py:64-70 | a check is a reading followed, if it admits, by a record |
| RateLimit.TableIsBounded | backend/app/security/rate_limit.py:72-81 | over any run the table never holds more keys than its maximum |
| RateLimit.DequeIsBounded | backend/app/security/rate_limit.py:49-70 | over any run no deque of a check-only key outgrows the limit, across saturation and other windows |
| RateLimit.CollectTracks | backend/app/security/rate_limit.py:72-81 | a collection that clears nothing loses only hits behind its own cutoff |
| RateLimit.ForgettingIsExact | backend/app/security/rate_limit.py:44-84 | after any run, with any windows, evictions and clearings, the deque is an end of the log, and counting it equals counting the log exactly if the last admission lost is out of the window |
| RateLimit.DecisionsExact | backend/app/security/rate_limit.py:44-84 | over any such run all decisions are those of the complete log if and only if enough is left at each check |
| RateLimit.ForwardRefinesCompleteLog | backend/app/security/rate_limit.py:49-81 | enough is left, so decisions agree, whenever the cutoffs on the key never go back and nothing is cleared, whatever the windows |
| RateLimit.LimiterRefinesCompleteLog | backend/app/security/rate_limit.py:49-81 | the same with one window: every decision on a key is "fewer than limit admissions in the complete log are in the window" |
| RateLimit.RateIsBounded | backend/app/security/rate_limit.py:49-70 | over every run that keeps enough, half-open intervals as long as the shortest window used hold at most the largest limit used of admissions, although stamps are read after decisions |
| RateLimit.ForwardRateIsBounded | backend/app/security/rate_limit.py:49-81 | so over every run that clears nothing and whose cutoffs on the key never go back |
| RateLimit.AnnouncedWaitSuffices | backend/app/security/rate_limit.py:49-58 | after a refusal, a check at the announced time is admitted whatever happened to other keys; so is one after the rounded header |
| RateLimit.ExactWait | backend/app/security/rate_limit.py:49-70 | absent other admissions, a check is admitted if and only if the oldest counted hit has left the window |
| RateLimit.WaitIsExactOnRuns | backend/app/security/rate_limit.py:49-70 | in every state a run reaches, a refusal's wait and its header suffice, and without other admissions a check is admitted if and only if the oldest counted hit has left the window |
| RateLimit.HeaderCovers | backend/app/security/rate_limit.py:96-101 | Retry-After is at least one and covers the wait by less than a second |
| RateLimit.SeveralWindowsForget | backend/app/security/rate_limit.py:44-58 | witness for the condition of DecisionsExact: two windows on one key admit a check that the complete log refuses |
| RateLimit.KeyTooMany | backend/app/security/rate_limit.py:72-81 | on any full table whose hits all count, the admission of one key more clears every counter |
| RateLimit.SaturationForgets | backend/app/security/rate_limit.py:72-81 | witness for the same condition, for a table of any size: once it is full of counted hits, a key too many frees an exhausted key |
| SseFraming.SplitIsLeftmost | frontend/lib/api/advisor.ts:65 | the parts join back to the text and every cut is the leftmost possible |
| SseFraming.SplitInvertsJoin | frontend/lib/api/advisor.ts:65 | splitting gives back joined parts exactly when they are cut leftmost |
| SseFraming.SplitOfAppend | frontend/lib/api/advisor.ts:64-66 | a cut of the text anywhere, even inside a run of newlines, changes nothing if the last part is kept |
| SseFraming.HandOn | frontend/lib/api/advisor.ts:67-72 | events of the complete parts, in order, up to the first payload that does not parse |
| SseFraming.StreamChatMessage | frontend/lib/api/advisor.ts:60-73 | events and leftover are those of splitting the whole text once, for every way of cutting it into chunks |
| SseFraming.FailureIsFinal | frontend/lib/api/advisor.ts:67-72 | after a payload that does not parse, later text changes nothing |
| SseFraming.LeadingNewline | frontend/lib/api/advisor.ts:67-69 | a newline left over before a frame does not change what the frame gives |
| SseFraming.FrameWeight | frontend/lib/api/advisor.ts:65-71 | a frame never gives more text than it carries, and all of it only if its payload is clean |
| SseFraming.FramesRecovered | backend/app/api/v1/endpoints/advisor.py:344 | any sequence of framed payloads comes back exactly if and only if all payloads are clean |
| SseFraming.CleanStreamDelivers | frontend/lib/api/advisor.ts:60-73 | however a stream of clean frames is cut into chunks, exactly the framed payloads are handed to the parser |
| Bytes.DecodeInvertsEncode | backend/app/security/session.py:35-56 | decoding the bytes of an ASCII text gives the text |
| Base64Url.AlphabetOrder | backend/app/security/session.py:21-22 | the URL-safe alphabet (section 5 of RFC 4648) |
| Base64Url.WrittenBigEndian | backend/app/security/session.py:21-22 | groups of one, two and three bytes as numbers, most significant bits first (section 4 of RFC 4648) |
| Base64Url.PaddingRestored | backend/app/security/session.py:21-27 | the padding computed from the length is the one stripped, for every length modulo 3; no dot, no equals sign |
| Base64Url.DecodePadded | backend/app/security/session.py:25-27 | the padded decoder inverts the padded encoder, bit by bit |
| Base64Url.RoundTrip | backend/app/security/session.py:21-27 | unpadded decoding inverts encoding on every byte string (sections 3.2 and 5 of RFC 4648) |
| Base64Url.Injective | backend/app/security/session.py:21-22 | different bytes have different encodings |
| Decimal.PrintPositional | backend/app/security/session.py:36 | digits in decreasing order of weight |
| Decimal.ParseInvertsPrint | backend/app/security/session.py:36-52 | a printed number parses to itself |
| Uuids.PrintShape | backend/app/security/session.py:36 | lower-case digits in order, dashes after the 8th, 12th, 16th and 20th |
| Uuids.ParseInvertsPrint | backend/app/security/session.py:36-52 | a printed UUID parses to itself |
| Uuids.PrintWritten | backend/app/services/audit_engine.py:295-297 | a printed UUID has 36 characters, all hexadecimal digits or dashes |
| Session.PayloadRoundTrip | backend/app/security/session.py:35-56 | a payload reads back as its user and time, and contains no dot |
| Session.SignatureHasNoDot | backend/app/security/session.py:30-32 | no signature contains the separator, and every one is ASCII |
| Session.AcceptedCookies | backend/app/security/session.py:41-56 | a cookie names a user if and only if it is a dot-free payload with its own signature, well formed and not expired |
| Session.RaisingCookies | backend/app/security/session.py:44-47 | reading raises exactly on two parts of which the second is not ASCII |
| Session.SessionRoundTrip | backend/app/security/session.py:35-56 | an issued cookie names its user while now is at most issue time plus maximum age, and nobody after |
| Session.AlteredPayloadNeedsCollision | backend/app/security/session.py:41-56 | one signature accepted for two payloads is a collision of the HMAC |
| Session.IssuedCookiesDiffer | backend/app/security/session.py:35-38 | equal cookies were issued to the same user at the same second |
| TokenCrypto.PackLayout | backend/app/security/token_crypto.py:46-52 | two bytes of version, most significant first, then nonce, then ciphertext |
| TokenCrypto.UnpackInvertsPack | backend/app/security/token_crypto.py:46-60 | packing succeeds exactly for versions below 65536; unpacking inverts it exactly for nonces of twelve bytes |
| TokenCrypto.PackInvertsUnpack | backend/app/security/token_crypto.py:46-60 | unpacking succeeds exactly from fourteen bytes on, and packing inverts it |
| TokenCrypto.MakeCipher | backend/app/security/token_crypto.py:67-82 | accepts exactly the valid registries; the error is that of the active version, else of the first bad key |
| TokenCrypto.ReadableWhileKeyKept | backend/app/security/token_crypto.py:84-116 | a token is readable under a later registry exactly while its version is in it |
| TokenCrypto.RotationKeepsText | backend/app/security/token_crypto.py:118-122 | rotation keeps the text, moves to the active version, and fails exactly when decryption does |
| Connections.AadInjective | backend/app/services/connections.py:15-21 | the associated data determines workspace and identity, whatever the identity contains |
| Connections.ConnectionStore.Upsert | backend/app/services/connections.py:24-71 | overwrites the row of the workspace and identity or adds one; refuses a grant without refresh token and changes nothing |
| Connections.UpsertFields | backend/app/services/connections.py:44-71 | the row an upsert leaves, field by field, and every other row untouched |
| Connections.StepConsistent | backend/app/services/connections.py:24-76 | upserts, rotations and registry extensions keep one readable row per granted identity |
| Connections.TokensSurvive | backend/app/services/connections.py:24-76 | over any such run, decryption returns the last token granted and the version column is the packed prefix |
| Connections.MovedRowIsUnreadable | backend/app/services/connections.py:74-76 | a blob moved to a row of another workspace or identity is rejected, and only then |
| AuditEngine.FingerprintInjective | backend/app/services/audit_engine.py:295-297 | fingerprints agree exactly when site, rule and subject do |
| AuditEngine.ScanEffect | backend/app/services/audit_engine.py:445-506 | the effect of a scan on every row: refreshed, reopened, resolved, untouched, or created once |
| AuditEngine.SeenIssueFields | backend/app/services/audit_engine.py:474-485 | a known issue seen again, field by field: texts, category and severity of the last such anomaly, this date and snapshot; Todo and undated exactly if it was fixed, otherwise its status as it was |
| AuditEngine.UnseenIssueFields | backend/app/services/audit_engine.py:487-506 | an unseen issue is fixed now if open, of the site and raised by a scan, and does not change otherwise |
| AuditEngine.CreatedIssueFields | backend/app/services/audit_engine.py:456-471 | a fingerprint seen for the first time gets exactly one row, field by field |
| AuditEngine.PatchFields | backend/app/api/v1/endpoints/audit.py:786-818 | a user's edit sets status and resolution date of one issue and nothing else |
| AuditEngine.OpenAfterScan | backend/app/services/audit_engine.py:445-506 | right after a scan the open scan-owned issues are exactly the detected fingerprints minus the dismissed ones |
| AuditEngine.SettledRow | backend/app/services/audit_engine.py:478-506 | after a scan no detected issue is fixed and no undetected scan-owned one is open |
| AuditEngine.TableStaysSound | backend/app/services/audit_engine.py:445-506 | over any run of scans, user edits and snapshot deletions, one issue per fingerprint and site, and dates agree with statuses |
| AuditEngine.ScanKeepsDates | backend/app/services/audit_engine.py:478-506 | a scan keeps resolution dates on exactly the fixed and dismissed issues |
| AuditEngine.DismissedStaysDismissed | backend/app/services/audit_engine.py:472-506 | through any run without user edits of it, a dismissed issue stays dismissed, with its date |
| AuditEngine.OutOfReachUntouched | backend/app/services/audit_engine.py:487-506 | scans of other sites, and scans that do not detect a manual issue, leave it as it is |
| AuditEngine.RescanIsStable | backend/app/services/audit_engine.py:445-506 | scanning again with the same findings creates nothing and changes no status |
| AuditEngine.AllKnown | backend/app/services/audit_engine.py:449-471 | a scan adds no row when every fingerprint has one |
| AuditEngine.ListsCoverAnomalies | backend/app/services/audit_engine.py:456-485 | every anomaly is counted in one of the two lists, and the created rows are the new ones in order |
| AuditEngine.ListsNameRowsOnce | backend/app/services/audit_engine.py:445-485 | the created and updated lists name no issue twice exactly when no fingerprint is raised twice |
| AuditEngine.IssueTable.RunAudit | backend/app/services/audit_engine.py:445-506 | the loops over mutable rows end in the specified table and result lists |
| AuditEngine.IssueTable.Upsert | backend/app/services/audit_engine.py:445-485 | the upsert loop |
| AuditEngine.IssueTable.ResolveStale | backend/app/services/audit_engine.py:487-506 | the sweep of stale issues; each resolved row is listed once |
| Detection.BuildFindings | backend/app/services/gtm_check.py:215-343 | the findings of a page, in order of severity |
| Detection.SortMovesNothing | backend/app/services/gtm_check.py:342 | a stable sort leaves a list in order of severity as it is |
| Detection.SortSorts | backend/app/services/gtm_check.py:342 | the sort orders by severity and keeps every finding |
| Detection.LookedIsTidy | backend/app/services/gtm_check.py:215-343 | findings come in order of severity and raise one issue per code |
| Detection.FindingsExact | backend/app/services/gtm_check.py:215-341 | each finding is reported, with its severity, exactly on its own condition |
| Detection.TrackingIsExact | backend/app/services/audit_engine.py:96-116 | a finding raises a tracking issue exactly if its severity is high or medium |
| Detection.DetectAnomalies | backend/app/services/audit_engine.py:154-292 | the anomalies of a scan, in order |
| Detection.AnomaliesExact | backend/app/services/audit_engine.py:154-292 | each anomaly is raised, with its subject, category and severity, exactly on its own condition |
| Detection.CertificateHolds | backend/app/services/audit_engine.py:119-151 | the certificate anomaly and its severity by state and days left |
| Detection.SearchHolds | backend/app/services/audit_engine.py:215-255 | of the search console's anomalies only the first that applies is raised |
| Detection.SpeedHolds | backend/app/services/audit_engine.py:257-291 | the speed anomalies and their severities by threshold |
| Detection.SilentIffHealthy | backend/app/services/audit_engine.py:119-292 | a scan finds nothing exactly when certificate, tag manager, analytics, search console and speed are all in order |
| Detection.AnomaliesNamedOnce | backend/app/services/audit_engine.py:96-292 | no two anomalies share rule and subject, exactly when no missing event is listed twice |
| Detection.AuditNamesIssuesOnce | backend/app/services/audit_engine.py:154-485 | the result lists of a scan of any page name no issue twice exactly when no missing event is listed twice |
| Sequences.DedupSound | backend/app/services/gtm_generator.py:560 | deduplication keeps the values and lists each once |
| Sequences.DedupSkipsRepeats | backend/app/services/gtm_generator.py:560 | a value listed again changes nothing |
| GtmContainer.BuildSelectedContainer | backend/app/services/gtm_generator.py:560-717 | the appending, counting code yields the specified triggers, tags, variables and warnings |
| GtmContainer.ConfigStep | backend/app/services/gtm_generator.py:595-645 | configuration tag and history trigger, and the next free number |
| GtmContainer.EventLoop | backend/app/services/gtm_generator.py:647-668 | one trigger and one tag per recipe, numbered in order, with the map from items to triggers |
| GtmContainer.AdsStep | backend/app/services/gtm_generator.py:670-695 | conversion tag or one of the two warnings |
| GtmContainer.EventsSound | backend/app/services/gtm_generator.py:560-575 | the compiled events are exactly the chosen items that have a recipe, each once |
| GtmContainer.KeyEventChosen | backend/app/services/gtm_generator.py:673 | the key event is the first in order of preference among the chosen ones, or there is none |
| GtmResults.NumbersDistinct | backend/app/services/gtm_generator.py:589-702 | trigger numbers are pairwise distinct, tag numbers too, and no trigger takes the reserved number |
| GtmResults.ReferencesClosed | backend/app/services/gtm_generator.py:101-159 | every firing number is reserved or declared, every tag reference names exactly one tag, every variable used is declared |
| GtmResults.VariablesDeclared | backend/app/services/gtm_generator.py:704-717 | the declared variables are the built-in ones and those of the container, under distinct numbers |
| GtmResults.IgnoredExactly | backend/app/services/gtm_generator.py:577-582 | an item is named in exactly one warning if it is neither recipe nor special, and in none otherwise |
| GtmResults.EventTriggerAt | backend/app/services/gtm_generator.py:647-656 | where the trigger of each chosen event stands and what it is |
| GtmResults.EventTagAt | backend/app/services/gtm_generator.py:657-668 | where the tag of each chosen event stands, fired by that event's trigger |
| GtmResults.OnlyTriggerNamed | backend/app/services/gtm_generator.py:650-655 | no other trigger has the name of a chosen recipe's |
| GtmResults.AdsPresence | backend/app/services/gtm_generator.py:670-695 | the Ads tag is there exactly when asked for, configured, and a key event is chosen |
| GtmResults.AdsFiresOnPreferredEvent | backend/app/services/gtm_generator.py:670-695 | it fires on the trigger of the most preferred chosen key event, whatever the order of the items |
| GtmResults.AwctPlace | backend/app/services/gtm_generator.py:489-519 | it is the only tag of its kind |
| GtmResults.SiteCodeIffListening | backend/app/services/gtm_generator.py:537-542 | an item needs site code exactly if its compiled trigger merely listens for an event |
| GtmFields.ConfigurationTag | backend/app/services/gtm_generator.py:576-645 | a configuration tag is there exactly if asked for or some chosen item has a recipe; it is the first and only one, with its id, setting and firing triggers field by field |
| GtmFields.SomeTag | backend/app/services/gtm_generator.py:576-645 | asking for the configuration alone gives a tag |
| GtmFields.HistoryTriggerPlace | backend/app/services/gtm_generator.py:597-608 | the history trigger is there exactly for the configuration of a single-page site, under the number its tag fires on |
| GtmFields.ChosenEvent | backend/app/services/gtm_generator.py:647-668 | every chosen recipe has a trigger matching what it says and a tag sending what it says, fired by that trigger alone |
| GtmFields.OnlyChosenEvents | backend/app/services/gtm_generator.py:647-668 | there are no other triggers and no other event tags |
| GtmFields.AdsTagCarries | backend/app/services/gtm_generator.py:489-519 | the Ads tag carries account number, label, and value and currency exactly for a sale |
| GtmFields.AdsTagPresence | backend/app/services/gtm_generator.py:670-695 | it is there, and alone, exactly if asked for with account and label and a key event is chosen |
| GtmFields.LinkerTagPresence | backend/app/services/gtm_generator.py:697-700 | the linker is there exactly if asked for or there is an Ads tag; it comes last, alone, and fires on all pages |
| GtmFields.GeneralWarnings | backend/app/services/gtm_generator.py:568-587 | exactly when the warnings on measurement id, double page views and unvalidated Ads tags are given |
| GtmFields.AdsWarningsExact | backend/app/services/gtm_generator.py:670-682 | exactly when each of the two Ads warnings is given |
| GtmReorder.RepeatsAreIdle | backend/app/services/gtm_generator.py:560 | choosing an item again changes nothing at all in the container |
| GtmReorder.RenamingIsBijective | backend/app/services/gtm_generator.py:591-602 | the renaming between two orders is undone by the one back and keeps the reserved number |
| GtmReorder.TriggerCorresponds | backend/app/services/gtm_generator.py:647-656 | each trigger of one order is, renamed, a trigger of the other |
| GtmReorder.TagCorresponds | backend/app/services/gtm_generator.py:609-700 | each tag of one order is, renamed, a tag of the other, with renamed firing triggers |
| GtmReorder.OrderIsIrrelevant | backend/app/services/gtm_generator.py:560-702 | requests choosing the same items get containers equal up to that renaming, and the same warnings |
| GtmCatalogue.ProgramIsCoherent | backend/app/services/gtm_generator.py:390-435 | the program's own recipes and key events meet what the results ask of a catalogue |
| GtmCatalogue.ProgramResults | backend/app/services/gtm_generator.py:390-702 | freshness and closure, filters and reserved number included, for the program itself |
| GtmCatalogue.ProgramOrder | backend/app/services/gtm_generator.py:390-717 | independence of order, warnings and variables included, for the program itself |
| ChatLoop.TurnEnds | backend/app/services/advisor/chat.py:103-163 | at most iteration_cap calls, one terminal event at the end: the summed usage, or the error exactly if every call asked for tools |
| ChatLoop.HowRoundsEnd | backend/app/services/advisor/chat.py:116-163 | all replies but the last ask for tools, and the turn is done exactly if the last does not |
| ChatLoop.TurnAppends | backend/app/services/advisor/chat.py:85-161 | a turn only appends: question, exchanges, answer |
| ChatRecord.TurnLength | backend/app/services/advisor/chat.py:85-163 | a turn keeps its history, adds the question, two messages for every reply that asks for tools and one for a last reply that does not |
| ChatRecord.TurnRecords | backend/app/services/advisor/chat.py:127-161 | after the i-th reply that asks for tools comes a user message holding, tool use by tool use in order, the output of that tool for that call; the last reply is recorded with its text and the usage of the turn |
| ChatRecord.TurnAsks | backend/app/services/advisor/chat.py:118-122 | the i-th reply is the model's answer to the conversation recorded before it |
| ChatRecord.TurnStreams | backend/app/services/advisor/chat.py:118-163 | events are, call by call, the fragments in order, then one call and one result per tool use in order; then one last event |
| ChatRecord.UsageAddsUp | backend/app/services/advisor/chat.py:124-125 | the usage of a turn is the sum over its replies, component by component |
| ChatRecord.ToolUseAt | backend/app/services/advisor/chat.py:146 | tool uses are picked out in order, all of them |
| ChatRecord.TextOfAppend | backend/app/services/advisor/chat.py:128-130 | the text of a reply is that of its text blocks, one after the other |
| ChatLoop.TurnKeepsAnswers | backend/app/services/advisor/chat.py:146-161 | a turn leaves every tool use answered by the next message, id by id, exactly if it was so before and the ending reply has no tool use |
| ChatLoop.AnswersExact | backend/app/services/advisor/chat.py:85-161 | over any run, all tool uses are answered if and only if no reply that ended a turn contained one |
| ChatLoop.AnswersKept | backend/app/services/advisor/chat.py:85-161 | so they are if tool uses only come with their stop reason |
| ChatLoop.TurnRoles | backend/app/services/advisor/chat.py:85-161 | a turn keeps roles alternating exactly if they did and it was the user's turn, which it is again exactly if the turn is done |
| ChatLoop.RolesAlternate | backend/app/services/advisor/chat.py:85-163 | over any run on any history, roles alternate if and only if they did, the history ended on the assistant's side, and every turn before the last was done |
| ChatLoop.ThreadAlternates | backend/app/services/advisor/service.py:85-104 | in a thread begun by its brief, roles alternate if and only if every turn before the last was done |
| ChatLoop.CallAfterRun | backend/app/services/advisor/chat.py:85-161 | after any run on any history, the log at the i-th call of a turn: how it begins and ends, and exactly when tool uses are answered and roles alternate |
| ChatLoop.EveryCallIsSound | backend/app/services/advisor/chat.py:85-161 | in every thread, the list passed to any call begins with the brief, on the assistant's side; its log ends on the user's side, has every tool use answered iff no earlier turn ended with one, and alternates iff every earlier turn was done |
| ChatLoop.Thread.constructor | backend/app/services/advisor/service.py:85-104 | a thread is created together with its brief, an assistant message |
| ChatLoop.Thread.LoadHistory | backend/app/services/advisor/chat.py:46-54 | the history is the persisted log, in order |
| ChatLoop.Thread.RunChatTurn | backend/app/services/advisor/chat.py:85-163 | the i-th call is passed the conversation of the log after the question and the i exchanges before it, and its reply is the model's on just that; log, events and the day's message count end as specified |
| ChatOrder.LoadKeepsTurns | backend/app/services/advisor/chat.py:46-54 | after any run on any history, whatever its turns were given to read, a load has the turns in order, each with its own messages rearranged, and is the log itself exactly if ties keep the order of insertion |
| ChatOrder.OrderAfterRun | backend/app/models/advisor.py:50-52 | every load is the log if and only if the history has one load and no turn ever called the model |
| ChatOrder.OrderIsDetermined | backend/app/models/advisor.py:50-52 | every load of a thread begun by its brief is its log if and only if no turn ever called the model |
| ChatOrder.AnswerBeforeQuestion | backend/app/services/advisor/chat.py:46-54 | after the first turn of a thread, if it calls the model, the log alternates and yet some load has the answer right after the brief, before the question |
| ChatOrder.LoadIsDetermined | backend/app/services/advisor/chat.py:49-52 | a list sorted by time has one load exactly if messages that share a time are equal |
| ChatView.DeriveChatMessages | frontend/components/conseiller/advisor-view.tsx:40-55 | one bubble per shown message with its role and text; the tools shown are those of all messages up to the last shown |
| ChatView.ToolsConserved | frontend/components/conseiller/advisor-view.tsx:40-55 | tools are shown in order without loss or repetition, and those after the last bubble are still pending |
| ChatView.OneBubbleEach | frontend/components/conseiller/advisor-view.tsx:49-51 | bubbles and shown messages correspond one to one |
| ChatView.TurnView | backend/app/services/advisor/chat.py:127-161 | what any turn adds to the view: an answer with exactly its own tools, or else no answer and its tools left pending |
| ChatView.ViewOfRun | frontend/components/conseiller/advisor-view.tsx:40-55 | the view of any run is made turn by turn in that way |
| ChatView.AnsweredRun | frontend/components/conseiller/advisor-view.tsx:40-55 | in a thread of turns that end with an answer, the view is the brief, then questions and answers, each turn's tools on that turn's answer |
| ChatView.QuestionsCarryNoTools | frontend/components/conseiller/advisor-view.tsx:40-55 | over any run of a thread, blank questions included, no question's bubble carries tools if and only if every question to show finds none left over |
| ChatView.NothingLeftIfSettled | frontend/components/conseiller/advisor-view.tsx:44-53 | where no question is blank, that is so exactly if every turn but the last shows an answer or used none |
| ChatView.BriefView | backend/app/services/advisor/service.py:95-102 | the brief is one assistant's bubble without tools, or none if it is blank |
| ChatView.ToolUnderQuestion | frontend/components/conseiller/advisor-view.tsx:40-55 | a thread of two turns where the second question's bubble carries the tool of the first turn |
| HeadlessSlot.PermitConserved | backend/app/api/internal.py:294-328 | over every interleaving, free permits plus running browsers equal one |
| HeadlessSlot.OneBrowser | backend/app/api/internal.py:56 | two browsers never run at once |
| HeadlessSlot.ReleasedExactlyOnce | backend/app/api/internal.py:305-328 | unknown-site and busy requests never release; a result, failure or timeout releases exactly once |
| HeadlessSlot.OutcomeFollowsSteps | backend/app/api/internal.py:297-328 | a request for an unknown site is refused at once and takes no other step; one for a known site never is, is busy exactly if it gave up, runs exactly between its acquisition and its end, and finishes with the outcome it ended with |
| HeadlessSlot.SlotIsNeverLost | backend/app/api/internal.py:307-327 | with no browser running a waiting request can acquire |
| HeadlessSlot.HeadlessSemaphore.TryAcquire | backend/app/api/internal.py:307-314 | acquires exactly when a permit is free in time, and is busy otherwise |
| HeadlessSlot.HeadlessSemaphore.Finish | backend/app/api/internal.py:315-328 | whatever the outcome, the permit goes back |
| JwksCache.LoadedIsLastOfEach | backend/app/security/oidc.py:78-89 | the key set holds exactly the usable entries, the last one of each name |
| JwksCache.ReloadsAreSpaced | backend/app/security/oidc.py:91-100 | reloads that succeed are at least min(cache_seconds, 30) apart, whatever names are asked for |
| JwksCache.ReloadsAreRare | backend/app/security/oidc.py:91-100 | so the reloads of a period but for the first take a gap each: at most 1 + period / 30 by default |
| JwksCache.KeysAreFresh | backend/app/security/oidc.py:91-100 | a key handed out belongs to the set loaded last, at most cache_seconds before, or by this very call |
| JwksCache.CacheHoldsLastLoad | backend/app/security/oidc.py:78-100 | after any run the cache is the last set that the rule says is loaded, and its time |
| JwksCache.AnswersByRule | backend/app/security/oidc.py:78-100 | after any run a call fetches exactly if nothing was loaded, the last set is older than cache_seconds, or it lacks the name and is at least 30 s old; what it then answers, errors included |
| JwksCache.NewKeyIsFound | backend/app/security/oidc.py:91-100 | half a minute after the last load, a name it lacks is answered with the last usable entry of that name fetched |
| JwksCache.ThrottledIffFetched | backend/app/security/oidc.py:91-100 | within a gap of an attempt, a call for the same key attempts again if and only if the fetch failed, and after a success no call does |
| JwksCache.AttemptsAreThrottled | backend/app/security/oidc.py:78-100 | over any run, an attempt made before the gap is over follows a failed fetch |
| JwksCache.OutageAttemptsEveryCall | backend/app/security/oidc.py:78-100 | while the cache is stale and fetches fail, every call of a run attempts one |
| JwksCache.AttemptsAreUnbounded | backend/app/security/oidc.py:78-100 | for every n, a run that makes n attempts at one instant |
| JwksCache.OidcVerifier.Refresh | backend/app/security/oidc.py:78-89 | the loop that rebuilds the key set |
| JwksCache.OidcVerifier.KeyFor | backend/app/security/oidc.py:91-100 | exactly when the call fetches, what the cache holds after it, and its answer or error |
| WorkspaceMigration.Backfill | backend/alembic/versions/1d03150b69e5_workspaces.py:88-105 | the insertion loop, which stops exactly if some name does not fit its column |
| WorkspaceMigration.FitsByWidth | backend/alembic/versions/1d03150b69e5_workspaces.py:27 | names of up to 200 characters fit and are kept whole; longer ones that do not end in a space do not |
| WorkspaceMigration.LongNameStopsUpgrade | backend/alembic/versions/1d03150b69e5_workspaces.py:88-98 | a display name, or failing that an address, of 201 characters meets the old constraints and stops the upgrade |
| WorkspaceMigration.OneWorkspaceEach | backend/alembic/versions/1d03150b69e5_workspaces.py:88-105 | each user owns exactly one workspace and is its only member |
| WorkspaceMigration.WorkspaceFields | backend/alembic/versions/1d03150b69e5_workspaces.py:88-105 | each workspace's owner, member and name: the display name or else the address, kept whole but for excess spaces |
| WorkspaceMigration.UpgradeSucceeds | backend/alembic/versions/1d03150b69e5_workspaces.py:88-159 | on data meeting the old constraints the upgrade succeeds if and only if all names fit; then every row has its user's workspace and the new uniqueness constraints hold |
| WorkspaceMigration.RoundTrip | backend/alembic/versions/1d03150b69e5_workspaces.py:185-231 | whenever the upgrade succeeds, the way back restores every user, website and usage row, and the whole database exactly if there were no connections |
| WorkspaceMigration.OrphanStopsUpgrade | backend/alembic/versions/1d03150b69e5_workspaces.py:108-115 | a website of no user stops the upgrade, at the NOT NULL constraint if not before |
| WorkspaceMigration.ConvertedBack | backend/alembic/versions/1d03150b69e5_workspaces.py:188-197 | converting a table and back by inverse lookups restores it |
| WorkspaceMigration.Database.Upgrade | backend/alembic/versions/1d03150b69e5_workspaces.py:88-159 | the upgrade as one transaction: all of it, or an error and nothing |
| WorkspaceMigration.Database.Downgrade | backend/alembic/versions/1d03150b69e5_workspaces.py:185-231 | the way back as one transaction |
| Partitions.AddMonthsIsShift | backend/alembic/versions/c3a9e5f1b8d2_data_platform.py:29-31 | adding months shifts the month's index, and fails exactly outside years 1 to 9999 |
| Partitions.MonthsAct | backend/alembic/versions/c3a9e5f1b8d2_data_platform.py:29-31 | months compose by addition, errors included, zero is neutral and every step can be undone |
| Partitions.CreatePartitions | backend/alembic/versions/c3a9e5f1b8d2_data_platform.py:58-65 | the loop creates one month after the other for any counts back and ahead |
| Partitions.PartitionsTile | backend/alembic/versions/c3a9e5f1b8d2_data_platform.py:58-65 | the ranges are contiguous and disjoint, and each covered day lies in exactly one |

## Left out

- Job runner, scheduler, queue, metrics store, measurement service, mail, HTTP routing, React components.
- Computing the signals that `detect_anomalies` and `_build_findings` start from: probes, certificate handshake, regular expressions over HTML.
- Wording of issues, findings, warnings and descriptions, scores, and the metrics block of a snapshot; snapshot and audit-log rows.
- Deletion of sites and of single issues; a row keeps its index for the life of the table.
- Floating point: times and the layout-shift score are reals, and the 85 % coverage test is exact.
- SHA-256 is taken to be free of collisions; HMAC is any function; AES-GCM obeys two laws (opening undoes sealing, and opening with other associated data fails).
- A limit of zero, for which the limiter would index an empty deque; every caller passes at least one.
- `client_ip`, `reset_all`, and concurrent use of one limiter or one key cache from several threads.
- UTF-8 decoding of chunks split inside a character, and HTTP failures of the chat stream: the model starts from decoded chunks.
- Session.AcceptedCookies: payloads outside ASCII and the further spellings that Python's `int()` and `UUID()` accept count as malformed here; no cookie is ever issued with one.
- Bytes.DecodeInvertsEncode: covers ASCII, which is all that issued payloads contain, and not the rest of UTF-8.
- `rotate` has no caller among the services; the run model applies it to stored rows and writes both columns as an upsert does.
- Reading the key registry from settings (`load_token_cipher`); revocation and status changes of connections other than those of an upsert.
- AuditEngine.IssueTable.RunAudit: does not model a refusal by the database; a title over 255 characters, which text of the scanned page can cause, would abort the whole scan.
- Detection.BuildFindings: titles and details of findings are left out.
- Detection.DetectAnomalies: titles and descriptions are left out, as is the float rounding of the coverage test.
- GtmContainer.BuildSelectedContainer: the export envelope and descriptions are left out.
- GtmResults.ReferencesClosed: a reference written inside text that the user supplies is plain text here.
- HeadlessSlot.HeadlessSemaphore.TryAcquire: the expiry of the wait is an input, and waiting requests acquire in any order.
- Which site stacks are single-page ones: a request says so itself.
- Container envelope: numbers are naturals instead of decimal strings, and identifiers hashed from the domain, and import metadata are absent, as is the older fixed container.
- Chat: prompts and context, exceptions and interrupted streams, and the interleaving of events with persistence; the workspace of the usage row is fixed.
- ChatLoop.Thread.LoadHistory: messages of one turn tie in `created_at`, and are taken here in order of insertion; `ChatOrder` states what holds without that.
- Client disconnection and cancellation of a browser request while it waits for the slot.
- JWT validation after the signing key has been found.
- Schema-only migration steps, the tables of invitations, OAuth states and passwords, generated row identifiers and times, and writes between upgrade and downgrade.
