# Verified model of the key-value authorisation server

The server keeps secrets of several owners in SQL tables and lets sessions, API keys and enrolled
devices work on them. This project models the parts whose correctness depends on state, order and
concurrency, and proves what they promise over every input, every run and every interleaving.

## How the model is built

- **Tables.** `Tables.Db` holds the tables as maps, with their foreign keys and deletion rules. Ids and
  secrets are drawn from one counter, so they are never reused; a stored hash is an injective value.
  Time is an integer number of seconds.
- **Statements.** Each single statement, and each transaction, is a function from tables to tables
  (`Sessions`, `Credentials`, `DeviceDeletion`, `Bans`, `Policy`, `Entries`).
- **Handlers.** `Handlers` gives guard, answer and final tables of every authenticated handler.
  `Server.Server` is the imperative form: a class over the tables whose methods run the statements one
  after another, work on a copy inside a transaction, and are proved equal to those functions. What the
  functions achieve for a caller is stated in `Access`, `Delivery`, `Enrolment`, `EntryAccess`, `PolicyMeaning`,
  `Housekeeping`, `Refusals`, `Effects`, `Handlers` and `Finality`: when exactly an operation succeeds, in terms of rows,
  secrets, names and times, and what later requests are answered. A method of `Server.Server` without a row below
  is tied to the function that the rows there speak of.
  `IpBlock.IpBlocks`, `RateLimit.RateLimiter`, `SecretRequest.SecretRequests` and `Shares.ShareStore` do the
  same for the components with tables of their own.
- **Runs.** `Audit` lets the statements of any number of requests, the cleanup, the clock and, besides their
  own statements, arbitrary changes of bans and entries follow one another in any order. A claim, a chosen
  approval, a polled row or a looked-up key may be used at any later time, as a slow request would. A log records
  what was enrolled, minted, issued, opened, approved, delivered and consumed. `Runs.RunIsSound` is the invariant;
  `Guarantees` and `Finality` state what follows for every run, and `Progress` and `Delivery` that every run can go
  on to a delivered session. `HandlerRuns.HandlersAreRuns` shows that every
  handler is a run of the statements that it executes, so the guarantees hold for the handlers too.
- **Bans.** `BanRuns` interleaves any number of `authorize_key` calls statement by statement with `unban`,
  cleanup, policy changes, device deletion and the clock.
- **Entries.** `EntryRuns` interleaves the reads and writes of any number of entry requests with each other and
  with arbitrary changes of the tables; `GuardRuns` lets a policy change between the guard of a credential or
  device request and its action.

## Main results

- Session keys trace back, in every run, to one challenge for their device, one request with the matching
  nonce and one approval with the matching token by the device's owner; the correspondence is injective.
- An envelope is handed to at most one poll and is the one the approval wrote; the "missing wrap columns"
  error is unreachable. And it arrives: in every run, a poll of an approved request gets the envelope that the
  logged approval sealed, and with what it finds in it the device authenticates; and from every reachable state the
  whole protocol goes through for an unbanned device and its owner.
- What a pattern text means is said without its parser: every tree can be printed, and the text accepts exactly the
  words of the tree; and what compiles is a text of the grammar.
- Every operation on credentials, devices, policies, bans and entries has its exact condition of success, each
  minted credential its exact lifetime, and each limit in time its exact end.
- Every credential's mint ancestry has one owner and one attribution throughout.
- Declined approvals, rejected session requests and decided proposals are final in every run; a revoked key
  comes back in some continuation exactly if an approval of it is left to be granted.
- A restricted device can change nothing outside its own slice, and no owner anything of another owner,
  in every reachable state and for every handler. Whatever runs in between, what an entry request reads or writes
  was permitted at an instant of that request, at or after one without a ban; and wherever a history has such
  instants, some schedule of the request gets through.
- Deleting a device removes exactly what belongs to it, and foreign keys hold after every statement.
- A winning ban update finds no ban in force; every refusal is explained by a ban in force during the call.
- Cleanup of bans, challenges and shares cannot be noticed by anything later in a run. What else a cleanup changes
  is exactly what is over, and no authentication, approval or read is answered differently after it.

## Where a property fails

- **Session hours.** The approved hours are not validated. A negative count, or one that leads past the year
  9999, makes SQLite's date NULL, and a session without an end never expires
  (`Handlers.NegativeHoursNeverEnd`). The session ends exactly if the hours lie in the range in between
  (`Handlers.SessionEndsExactlyForRepresentableHours`).
- **Command-line sessions.** A new one is documented to revoke only earlier command-line sessions
  (src/admin/handlers.rs:205), but device sessions carry the same label and end with them
  (`Effects.NewSessionEndsDeviceSessions`). What ends is exactly every active session of the owner with that
  label (`Effects.NewSessionEndsExactlyTheLabelled`).
- **Revocation.** Revoking a key leaves its approval requests open, and granting one does not look at the
  key's status. A revoked key comes back in some continuation of the run exactly if one of its approval
  requests is open and unexpired, or has been read and not yet granted
  (`Finality.RevocationIsUndoneExactlyIfAnApprovalIsLeft`). It does so when the approval is read before the
  revocation (`Guarantees.RevokedKeyComesBack`) and when it is read after it
  (`Finality.KeyRevokedBeforeTheReadingComesBack`).
- **Check and write.** An entry request checks ban and policy before it reads or writes, not again when it
  does. For every history of the tables there is a schedule on which the request gets to its work exactly if its
  reads pass, in their order, at instants of that history (`EntryRuns.WorkIsReachedExactlyIfTheReadsPass`). For a
  single name that means an instant without a ban and, then or later, one at which the policy permits the name
  (`EntryRuns.NameIsWrittenExactlyIfVouched`); the tables at the time of the write have no say
  (`EntryRuns.CheckedNameIsWrittenLater`), and an entry is written although its device is banned and refused the
  name (`EntryRuns.BannedAndRefusedNameIsWritten`).
- **Overdue proposals.** A proposal is open for thirty minutes (`Enrolment.ProposalStaysOpen`), but linking and
  dismissing it does not look at the time (`Enrolment.LinkLooksAtNoEnd`): an overdue proposal is linked until the
  cleanup has marked it, and then exactly the overdue ones are refused that would have been linked
  (`Housekeeping.LinkingNoticesCleanup`). Rejections of session requests and of approvals are alike
  (`Housekeeping.DecisionsNoticeCleanup`).
- **Ban guard.** The guard on `ban_count` separates two racing violations exactly as long as the count is
  below the largest signed 64-bit number (`BanRuns.GuardSeparatesExactlyBelowSaturation`). At that number the
  saturating increment leaves the count unchanged, and a run from a fresh server in which the owner lifts
  every ban, at one instant, reaches two updates of which the second replaces a ban that is in force
  (`BanRuns.SaturatedRunOverwrites`).
- **Expired address blocks.** Failures do not lead to a new block while the last one has run out and the cleanup
  has not cleared it: an admitted address that fails often enough before the next cleanup is blocked for it exactly
  if its last block is cleared (`IpBlock.ThresholdBlocksExactlyIfTheLastBlockIsCleared`,
  `IpBlock.OverdueBlockShelters`), and the cleanup forgets these failures (`IpBlock.CleanupForgetsFailures`).
- **Notices.** The key of a bypass notice is read back exactly when it does not contain the delimiter
  (`FauxApproval.KeyIsRecovered`); the delimiter itself is a key that is not
  (`FauxApproval.DelimiterIsNotRecovered`).
- **Submissions.** A covered submission for a pending link can still fail: exactly when two of its rows have
  the same name or a name is taken, also by an expired entry that has not been cleaned up
  (`SecretRequest.SucceedsExactlyWhen`, `SecretRequest.RepeatedNameFails`, `SecretRequest.ExpiredNameFails`).
- **Patterns.** Wrapping a pattern in anchors is not enough on its own; without the bare parse, `p)|(q` would
  accept every name that ends in a word of `q` (`Regex.WrappingAloneIsNotEnough`). And it is not free: it adds
  two levels, so a pattern that nests to the library's limit builds bare and is refused
  (`Regex.WrappingCanPassTheLimit`; `Regex.CompilesExactlyWhen` has the exact condition). The limit of 250 is
  the default of version 1.12 of the regex crate, which is not part of this model.

## Model

| member | source | states |
|---|---|---|
| Escalation.EscalatedSecsExact | src/device_policy/enforce.rs:86-89 | clamping the shift and saturating the product never shows: the duration is min(base * 2^(n-1), 30 days) in unbounded arithmetic |
| Escalation.NeverDeescalates | src/device_policy/enforce.rs:86-89 | a later offence never lasts shorter than an earlier one |
| Regex.ExtendAlternatives | src/device_policy/enforce.rs:49-53 | a parsed prefix parses to the same tree when text is appended, the same way and with the appended text left over, if that text starts with a closing bracket or the prefix already stopped |
| Regex.WrappedParsesToAnchored | src/device_policy/enforce.rs:50-53 | if the bare pattern parses, its wrapped form parses to exactly anchor, group of the same tree, anchor |
| Regex.MatchingIsMembership | src/device_policy/enforce.rs:42-54 | positional matching of a pattern without anchors agrees with the textbook language of the word in between |
| Regex.AnchoredMatchesWhole | src/device_policy/enforce.rs:69-83 | an anchored tree matches somewhere in a name exactly when the inner tree matches the whole name |
| Regex.CompilesExactlyWhen | src/device_policy/enforce.rs:20-54 | a pattern compiles exactly when it has an admissible length, parses on its own and nests at least two levels below the library's limit, and then to the anchored tree |
| Regex.WrappingCanPassTheLimit | src/device_policy/enforce.rs:42-54 | a letter within 250 groups builds bare, and is refused because its wrapped form nests too deeply |
| Regex.CompiledAcceptsWholeNames | src/device_policy/enforce.rs:42-83 | a pattern accepts a name exactly when it compiles by that condition and its bare tree matches the whole name |
| Regex.CompiledAcceptsLanguage | src/device_policy/enforce.rs:42-83 | for patterns without anchors of their own the accepted names are the pattern's language |
| Regex.WrappingAloneIsNotEnough | src/device_policy/enforce.rs:49-52 | two patterns joined by a closing bracket, a bar and an opening bracket do not compile, yet their wrapped text parses and accepts every name ending in a word of the second |
| PatternText.PrintedPatternMatchesItsTree | src/device_policy/enforce.rs:42-83 | every tree printed as a text, with greedy or lazy operators, compiles within the limits and matches a name exactly if the tree does, also with anchors in it |
| PatternText.PrintedPatternAcceptsItsLanguage | src/device_policy/enforce.rs:42-83 | the printed text of a tree without anchors accepts exactly the tree's language; the statement does not mention the parser |
| PatternText.DotIsAnyButNewline | src/device_policy/enforce.rs:42-83 | a dot alone accepts any one character but a newline, and a starred dot every name without newlines |
| PatternText.OnlySpelledPatternsCompile | src/device_policy/enforce.rs:20-54 | a text compiles only if the grammar of patterns has it, and then it matches a tree that the grammar gives it |
| Policy.ListingAgreesWithDecision | src/device_policy/enforce.rs:248-282 | the listing filter shows a device exactly the names its policy permits |
| Policy.VisibleSecretNamesAreReadable | src/admin/handlers.rs:1058-1066 | a required key name is shown to a device exactly when both the bare and the stored name are permitted |
| Text.TrimCutsWhiteEnds | src/device_policy/handlers.rs:140-146 | trimming cuts white space off both ends, all of it and nothing else |
| Policy.CollectKeys | src/device_policy/handlers.rs:134-158 | the normalising loop fails exactly on an overlong trimmed key and otherwise yields the distinct trimmed nonblank keys |
| Policy.Validate | src/device_policy/handlers.rs:125-171 | the imperative validation computes the normal form or the error of every request |
| Policy.DistinctIsExact | src/device_policy/handlers.rs:140-153 | the collected keys have no duplicates, are trimmed and nonblank, and are exactly the names that the submitter listed |
| Policy.ValidateIdempotent | src/device_policy/handlers.rs:125-171 | validating what was normalised gives it back unchanged |
| Policy.InsertKeys | src/device_policy/handlers.rs:212-227 | inserting the keys row by row hits the primary key exactly if there are duplicates |
| Policy.SavedPolicyIsLoaded | src/device_policy/enforce.rs:115-151 | a saved policy is read back as normalised, and every other device's policy reads as before |
| Policy.SavedPolicyMeansRequest | src/device_policy/handlers.rs:174-227 | after a save, access check and listing filter decide every name as the submitted request meant it, and every other device's decisions stay |
| PolicyMeaning.UpdateIsTakenExactly | src/device_policy/handlers.rs:125-171 | an update is valid exactly for allow_all, for a list of at most 500 names of at most 256 characters that are not all blank, and for a pattern that compiles; every other one is a bad request |
| PolicyMeaning.PolicyIsSetExactly | src/device_policy/handlers.rs:174-194 | a policy is set exactly by a caller without a device, for an own device, with a valid update; each refusal has its own answer and changes nothing |
| PolicyMeaning.ListDecides | src/device_policy/enforce.rs:56-83 | after an update with allow_all, allow_list or deny_list the device may read every name, exactly the listed names, or exactly the others |
| PolicyMeaning.PatternDecides | src/device_policy/enforce.rs:69-83 | after an update with the printed text of a tree the device may read exactly the words of the tree |
| PolicyMeaning.StoredModeDecides | src/device_policy/enforce.rs:115-170 | no policy permits every name, and a stored mode that is unknown is read as an allow list |
| PolicyMeaning.PolicyDecidesManagement | src/device_policy/enforce.rs:154-202 | after an update callers on the device may manage credentials exactly if its mode is allow_all, and for every other caller nothing changes |
| PolicyMeaning.RestrictedManagesItsOwnKeys | src/device_policy/enforce.rs:204-228 | a caller that may not manage credentials may manage exactly the keys of its own device |
| PolicyMeaning.UnrestrictedManagesEverything | src/device_policy/enforce.rs:154-228 | whoever has no device, or one without a policy, may manage credentials and every key |
| PolicyMeaning.OnlyDevicesAreFiltered | src/device_policy/enforce.rs:263-269 | a caller without a device is shown every name |
| Bans.ViolationBans | src/device_policy/enforce.rs:309-365 | an uninterrupted violation bans the device for exactly the duration of its next offence and touches no other row |
| Bans.BanEndsExactly | src/device_policy/enforce.rs:86-113 | while its row stays, the ban holds exactly until min(base * 2^offences, 30 days) after the violation |
| Bans.ActiveBanStays | src/device_policy/enforce.rs:309-336 | a violation during a ban leaves the ban as it is |
| Bans.OthersKeepTheirStanding | src/device_policy/enforce.rs:309-365 | a ban changes the standing of no other device |
| BanRuns.UninterruptedIsAtomic | src/device_policy/enforce.rs:288-365 | the statements of one call, run one after another, answer and change the ban table as the whole call does |
| BanRuns.WinFindsNoBan | src/device_policy/enforce.rs:315-365 | in every run a guarded update that goes through finds no ban in force, while the count can grow |
| BanRuns.GuardSeparatesExactlyBelowSaturation | src/device_policy/enforce.rs:337-362 | over all runs from a fresh server, no update that has read this count wins over a ban in force, exactly when the count is below the largest signed 64-bit number |
| BanRuns.SaturatedRunOverwrites | src/device_policy/enforce.rs:337-362 | a run from a fresh server, with every ban lifted by the owner, in which the second of two updates that have read that number moves the end of the ban in force |
| BanRuns.SaturatedWinsOverwrite | src/device_policy/enforce.rs:337-362 | in any state in which two updates have read that number, the second one moves the end of the ban in force |
| BanRuns.TwoWinsAreSeparated | src/device_policy/enforce.rs:315-365 | between two applied bans of one device there is an instant without a ban in force |
| BanRuns.ActiveBanIsKept | src/device_policy/enforce.rs:341-365 | no step of any run changes the row of an active ban, other than lifting it or deleting the device |
| BanRuns.RefusalIsWitnessed | src/device_policy/enforce.rs:288-365 | every refusal of a call, also after a lost race, is witnessed by a ban in force during the call, unless the device is gone |
| BanRuns.CountIsBansApplied | src/device_policy/enforce.rs:337-362 | the stored count is the number of bans ever applied, up to saturation |
| BanRuns.BanLengthIsExact | src/device_policy/enforce.rs:86-89 | both timestamps are set or none, and a set pair differs by exactly min(base * 2^(n-1), 30 days) for the n-th applied ban |
| BanRuns.CleanupIsInvisible | src/tasks/ttl_cleanup.rs:83-90 | a cleanup of expired bans inserted anywhere in a run changes no later stage, answer or count |
| IpBlock.CounterBucket | src/middleware/ip_block.rs:27-38 | the loop over the low octets computes the bucket |
| IpBlock.BucketIsPrefix | src/middleware/ip_block.rs:27-38 | two addresses share a bucket exactly when they are the same IPv4 address or IPv6 addresses with equal first 64 bits |
| IpBlock.IpBlocks.Check | src/middleware/ip_block.rs:53-65 | a request is refused exactly while its bucket has a permanent or unexpired block |
| IpBlock.IpBlocks.RecordAuthFailure | src/middleware/ip_block.rs:99-170 | one failure accrues debt and, at the threshold of an unblocked bucket, applies the next block |
| IpBlock.IpBlocks.ResetFailuresOnSuccess | src/middleware/ip_block.rs:85-97 | a success clears the debt of an unblocked bucket and nothing else |
| IpBlock.SuccessForgives | src/middleware/ip_block.rs:85-97 | after a success of an unblocked bucket, any continuation with fewer failures of it than the threshold refuses none of its addresses and leaves its offences as counted before |
| IpBlock.UnblockedIsBelowThreshold | src/middleware/ip_block.rs:99-170 | in every run an unblocked bucket has fewer failures than the threshold |
| IpBlock.BlockHolds | src/middleware/ip_block.rs:85-165 | a block stays as it is until its end, whatever happens, unless an administrator removes it |
| IpBlock.ThresholdRefusesWholeBucket | src/middleware/ip_block.rs:40-165 | threshold failures of one unforgiven bucket refuse every address of it from some point on until the end of the next offence's block |
| IpBlock.ThresholdBlocksExactlyIfTheLastBlockIsCleared | src/middleware/ip_block.rs:99-165 | an admitted bucket that fails threshold times before the next cleanup, unforgiven, is refused in that run exactly if its last block has been cleared |
| IpBlock.CleanupClearsExactly | src/tasks/ttl_cleanup.rs:71-79 | the cleanup clears exactly the blocks that have run out, with the failures since, and keeps every count of offences |
| IpBlock.CleanupForgetsFailures | src/tasks/ttl_cleanup.rs:71-79 | the cleanup clears a block that has run out together with all failures recorded since |
| IpBlock.OverdueBlockShelters | src/middleware/ip_block.rs:139-143 | an address whose first block has run out is admitted after any number of further failures |
| IpBlock.OtherBucketsStay | src/middleware/ip_block.rs:27-170 | failures, successes and removals of one bucket leave the row of another as it is |
| IpBlock.RemovalAdmits | src/admin/handlers.rs:949-965 | an administrator's removal admits the bucket at once and forgets its offences |
| RateLimit.RateLimiter.Before | src/middleware/rate_limit.rs:53-58 | a request is admitted exactly while its counter is below the limit; the check creates the counter |
| RateLimit.RateLimiter.After | src/middleware/rate_limit.rs:63-87 | a failed authentication adds one to the counter and notifies exactly when the limit is reached |
| RateLimit.DebtIsBounded | src/middleware/rate_limit.rs:53-87 | with at most m requests of a bucket in flight, counter plus requests in flight never exceed limit - 1 + m |
| RateLimit.CounterIsBounded | src/middleware/rate_limit.rs:53-87 | so the counter never exceeds limit - 1 + m under any interleaving with the daily clear |
| RateLimit.BoundIsAttained | src/middleware/rate_limit.rs:53-87 | some run attains that bound, for every limit and m |
| RateLimit.OneNoticePerClear | src/middleware/rate_limit.rs:72-86 | since the last clear one notice was sent if the counter has reached the limit, and none otherwise |
| RateLimit.CounterCountsFailures | src/middleware/rate_limit.rs:63-87 | in every run the counter of a bucket is the number of its failed requests since the last clear |
| RateLimit.AdmittedExactly | src/middleware/rate_limit.rs:53-58 | in every run a request is admitted exactly if fewer requests of its bucket than the limit have failed since the last clear |
| RateLimit.LeavingEnds | src/middleware/rate_limit.rs:63-87 | a request that leaves is in flight no more, and no other address notices |
| FauxApproval.NoStraddling | src/admin/handlers.rs:1070-1076 | no occurrence of the delimiter starts inside the key and ends beyond it |
| FauxApproval.KeyIsRecovered | src/admin/handlers.rs:1070-1076 | the key is read back from its message, with or without a note, exactly when the key does not contain the delimiter |
| FauxApproval.DelimiterIsNotRecovered | src/admin/handlers.rs:1070-1076 | a bypass of the delimiter itself is read back as the empty key |
| FauxApproval.MessageReads | src/admin/handlers.rs:1070-1076 | the message quotes the key and, if the note is not blank, the trimmed note |
| SecretRequest.SecretRequests.Submit | src/admin/handlers.rs:1151-1281 | the handler answers and changes the store as specified: all of the submission or nothing |
| SecretRequest.SucceedsExactlyWhen | src/admin/handlers.rs:1151-1281 | a submission for a pending link succeeds exactly when every required key is covered, the names are pairwise different and none is taken |
| SecretRequest.SubmissionSucceedsExactly | src/admin/handlers.rs:1151-1281 | the same said of the submitted entries: the link is pending, every required key has a nonempty value or a bypass, no two entries to be stored have one name, and no entry of the owner has such a name |
| SecretRequest.RepeatedNameFails | src/admin/handlers.rs:1186-1255 | two values for the one required name: covered, free, and answered with the internal error |
| SecretRequest.ExpiredNameFails | src/admin/handlers.rs:1220-1255 | a name taken by an expired entry passes the check for conflicts, and the insert fails |
| SecretRequest.RequiredKeysAreStored | src/admin/handlers.rs:1186-1218 | on success each nonblank required key is bypassed or stored under prefix and key with a submitted nonempty value |
| SecretRequest.NothingElseIsStored | src/admin/handlers.rs:1202-1255 | on success no existing entry differs and every new entry was submitted, unbypassed, for the link's owner |
| SecretRequest.SubmittedEntriesAreStored | src/admin/handlers.rs:1220-1255 | on success every nonblank submitted key that is not bypassed is stored under the prefix with its value, without an end |
| SecretRequest.SubmissionIsRecorded | src/admin/handlers.rs:1166-1281 | on success the link is fulfilled and the notices of its bypasses join the earlier ones; no other link changes, and a refused submission changes nothing |
| SecretRequest.ConflictsAreExact | src/admin/handlers.rs:1220-1243 | a conflict names exactly the rows whose name an unexpired entry of the owner has |
| SecretRequest.FailureIsExplained | src/admin/handlers.rs:1151-1281 | not found exactly for an unknown link, forbidden exactly if it is not pending or not covered, and a conflict exactly if it is pending and covered and some name is taken by an unexpired entry |
| SecretRequest.NoticesAreExact | src/admin/handlers.rs:1257-1276 | the notices are those of the bypasses of required keys, one for each bypass and in their order |
| SecretRequest.NoticesNameBypasses | src/admin/handlers.rs:1070-1076 | each notice names the key of its bypass recoverably exactly if that key does not contain the delimiter |
| SecretRequest.AtMostOneSubmission | src/admin/handlers.rs:1166-1172 | in every run a link takes at most one submission and is never pending again after it |
| SecretRequest.LinkChangesExactly | src/admin/handlers.rs:1078-1120 | a link is fulfilled by its submission, revoked while pending and deleted by its owner, and otherwise stays as it is |
| SecretRequest.CreatedLinkIsPending | src/admin/handlers.rs:987-1017 | a new link is pending, with its owner, prefix and required keys |
| DeviceDeletion.DeletionKeepsForeignKeys | src/devices/handlers.rs:185-273 | all foreign keys hold after every statement of the deletion, in the order given |
| DeviceDeletion.DeleteRemovesExactlyTheDevice | src/devices/handlers.rs:168-273 | deleting an own device succeeds and removes exactly its rows: every other row is unchanged, so no credential loses its attribution |
| Enrolment.RemovalSucceedsExactly | src/devices/handlers.rs:168-183 | a device is removed exactly by its owner, by a caller that may manage credentials and is not on that device |
| Enrolment.RemovedRows | src/devices/handlers.rs:185-273 | which rows go is said row by row, by the device they name or by the device of the credential they name |
| Enrolment.RemainingRows | src/devices/handlers.rs:185-273 | every row that does not go is unchanged |
| Sessions.OnlyTheSealedNonceAnswers | src/session_request/handlers.rs:23-104 | a usable challenge of an unbanned device is answered exactly by the nonce that its envelope holds for the device key |
| Sessions.ApprovalSealsTheMintedKey | src/session_request/handlers.rs:375-435 | the envelope written by an approval opens, for the device's key, to the secret of exactly the credential it minted, and is bound to the request |
| Delivery.ChallengeIsIssuedExactly | src/session_request/handlers.rs:23-71 | a challenge is issued exactly for an existing device with a supported key type |
| Refusals.ChallengeRefused | src/session_request/handlers.rs:23-71 | a challenge for an unknown device is not found, one for an unsupported key type fails, and nothing changes |
| Delivery.ChallengeWindow | src/session_request/handlers.rs:23-104 | the nonce in its envelope answers a kept challenge of an unbanned device exactly for two minutes |
| Delivery.ChallengeIsAnsweredOnce | src/session_request/handlers.rs:85-141 | an answered challenge is answered no second time, whatever the nonce |
| Refusals.AnswerRefused | src/session_request/handlers.rs:85-124 | an unknown, used, overdue or wrongly answered challenge is not found; only then a ban counts |
| Delivery.RequestWindow | src/session_request/handlers.rs:324-435 | a kept request is approved exactly for fifteen minutes, with the token of its ticket, by the owner of the unbanned device with a supported key type, and by a restricted device for itself only |
| Refusals.SessionApprovalRefused | src/session_request/handlers.rs:343-400 | which of the conditions that do not hold decides the answer of a refused session approval |
| Delivery.ApprovedSessionReachesTheDevice | src/session_request/handlers.rs:160-258 | after an approval the first poll hands out an envelope that the device opens to a secret, and with it both session paths authenticate the device at once |
| Delivery.ApprovedRequestIsDelivered | src/session_request/handlers.rs:160-258 | in every run, the statements of a poll for an approved request of an unbanned device, with its poll secret, hand out exactly the envelope that the logged approval sealed, and it opens to the secret of the credential minted by it |
| Delivery.OtherStatusIsReported | src/session_request/handlers.rs:196-215 | in every run such a poll of a request in any other state reports that state and no envelope |
| Delivery.LostClaimIsDelivered | src/session_request/handlers.rs:217-240 | a poll that loses the claim to another one answers that the request has been delivered, without an envelope, and changes nothing |
| Delivery.DeliveredRequestSaysSo | src/session_request/handlers.rs:160-258 | after the envelope has been handed out every poll is told so |
| Delivery.RefusedPolls | src/session_request/handlers.rs:160-195 | a poll with a wrong secret finds nothing, one of a banned device is refused, and neither changes anything |
| Enrolment.RejectionSucceedsExactly | src/session_request/handlers.rs:441-483 | a session request is rejected exactly while it is waiting, by the owner of its device who may manage credentials |
| Refusals.SessionRejectionRefused | src/session_request/handlers.rs:441-483 | a rejection is forbidden to restricted devices and other owners, and a request that is not waiting is not found |
| Integrity.LookupIsUnique | migrations/0008_shareable_keys.sql:7 | the lookup by hash finds at most one credential |
| AuditInvariant.ApprovalIsUnique | src/session_request/handlers.rs:409-435 | a request has at most one approval in the log |
| Runs.RunIsSound | src/session_request/handlers.rs:23-483 | the invariant over tables, requests under way and log holds in every run |
| Guarantees.TablesAreIntact | src/admin/handlers.rs:97-110 | in every run foreign keys, the unique hash index, ownership, attribution and row shapes hold |
| Guarantees.CredentialsAreOwned | src/admin/handlers.rs:97-110 | in every run a credential with a device names an existing device of the same owner |
| Guarantees.WrapsAreWholeExactlyWhenApproved | src/session_request/handlers.rs:196-240 | the wrap columns are all present exactly when the status is approved and all absent otherwise |
| Guarantees.SessionKeysCarryTheDevice | src/session_request/handlers.rs:383-435 | the session key of a request exists and carries the request's device |
| Guarantees.ConfirmedProposalsAreHonest | src/devices/handlers.rs:430-470 | a confirmed proposal names an existing device of the confirming owner with exactly the proposed key |
| Guarantees.SessionKeysHaveProvenance | src/session_request/handlers.rs:85-141 | every approved session key traces back to a challenge for its device answered with the matching nonce, a request with the matching token, and an approval by the owner who enrolled the device |
| Progress.RequestGoesThrough | src/session_request/handlers.rs:23-439 | in every run, for every unbanned device with a supported key type and every claim of its owner, challenge, answer, approval and poll go through: the poll gets the envelope, it opens to the secret of the session minted for the device, and the log tells just that |
| Guarantees.ProvenanceIsInjective | src/session_request/handlers.rs:343-437 | provenances that share a challenge, a request or a key are the same |
| Guarantees.CredentialsDescend | src/auth/oidc.rs:137-168 | every credential's mint ancestry has one owner and attribution: a device-less one goes back to a login, a device's to the approval of a session request of that device |
| Guarantees.EnvelopesAreDeliveredAtMostOnce | src/session_request/handlers.rs:196-252 | two polls that hand out an envelope of one request are the same poll |
| Guarantees.DeliveredIsWhatWasApproved | src/session_request/handlers.rs:196-252 | the envelope handed out is the one that the approval sealed |
| Guarantees.MissingColumnsAreUnreachable | src/session_request/handlers.rs:228-252 | no poll is ever answered with the internal error for missing columns |
| Guarantees.OneTimeKeysAuthenticateOnce | src/middleware/api_key.rs:341-360 | a one-time key authenticates at most one request, whatever runs in between |
| Progress.KeyInUseIsAccepted | src/middleware/api_key.rs:229-384 | in every run the statements of its authentication accept a key in use, and exactly a one-time key is used up and logged |
| Progress.OwnerEnrols | src/devices/handlers.rs:86-142 | in every run an owner can log in, be authenticated and enrol a device under a new name |
| Progress.TimePasses | src/tasks/ttl_cleanup.rs:4-12 | in every run time can pass, and changes nothing else |
| Guarantees.UsedIsFinal | src/admin/handlers.rs:474-489 | a used key stays used while it exists, although approvals reactivate keys unconditionally |
| Guarantees.RevokedIsLeftExactlyByAGrant | src/admin/handlers.rs:446-493 | the statement that takes a key out of that status is always a grant whose request has read its approval, and then the key needs approval by kind |
| Finality.RevocationIsUndoneExactlyIfAnApprovalIsLeft | src/admin/handlers.rs:128-148 | a revoked key is in use again in some continuation of the run exactly if an approval request of it is open and unexpired, or has been read and not yet granted |
| Finality.KeyRevokedBeforeTheReadingComesBack | src/admin/handlers.rs:446-493 | a run in which a key is revoked, and an approval read and granted only afterwards makes it active |
| Finality.ClosedApprovalsAreNeverChosen | src/admin/handlers.rs:460-489 | an approval request that is no longer open can never be chosen again, however the run goes on |
| Finality.DeclinedApprovalIsNeverChosen | src/admin/handlers.rs:495-519 | once the owner has declined an approval request, nobody can choose it, however the run goes on |
| Finality.RejectedRequestsNeverDeliver | src/session_request/handlers.rs:160-258 | a rejected or expired session request keeps its status, is never approved and never hands out an envelope |
| Finality.RejectedSessionIsNeverDelivered | src/session_request/handlers.rs:441-483 | once the owner has rejected a session request, it is never approved and no poll hands out an envelope for it |
| Finality.ProposalsAreDecidedOnce | src/devices/handlers.rs:412-491 | a decided proposal keeps its row for as long as it exists and is never linked or rejected again |
| Finality.DismissedProposalIsNeverLinked | src/devices/handlers.rs:474-491 | once a proposal is rejected, it is never linked to a device |
| Guarantees.RevokedKeyComesBack | src/admin/handlers.rs:128-148 | a run in which a key revoked between the reading and the granting of its approval is active again |
| Guarantees.DeviceNamesStayDistinct | src/devices/handlers.rs:86-142 | in every run an owner's devices have different names |
| Guarantees.BearerAgreesWithAdmin | src/middleware/api_key.rs:112-199 | in every run a session key is answered alike on the two paths that take it, although their status tests differ |
| Handlers.BannedDeviceIsShutOut | src/device_policy/enforce.rs:91-113 | while a device is banned its credentials authenticate on none of the three paths and nothing is used up by trying, its challenges and requests are refused and nothing sealed for it is read |
| Handlers.ImportIsAllOrNothing | src/admin/handlers.rs:834-889 | an import writes nothing if any name is refused; otherwise each name gets its last value and no other entry differs |
| Handlers.SessionWindow | src/session_request/handlers.rs:324-407 | an approved session authenticates exactly within the approved hours, one day by default, if their end can be represented, and for ever otherwise |
| Access.ApprovedSessionLives | src/session_request/handlers.rs:324-407 | the session minted by an approval authenticates its device exactly for the approved hours, 24 by default, and for ever if they are negative or lead past the year 9999; the numbers are written out |
| Handlers.SessionEndsExactlyForRepresentableHours | src/session_request/handlers.rs:333-407 | the session ends at some time exactly when the submitted hours are not negative and lead to a date that can be represented |
| Handlers.NegativeHoursNeverEnd | src/auth/middleware.rs:49-104 | approved for minus one hour, a session authenticates at every later time |
| Handlers.NegativeHoursAreTaken | src/session_request/handlers.rs:324-407 | a state in which the handler takes such an approval |
| Access.KindDecidesThePath | src/middleware/api_key.rs:112-384 | with its secret a credential in use is accepted as its owner and device exactly on the paths of its kind: sessions by cookie and Bearer, approval tokens by cookie, everything but sessions as an API key |
| Access.WrongSecretIsRefused | src/auth/middleware.rs:49-74 | a wrong secret is refused on every path and uses nothing up |
| Access.OverIsRefused | src/auth/middleware.rs:75-90 | an expired credential is refused on every path, with an answer that tells so where a session is expected |
| Access.OneTimeKeyIsSpent | src/middleware/api_key.rs:341-384 | a one-time key in use is accepted, and right after that refused on every path |
| Access.BannedIsTold | src/auth/middleware.rs:91-104 | an otherwise usable credential of a banned device is told so on the paths of its kind, and is not used up |
| Access.WaitingIsTold | src/middleware/api_key.rs:305-334 | a key that waits for approval is told so |
| Access.MintingSucceedsExactly | src/admin/handlers.rs:56-418 | each mint succeeds exactly for a caller that may manage credentials and whose device still exists; keys are of no session or token kind |
| Access.SessionKeyLives | src/admin/handlers.rs:195-232 | a minted command-line session authenticates its caller exactly for fifteen hours and is then told to be expired |
| Access.CliTokenLives | src/admin/handlers.rs:354-392 | a command-line token authenticates its caller exactly for the days asked for, from one to seven, one by default |
| Access.DeviceTokenLives | src/admin/handlers.rs:394-418 | a device token authenticates its caller exactly for 180 days |
| Access.NextSessionEndsThis | src/admin/handlers.rs:195-232 | the owner's next command-line session ends this one on every path |
| Access.NextLoginEndsThis | src/auth/oidc.rs:137-168 | the next login with the same address ends the session of this one on every path |
| Handlers.FreshKeyWorksUnlessApprovalIsNeeded | src/admin/handlers.rs:91-110 | a fresh key is usable exactly until its expiry if its kind needs no approval, else its holder is told to wait until then |
| Handlers.OnlyTheLatestApprovalIsOpen | src/kv/handlers.rs:94-120 | asking for access leaves only the new approval request of the key open, and it can be granted for ten minutes |
| Access.AskedApproval | src/kv/handlers.rs:74-123 | access is asked for exactly by a key that waits for approval; it opens one approval for ten minutes, closes the open ones of the same key and touches no other |
| Access.ApprovalIsGrantedExactly | src/admin/handlers.rs:446-519 | an open unexpired approval is granted exactly by the owner of its key with its confirmation, and declined exactly by that owner while it is open |
| Access.DeclinedApprovalIsClosed | src/admin/handlers.rs:495-519 | a declined approval is closed, and nothing else happens |
| Refusals.ApprovalRefused | src/admin/handlers.rs:446-519 | an approval that is closed, over or of a foreign key is not found, a wrong confirmation is forbidden |
| Access.GrantedKeyWorks | src/admin/handlers.rs:474-493 | a granted key in use is accepted at once, and no other credential is answered differently |
| Handlers.LogoutEndsSessions | src/admin/handlers.rs:277-286 | after the logout of an unrestricted caller no session of the owner authenticates |
| Access.LogoutEndsExactlyTheSessions | src/admin/handlers.rs:277-295 | the logout of an unrestricted caller ends exactly the owner's active sessions and changes the answer to no other credential |
| Handlers.RestrictedLogoutEndsItself | src/admin/handlers.rs:265-276 | a restricted device's logout ends its own credential and no other |
| Effects.NewSessionEndsExactlyTheLabelled | src/admin/handlers.rs:205-226 | a new command-line session ends, on every path, exactly the owner's active sessions with that label, and every other credential is answered as before |
| Effects.NewSessionEndsDeviceSessions | src/admin/handlers.rs:204-212 | so it ends the session that an approval has just minted for a device |
| Confinement.KeyRequestsConfined | src/device_policy/enforce.rs:181-228 | credential requests of a restricted device change only its own credentials and their dependents |
| Confinement.DeviceRequestsConfined | src/session_request/handlers.rs:335-369 | a restricted device can approve session requests for itself only and change no device, policy, ban or proposal |
| Confinement.EntryRequestsConfined | src/admin/handlers.rs:681-697 | entry requests of a device change no entry, body or recipient whose name its policy refuses, and no other device's ban |
| Confinement.RestrictedDeviceIsConfined | src/device_policy/enforce.rs:154-228 | whatever a restricted device asks for, only its own slice of the tables changes |
| HandlerRuns.HandlersAreRuns | src/admin/handlers.rs:56-889 | every handler, run without interruption, leaves the tables as a longer run of its own statements does: its mint, revocation, approval, deletion, policy, lifted ban, each row of an import, or the violation that refused it |
| HandlerRuns.HandlersKeepTablesIntact | src/admin/handlers.rs:56-548 | so every handler keeps foreign keys, ownership and attribution |
| HandlerRuns.ClaimsKeepDevice | src/auth/middleware.rs:49-104 | however old a claim is, its credential still has the claimed owner and device |
| HandlerRuns.RestrictedDevicesAreConfined | src/device_policy/enforce.rs:154-228 | in every reachable state every uninterrupted request of a restricted device changes only its own slice |
| GuardRuns.PromptGuardIsHandler | src/device_policy/enforce.rs:181-228 | a request whose guard and action fall into one instant does what its handler does |
| GuardRuns.RestrictedAtTheGuardIsConfined | src/device_policy/enforce.rs:181-228 | in every run, if the guard of a credential or device request finds the device restricted, what the request does at any later instant, also under another policy, stays in the device's slice |
| EntryRuns.WritesAreVouched | src/admin/handlers.rs:681-889 | whatever happens in between, a step of an entry request touches only entries that it names, under the caller's owner, and only after all its reads have passed in order: an instant of the request without a ban, and then one at which the device's policy permitted the name |
| EntryRuns.AnswersAreVouched | src/devices/handlers.rs:496-582 | an answer that is no refusal rests on the same reads in the same order, for the caller's device and for the device of the path |
| EntryRuns.UnvouchedIsNotTouched | src/device_policy/enforce.rs:288-303 | an entry is not touched by a request during which no instant without a ban is followed by one, perhaps the same, at which the policy permits the name |
| EntryRuns.WorkIsReachedExactlyIfTheReadsPass | src/device_policy/enforce.rs:288-303 | for every request and every history of the tables, some schedule takes the request to its work in the last tables exactly if the history has instants, in order, at which its reads pass |
| EntryRuns.NameIsWrittenExactlyIfVouched | src/admin/handlers.rs:699-777 | for every history of the tables, some schedule writes the entry into the last ones exactly if the history has an instant without a ban and, then or later, one at which the policy permits the name |
| EntryRuns.UninterruptedIsHandler | src/admin/handlers.rs:681-889 | the steps of an entry request, run one after another, answer and leave the tables as its handler does |
| EntryRuns.CheckedNameIsWrittenLater | src/admin/handlers.rs:699-777 | for any tables at the reading of the ban, at the reading of the policy and at the write, the entry is written exactly if the first have no ban and the second permit the name, whatever the third say |
| EntryRuns.BannedAndRefusedNameIsWritten | src/admin/handlers.rs:699-777 | an entry is written into tables in which the device is banned and refused the name |
| OwnerIsolation.KeyRequestsIsolated | src/admin/handlers.rs:56-519 | credential requests change no credential or approval of another owner |
| OwnerIsolation.DeviceRequestsIsolated | src/devices/handlers.rs:168-273 | device, session-request and policy requests change nothing of another owner |
| OwnerIsolation.EntryRequestsIsolated | src/kv/handlers.rs:131-334 | entry requests change no entry, body or ban of another owner |
| OwnerIsolation.OwnersAreIsolated | src/admin/handlers.rs:56-889 | in every run no request changes what belongs to another owner; another owner's recipient rows disappear only together with an own device |
| ChallengeCleanup.CleanupIsInvisible | src/tasks/ttl_cleanup.rs:49-55 | deleting expired challenges anywhere in a run leaves all later states alike |
| ChallengeCleanup.CleanupChangesNoOutcome | src/tasks/ttl_cleanup.rs:49-55 | the log, all claims, poll answers and authentications and all other tables are equal with and without the cleanup |
| Shares.ShareStore.ClaimShare | src/shares/handlers.rs:47-73 | an unexpired share is returned and deleted in one step, anything else is not found and changes nothing |
| Shares.SharesAreClaimedOnce | src/shares/handlers.rs:47-73 | in every run a share is handed out at most once, exactly as created |
| Shares.ClaimSucceedsExactly | src/shares/handlers.rs:47-73 | in every run a claim gets its share, as created, exactly if there was one, nobody has claimed it and it is not over |
| Shares.NewShareIsClaimable | src/shares/handlers.rs:15-73 | in every run a new share can be claimed until its end, however much time passes |
| Shares.CleanupDropsExactly | src/tasks/ttl_cleanup.rs:63-69 | the cleanup drops exactly the shares that are over |
| Shares.CleanupIsInvisible | src/tasks/ttl_cleanup.rs:63-69 | deleting expired shares anywhere in a run changes the answer of no claim |
| Server.Server.EnsureNotBanned | src/device_policy/enforce.rs:91-113 | refused exactly while the device has an unexpired ban |
| Server.Server.RecordViolation | src/device_policy/enforce.rs:305-388 | applies the next ban unless one is in force; fails only if the device row is gone |
| Server.Server.AuthorizeKey | src/device_policy/enforce.rs:288-303 | ban check, policy check and violation have the specified answer and effect |
| Server.Server.UpdatePolicy | src/device_policy/handlers.rs:174-238 | the transaction stores the normalised policy or changes nothing, and never fails on a duplicate key |
| Server.Server.Unban | src/device_policy/handlers.rs:241-266 | lifts an active ban of the caller's own device, keeping its count; refused to devices |
| Enrolment.UnbanSucceedsExactly | src/device_policy/handlers.rs:241-266 | a ban is lifted exactly for a banned own device by a caller without a device; the device is then unbanned at every time, its count stays, and no other device is touched |
| Enrolment.DeviceCheckAnswers | src/device_policy/enforce.rs:288-303 | the check of an existing device passes exactly if it is unbanned and permitted the name; otherwise the device is banned, now or still |
| Enrolment.OnlyDevicesAreChecked | src/admin/handlers.rs:681-697 | a caller without a device always passes |
| Refusals.GoneDeviceRefused | src/device_policy/enforce.rs:288-335 | for a device whose rows are gone the check passes exactly if its policy permits the name, and otherwise fails without a ban |
| Server.Server.CreateChallenge | src/session_request/handlers.rs:23-71 | issues a challenge whose nonce is sealed to the device |
| Server.Server.CreateRequest | src/session_request/handlers.rs:74-158 | consumes a usable challenge and opens one request, or changes nothing |
| Server.Server.PollStatus | src/session_request/handlers.rs:160-258 | answers a poll and hands out and clears the envelope of an approved request |
| Server.Server.ApproveSession | src/session_request/handlers.rs:324-439 | mints and seals a session key for the request's device, or changes nothing |
| Server.Server.Authenticate | src/auth/middleware.rs:49-104 | the answer is that of the one row with the hash, if there is one |
| Server.Server.AuthenticateBearer | src/middleware/api_key.rs:112-199 | accepts exactly unexpired session keys of unbanned devices that are neither revoked nor used up |
| Server.Server.AuthManualKey | src/middleware/api_key.rs:229-384 | accepts exactly usable keys of unbanned devices and uses up a one-time key exactly when it accepts it |
| Access.CreatedKeyIsListed | src/admin/handlers.rs:91-126 | a fresh key has its caller's owner and device, exactly the given names are listed for it, and the lists of other keys stay |
| Access.ListLimitsTheKey | src/middleware/api_key.rs:67-74 | with a list, reads, writes and deletes of a name outside it are forbidden and change nothing, and of a name in it are answered as without a list |
| Access.CreatedKeyReadsItsNames | src/kv/handlers.rs:131-217 | so a key created with some names reads, of its owner's readable entries, exactly these |
| Effects.LoginStartsOneSession | src/auth/oidc.rs:137-168 | a login starts one device-less session for fifteen hours, ends the owner's sessions with the same label on every path and changes no other credential's answer |
| Server.Server.CreateKey | src/admin/handlers.rs:56-126 | mints a key that inherits the caller's device, with its allowed names |
| Server.Server.CreateSessionKey | src/admin/handlers.rs:195-232 | revokes the owner's active sessions labelled as command-line sessions and mints a new one with the caller's device |
| Server.Server.CreateToken | src/admin/handlers.rs:354-418 | mints an approval token with the caller's device |
| Effects.RevokedKeyIsRefused | src/admin/handlers.rs:128-148 | a revocation succeeds exactly for a manageable own key in use; then the key is refused on every path and every other credential is answered as before |
| Refusals.KeyRequestRefused | src/admin/handlers.rs:128-188 | keys that the caller may not manage are forbidden, foreign ones and those in the wrong state are not found, and nothing changes |
| Effects.DeletingAKeyOnlyTidiesUp | src/admin/handlers.rs:168-188 | a deletion succeeds exactly for a manageable own key out of use, takes that row only, and no authentication on any path is answered differently |
| Access.DeletedKeyTakesItsOwn | src/admin/handlers.rs:168-188 | with a deleted key exactly its listed names and approvals go, and requests forget it |
| Effects.DeletingSessionsOnlyTidiesUp | src/admin/handlers.rs:150-166 | exactly the owner's revoked sessions go, and no authentication on any path is answered differently |
| Server.Server.Logout | src/admin/handlers.rs:258-295 | a restricted device logs out only itself, anybody else all sessions of the owner |
| Server.Server.ApproveKey | src/admin/handlers.rs:446-493 | grants an open approval of an own key with the matching confirmation and activates the key |
| Server.Server.RequestAccess | src/kv/handlers.rs:74-123 | replaces the open approvals of a waiting key by a new one |
| Server.Server.RemoveDevice | src/devices/handlers.rs:168-273 | runs the deletions in order in one transaction; never for the caller's own device |
| Server.Server.LinkProposed | src/devices/handlers.rs:412-470 | confirms a pending proposal with an own device that carries the proposed key |
| Enrolment.EnrolmentSucceedsExactly | src/devices/handlers.rs:86-142 | a device is enrolled exactly if its owner has none of that name, with the keys of the ceremony |
| Enrolment.LinkSucceedsExactly | src/devices/handlers.rs:412-470 | a link succeeds exactly for a pending proposal with its token and an own device with the proposed key |
| Enrolment.ProposedDeviceIsLinked | src/devices/handlers.rs:281-470 | from a proposal over the enrolment of its key to the link, which then names the device and its owner |
| Enrolment.ProposalStaysOpen | src/devices/handlers.rs:281-328 | a proposal left alone is open for exactly thirty minutes |
| Enrolment.LinkLooksAtNoEnd | src/devices/handlers.rs:412-470 | a link is answered alike at every time, also after the proposal is over |
| Enrolment.DismissalSucceedsExactly | src/devices/handlers.rs:474-491 | a proposal is dismissed exactly while it is open, by a caller that may manage credentials |
| Refusals.DeviceRequestRefused | src/devices/handlers.rs:168-491 | requests about devices and proposals are forbidden to restricted devices, unbanning to all devices, and whatever else is wrong is not found |
| Server.Server.FetchDeviceKv | src/devices/handlers.rs:496-582 | checks the caller's device with a ban and the path device without one before a sealed entry is read |
| Server.Server.AdminRead | src/admin/handlers.rs:779-811 | reads a plain unexpired entry after the device check |
| EntryAccess.ReadSucceedsExactly | src/kv/handlers.rs:131-217 | both reads succeed exactly for an entry that is present, unexpired, not sealed and not zero-trust, with a passed check and, for a listed key, a listed name |
| Refusals.EntryRequestRefused | src/kv/handlers.rs:131-217 | unlisted names are forbidden before anything is looked up, missing and overdue entries are not found, sealed ones forbidden, and zero-trust ones told so by key and forbidden to administrators |
| Refusals.EntryChangeRefused | src/kv/handlers.rs:219-334 | a change by key is forbidden for unlisted and reserved names, and a delete of a missing entry is not found; nothing changes |
| Refusals.CheckDecidesFirst | src/admin/handlers.rs:681-697 | a refused device check is the answer of every entry request of the caller, and no entry changes |
| EntryAccess.ReadEntryLives | src/kv/handlers.rs:178-217 | after a read the entry can be read exactly until its end, which for a sliding lifetime starts again with the read |
| EntryAccess.ReadMovesNoOther | src/kv/handlers.rs:196-217 | a read by key moves the end of no other entry, and a read by an administrator of none |
| EntryAccess.WriteSucceedsExactly | src/kv/handlers.rs:219-308 | a write succeeds exactly with a passed check, for a listed key a listed name, and for the reserved name the administrator; it sets all columns of that row and of no other |
| EntryAccess.DeleteSucceedsExactly | src/kv/handlers.rs:310-334 | a delete by key succeeds exactly with a passed check, a listed name and an existing row, and takes that row only |
| Effects.AdminWriteIsRead | src/admin/handlers.rs:699-777 | after a write every reader of the owner who passes the device check gets the written value until the entry is over, unless it is sealed; a refused write writes nothing |
| Effects.DeletedIsNotFound | src/admin/handlers.rs:813-832 | a delete succeeds exactly if its check passes and the row exists; then the name is not found and every other name reads as before |
| Server.Server.GetEntry | src/kv/handlers.rs:131-217 | reads a plain unexpired entry within policy and allow list and extends a sliding expiry |
| Effects.PutByKeyIsRead | src/kv/handlers.rs:219-308 | after a write by key the owner reads the written value until the entry is over; the name was listed for the key, and the reserved name was written by the administrator |
| Effects.DeletedByKeyIsNotFound | src/kv/handlers.rs:310-334 | a delete by key is of a listed, existing name; then the name is not found and every other name reads as before |
| Effects.FileIsParsed | src/admin/handlers.rs:844-859 | a file yields, in order, exactly one entry per assigning line, the prefixed trimmed name and the unquoted trimmed value, and is refused exactly if a value is one quote character |
| Server.Server.Import | src/admin/handlers.rs:834-889 | checks every name before writing any entry |
| EntryAccess.ImportSucceedsExactly | src/admin/handlers.rs:834-889 | an import succeeds exactly if its file is read and every name in it passes the device check |
| EntryAccess.ImportedEntriesAre | src/admin/handlers.rs:866-889 | every imported row has the last value given, the options of the request and its earlier zero-trust columns and mark; no other row differs |
| Server.Server.WriteDeviceKv | src/kv/handlers.rs:524-597 | replaces body and recipients of an entry and marks it, in one transaction |
| EntryAccess.SealSucceedsExactly | src/kv/handlers.rs:524-597 | a device-encrypted write succeeds exactly for a passed check and existing devices, none twice and at least one; every other entry and body stays, and so do the other columns of the entry |
| EntryAccess.OtherRecipientsStay | src/kv/handlers.rs:560-584 | a device-encrypted write changes the recipients of no other entry |
| Refusals.SealRefused | src/kv/handlers.rs:524-597 | a write for nobody is forbidden, one for an unknown device or for one twice fails as a whole |
| EntryAccess.FetchSucceedsExactly | src/devices/handlers.rs:496-582 | a sealed body is fetched exactly for an own device that is a recipient, if the caller's device passes its check and another device of the path is unbanned and permitted; the fetch is noted at the device |
| Refusals.FetchRefused | src/devices/handlers.rs:496-582 | a foreign device is not found; for an own one the caller's check decides first, then the ban and the policy of another device of the path |
| Effects.NamedDevicesFetch | src/kv/handlers.rs:524-597 | after the write exactly the named ones of the owner's unbanned, permitted devices fetch that body, and no plain read returns the entry |
| Server.InsertRecipients | src/kv/handlers.rs:568-584 | the recipient loop succeeds exactly when every device exists and none is named twice |
| Server.Server.Cleanup | src/tasks/ttl_cleanup.rs:14-91 | drops or marks exactly the expired rows of each modelled table |
| Housekeeping.OnlyOverdueRowsAreMarked | src/tasks/ttl_cleanup.rs:22-61 | the cleanup marks exactly the open approvals, waiting requests and open proposals that are over, and no other row differs |
| Housekeeping.OnlyOverdueRowsAreDropped | src/tasks/ttl_cleanup.rs:14-55 | it drops exactly the entries and challenges that are over |
| Housekeeping.OnlyOverdueBansAreLifted | src/tasks/ttl_cleanup.rs:83-90 | it lifts exactly the bans that are over, keeps every count and changes no device's standing |
| Housekeeping.CleanupChangesNoRead | src/tasks/ttl_cleanup.rs:14-91 | a cleanup changes the answer of no read of an entry |
| Housekeeping.CleanupChangesNoAuthentication | src/tasks/ttl_cleanup.rs:14-91 | nor the answer to any credential on any path |
| Housekeeping.CleanupChangesNoApproval | src/tasks/ttl_cleanup.rs:22-28 | an approval of a key is answered alike before and after a cleanup, and leaves the same credentials |
| Housekeeping.CleanupChangesNoSessionApproval | src/tasks/ttl_cleanup.rs:38-44 | and so is an approval of a session request |
| Housekeeping.CleanupChangesNoRequest | src/tasks/ttl_cleanup.rs:49-55 | and so is the answer to a challenge |
| Housekeeping.PollNoticesExpiry | src/tasks/ttl_cleanup.rs:38-44 | a poll is answered differently after a cleanup exactly if its waiting request is over: it is then told so |
| Housekeeping.DecisionsNoticeCleanup | src/session_request/handlers.rs:441-483 | rejections do not look at the end of their row, so they are answered differently after a cleanup exactly if it is over: there is nothing to reject any more |
| Housekeeping.LinkingNoticesCleanup | src/devices/handlers.rs:412-470 | after a cleanup exactly the overdue proposals are refused that would have been linked |
| Housekeeping.DeletionNoticesCleanup | src/admin/handlers.rs:813-832 | a delete is answered differently after a cleanup exactly if its entry is over |

## Left out

- Cryptography, hashing and randomness: envelopes, hashes and secrets are opaque values with the properties named above.
- The WebAuthn ceremony and the zero-trust payload path; `register_finish` is modelled from the point at which the ceremony has succeeded.
- HTTP routing, JSON, cookies, notification delivery, the OIDC flow before the session is minted, configuration reading and dev mode, in which every caller is one device-less owner.
- The compiled-size limit of patterns, and regex syntax outside literals, escaped metacharacters, dot, star, plus, question mark, alternatives, groups and anchors.
- Management keys, the access log, listings other than their name filter, and the deny list of blocked addresses as an administrator sees it: they add only easy members.
- Torn reads: loading a policy is one step, and so is the check of a path device; the source reads mode and keys, and body and recipient, in separate statements.
- Interleavings inside `record_auth_failure`, whose last update is unguarded; its calls are run whole.
- Database faults other than primary-key and foreign-key failures.
- `last_used_at`, `last_ip` and other columns that no decision reads; `ttl_hours` is a whole number of seconds after its conversion from floating point.
- The `device_auth_requests` table is modelled only as far as device deletion touches it.
- Splitting the import text into lines; a value that is one quote character makes the slice bounds of `unquote` cross, which the model answers with an internal error before anything is written.
- The refusal of a write that gives only some of the zero-trust fields (src/admin/handlers.rs:708-736, src/kv/handlers.rs:243-270): the model has these fields as one optional value, so all of them or none.
- The 32-bit width of the rate counter: it would wrap only after more failures than a day admits.
- Deleting and re-enrolling a device under the same id: ids are fresh.
- Open-access reads without a credential, and the access by listing: they write nothing.
- Interleavings inside handlers that read before they write without a transaction, other than polls, key authentication, approvals of keys, `authorize_key`, entry requests and policy guards: `create_challenge`, `link_proposal` and `register_finish` are one step each.
- In `EntryRuns` and `HandlerRuns` a refused check records its violation in one step; the single statements of that are in `BanRuns`.
- Dates past the year 9999 other than the end of an approved session: the clock is taken to be far enough from it that the fixed lifetimes can be represented.
- The text of a key's expiry: `create_key` stores it unparsed, the model types it as a time.
- HandlerRuns.RestrictedDevicesAreConfined: takes each handler as uninterrupted; `GuardRuns` and `EntryRuns` cover a policy that changes between a check and what follows it.
- OwnerIsolation.OwnersAreIsolated: leaves out proposals nobody has confirmed, which have no owner.
- Server.Server.AuthManualKey: takes the row that the lookup by hash finds as an argument; `Integrity.LookupIsUnique` shows that there is at most one.
- Server.Server.Cleanup: does not cover `device_auth_requests`, `one_time_shares` and `blocked_ips`; the last two are covered in `Shares` and `IpBlock`.
