# Verification of the bsystem-deploy components

A Dafny model of the parts of the repository that have state, concurrency or parsing,
with proofs of what they promise. `dafny verify dfyconfig.toml` checks everything.

**Accounts** (`Accounts`, `AccountProtocol`, `AccountInvariant`, `AccountHistory`,
`AccountProgress`, `AccountTheorems`). `set-role`, `disable`, `enable` and `create` of
`scripts/bsystem-userctl` as database transactions under READ COMMITTED visibility, for any
number of clients, any interleaving of their steps and aborts at any step. One step is one
statement, one row lock or one commit; a lock table holds the administrator group row, the
user rows and the uncommitted user names. `Accounts` says what each command means when it
runs alone. The main result is that every run is linearizable: there is a serial order of
the atomic commands, respecting real time, with the same verdicts and the same committed
directory. Successful commands take their place at their commit, a no-op `enable` at its
read, a refusal at the statement that caused it. The refusal of the last-administrator guard
is the delicate one: between its count and its decision an administrator may have been
enabled, so its place in the order lies in the past. From linearizability follow the last
administrator's survival and the single-role policy. The lock order gives deadlock freedom,
and a measure bounds the length of every run.

**NATS wire reader** (`NatsWire`, `NatsReader`, `NatsBuffer`). `NatsWire.Events` is what the
read loop of `e2e/natswire.go` does with a stream of bytes. Frames printed by a server are
read back exactly, whatever their payloads contain; a truncated stream gives a prefix. The
classes in `NatsReader` read from a connection that delivers arbitrary non-empty chunks, with
the consumer running in between, and are proved against that function, so the result does
not depend on the chunks. A header that announces more bytes than a slice can have makes the
program panic; frames that arrive before the PONG of the handshake are lost. `NatsBuffer` is
the bounded channel.

**Fault queues** (`FaultPlan`, `FaultQueues`, `PathOrder`). The run-length encoded queues of
`mocks/internal/mockhttp/mockhttp.go` refine a plain FIFO of single faults per path.

**Load test** (`LoadTest`, `Percentiles`, `LoadReport`). The workers' claims, slots and error
counter in any interleaving, the rank statistics of the report, and the two together: the
report of a run depends only on what its requests turned out to be. A comment and a message
in `loadtest/main.go` (lines 88-96) say that the percentiles describe only the requests that
succeeded. The code stores a duration for every request, and the model follows the code:
`LoadReport.SlowFailureIsTheMax` is a run whose Max is a failed request, and
`LoadReport.OnlySuccessesAreRanked` says that the sentence holds exactly for runs without errors.

**Smaller components**: page windows and the Redmine issue filters (`Paging`), the Compose
hardening verdict (`Hardening`), the record/verify evidence chain (`ImageDigests`), and the
preflight's URL fields and env-file loader (`Preflight`). The loader is meant to bind the first
value of each unbound key. It does not for a key named like one of its own local variables
(`file`, `line`, `key`, `value`), which always counts as set, nor for a key that starts with a
digit: an all-digit key is a positional parameter, and any other one is an invalid name whose
expansion fails and abandons the loader with every line behind it, and the preflight with it.
`Preflight.EnvReadsBack` has the exact condition. `Text` holds the ASCII part of the
string functions these programs use, `Names` the sorted walk over dictionary keys.

Assumptions: a network read delivers at least one byte or fails; text is ASCII (a `char` is
one byte); the outside world (registry readings, rendered stacks, request outcomes, file
contents) enters as arguments.

## Model

| member | source | states |
|---|---|---|
| AccountTheorems.Linearizable | scripts/bsystem-userctl:499-556 | for any clients, interleaving and aborts: the logged commands, run atomically in log order, may return exactly the verdicts the clients got and leave exactly the committed directory; each finished command is logged once, an aborted one never, and the order respects real time |
| AccountTheorems.AnAdminRemains | scripts/bsystem-userctl:528-542 | from a directory with an active administrator no run of the commands reaches a committed directory without one |
| AccountTheorems.RolesStaySingle | scripts/bsystem-userctl:516-519 | over all runs a user has at most one human group and never one beside BSYSTEM-Services, if so initially |
| AccountTheorems.RunKeepsPolicy | scripts/bsystem-userctl:592-629 | both policies also hold from any reachable state onwards, not only from the start |
| AccountTheorems.CommittedSetRole | scripts/bsystem-userctl:551-556 | a committed set-role leaves exactly the target human group, every non-human group, the active flag and all other users untouched |
| AccountTheorems.CommittedDisable | scripts/bsystem-userctl:612-629 | a committed disable leaves its user inactive, with the same groups, and every other user as it was |
| AccountTheorems.CommittedEnable | scripts/bsystem-userctl:669-671 | a committed enable leaves its user active, with the same groups, and every other user as it was |
| AccountTheorems.CommittedCreate | scripts/bsystem-userctl:345-359 | a committed create adds an active user that was absent, in the target group only, and leaves every other user as it was |
| AccountTheorems.EnableReads | scripts/bsystem-userctl:655-671 | an enable that writes nothing has found its user active at its read |
| AccountTheorems.NothingElseAccepts | scripts/bsystem-userctl:499-556 | no step but a commit and that read accepts a command |
| AccountTheorems.OnlyCommitsChange | scripts/bsystem-userctl:499-556 | no step but a commit changes the committed directory |
| AccountTheorems.AbortAnytime | scripts/bsystem-userctl:499-505 | a running command may abort at any step; that changes neither the committed directory nor the serial order, and gives back every lock |
| AccountTheorems.FinishedComesFirst | scripts/bsystem-userctl:499-556 | if at some moment of a run one command has finished and another has not started, then from then on the first comes before the second in the serial order |
| AccountTheorems.EveryRunDrains | scripts/bsystem-userctl:500-507 | a run has at most (commands) * (user names + 20) actions, aborts included, and one that can only continue by aborting has finished every command |
| AccountProgress.WaitingClimbs | scripts/bsystem-userctl:500-507 | a client only waits for a client further up the lock order |
| AccountProgress.NoDeadlockCycle | scripts/bsystem-userctl:529-536 | no chain of waiting clients closes on itself |
| AccountProgress.SomeoneMoves | scripts/bsystem-userctl:593-597 | in every reachable state with an unfinished client some client can step without an abort |
| AccountProgress.StepUsesUp | scripts/bsystem-userctl:613-620 | every action strictly lowers the remaining-work measure, including the row-by-row locking of the administrators |
| AccountInvariant.CommitIsAtomic | scripts/bsystem-userctl:545-556 | at a commit the specification accepts the command in the directory committed at that moment, and the buffered writes equal its atomic effect |
| AccountInvariant.ScanKeepsHistory | scripts/bsystem-userctl:528-542 | a last-administrator refusal is a legal verdict at the place of its count statement, whatever was enabled since |
| AccountInvariant.InsertRefusal | scripts/bsystem-userctl:538-542 | a refusal inserted in the middle of a legal serial history keeps it legal and changes no later directory |
| AccountInvariant.GroupLockProtects | scripts/bsystem-userctl:612-619 | while a client holds the administrator group row no other client's step loses an active administrator or changes its locked user |
| AccountInvariant.StepKeepsOthersData | scripts/bsystem-userctl:499-542 | what a client has read and relies on survives every step of every other client |
| AccountInvariant.StepKeepsInv | scripts/bsystem-userctl:592-629 | every action keeps the lock table, each client's knowledge and the serial history consistent |
| AccountHistory.StepKeepsOutcomes | scripts/bsystem-userctl:655-671 | each decided command has exactly one logged event, with its own verdict |
| AccountHistory.StepKeepsOrder | scripts/bsystem-userctl:499-556 | a command that finished before another started stays before it in the serial order, even when a refusal is inserted in the past |
| Accounts.AtomicKeepsAnAdmin | scripts/bsystem-userctl:528-542 | no verdict the specification permits removes the last active administrator |
| Accounts.AtomicKeepsSingleRoles | scripts/bsystem-userctl:345-359 | the atomic commands keep every user on a single role |
| Accounts.VerdictIsDecided | scripts/bsystem-userctl:499-542 | exactly one verdict is permitted, that of the first check that fails or acceptance; only a create of an existing user with a missing group may be refused for either reason |
| Accounts.AtomicEffect | scripts/bsystem-userctl:551-556 | an accepted command changes exactly its user: set-role to the target and the groups that are no roles, disable and enable only its active flag, create to a new active user of the target group; a refused one changes nothing |
| Accounts.GuardIsExact | scripts/bsystem-userctl:528-542 | the guard refuses exactly to disable the one active administrator or to give it another role |
| Accounts.NormalizeRoleIsExact | scripts/bsystem-userctl:69-98 | a role name resolves to a group exactly when it is one of its aliases in any letter case, and only to human groups |
| Accounts.RoleNames | scripts/bsystem-userctl:69-98 | the names of the seven roles, in any letter case, each way |
| NatsWire.FramesReadBack | e2e/natswire.go:110-155 | any list of PING, MSG (with or without reply-to) and other frames is read back as exactly its messages and PONGs, and reading goes on at the next frame boundary |
| NatsWire.ConversationReadsBack | e2e/natswire.go:110-136 | a complete conversation gives one PONG per PING and its messages in order, nothing else |
| NatsWire.TruncationGivesPrefix | e2e/natswire.go:110-155 | a truncated stream yields a prefix of the full stream's events |
| NatsWire.LineIsTaken | e2e/natswire.go:117-122 | a PING in any letter case is answered if the answer can be written and otherwise ends the loop; a line that is neither PING nor MSG is skipped |
| NatsWire.BadHeaderStops | e2e/natswire.go:140-148 | a MSG line of fewer than four words, or whose last word is no size, ends the loop |
| NatsWire.CutOffPayloadStops | e2e/natswire.go:149-153 | a payload that ends before its CRLF is not delivered, and ends the loop |
| NatsWire.HeaderReadsBack | e2e/natswire.go:140-151 | a printed MSG header, with or without reply-to, is recognized and parsed to its subject and size, or makes the loop panic, exactly if the size and its CRLF exceed the longest slice |
| NatsWire.OversizedPayloadPanics | e2e/natswire.go:149-151 | the whole loop ends in a panic at such a header, whatever follows, and at no other |
| NatsWire.HandshakeBoundary | e2e/natswire.go:74-88 | the handshake ends exactly behind the PONG if and only if no earlier line reads pong in any letter case or has -ERR as its first four bytes |
| NatsWire.HandshakeOutcome | e2e/natswire.go:74-88 | behind quiet lines, a PONG in any letter case ends the handshake there and a line that starts with -ERR rejects it, whatever follows |
| NatsWire.RejectionIsReported | e2e/natswire.go:50-87 | a greeted session whose first line that is not quiet starts with -ERR is rejected |
| NatsWire.SubscribedExactly | e2e/natswire.go:50-95 | the handshake succeeds if and only if its three commands can be written and the stream is an INFO line, lines that neither read pong nor start with -ERR, a PONG line, and the rest it leaves |
| NatsWire.EarlyFramesAreLost | e2e/natswire.go:72-95 | frames sent before the PONG, messages included, are lost: the subscriber gets exactly the later frames, if and only if no line of an early frame or of its payload reads PONG or starts with -ERR |
| NatsWire.SessionReadsBack | e2e/natswire.go:50-95 | greeting, handshake and read loop together deliver exactly the frames behind the PONG |
| NatsWire.EarlyMessageDesynchronizes | e2e/natswire.go:74-88 | a message before the PONG with a payload line PONG makes the loop start inside that frame |
| NatsReader.Reader.ReadString | e2e/natswire.go:113-116 | the next line of the unread bytes however they arrive, or everything left when no newline comes |
| NatsReader.Reader.Read | e2e/natswire.go:160-161 | a read delivers a non-empty prefix of the unread bytes to the given place, or fails at the end |
| NatsReader.ReadFull | e2e/natswire.go:157-167 | fills the buffer with exactly the next bytes whatever the read sizes, or reports how many there were; it terminates |
| NatsReader.ReadMessage | e2e/natswire.go:140-155 | yields subject and payload and consumes the CRLF exactly when the header parses, the size fits a slice and the payload is complete; panics exactly when the size does not fit |
| NatsSubscriber.Subscriber.Subscribe | e2e/natswire.go:50-95 | succeeds exactly when the byte-level handshake does, then behind an INFO line, quiet lines and a PONG, and leaves exactly its rest unread |
| NatsSubscriber.Subscriber.ReadLoop | e2e/natswire.go:110-136 | with the consumer running in between: parses exactly the messages, sends exactly the PONGs and panics exactly where the concatenated bytes say so, then closes the channel |
| NatsSubscriber.Subscriber.Deliver | e2e/natswire.go:128-133 | a full buffer drops the message, otherwise it is appended |
| NatsSubscriber.Subscriber.Next | e2e/natswire.go:170-180 | returns the oldest buffered message, a timeout, or the closed connection once the buffer is empty |
| NatsBuffer.NothingElseIsLost | e2e/natswire.go:124-133 | in any interleaving what was returned and what is buffered is an in-order subsequence of what was parsed, at most 64 wait, a message is missing exactly if 64 were waiting when it was parsed, and a receive takes the oldest one waiting |
| FaultQueues.Faults.Add | mocks/internal/mockhttp/mockhttp.go:54-75 | rejects exactly the invalid faults; an accepted one appends Remaining single faults to its normalized path's FIFO |
| FaultQueues.Faults.Take | mocks/internal/mockhttp/mockhttp.go:98-117 | pops one single fault from the path's own FIFO, otherwise from the catch-all FIFO, otherwise none |
| FaultQueues.Faults.Reset | mocks/internal/mockhttp/mockhttp.go:78-82 | empties every FIFO |
| FaultQueues.Faults.InjectFaults | mocks/internal/mockhttp/mockhttp.go:185-218 | a request under /__mock/ or to /health gets the real response and consumes nothing; any other one consumes the first of its own faults, or else of the catch-all ones, and its delay, status, body and Retry-After are what the client sees |
| FaultQueues.Faults.Pending | mocks/internal/mockhttp/mockhttp.go:85-94 | whatever order the map is walked in: every queued fault, ordered by path, each path in FIFO order |
| FaultQueues.TakeAt | mocks/internal/mockhttp/mockhttp.go:102-114 | decrementing the head run or dropping it is popping one single fault, and keeps every stored fault valid |
| PathOrder.ListingIsUnique | mocks/internal/mockhttp/mockhttp.go:85-94 | there is only one such list |
| FaultPlan.FaultsAreConserved | mocks/internal/mockhttp/mockhttp.go:71-117 | over any history between resets: faulted requests plus waiting faults equal accepted faults plus those waiting before |
| FaultPlan.RequestIsExact | mocks/internal/mockhttp/mockhttp.go:98-117 | which fault a request to a path is served and what is left of the queues |
| FaultPlan.AddIsExact | mocks/internal/mockhttp/mockhttp.go:54-75 | which faults are accepted, for which path, and how many repetitions are queued |
| FaultPlan.RequestsDrainInOrder | mocks/internal/mockhttp/mockhttp.go:98-117 | n uninterrupted requests to a path see its own faults in order, then the catch-all ones, then only real responses; those under /__mock/ or to /health see none |
| LoadTest.WaitReturns | loadtest/main.go:111-134 | in any interleaving: each index is drawn by exactly one worker and its slot written exactly once, the counter ends at total + concurrency, and the errors are the failed requests |
| LoadTest.SlotsAreDisjoint | loadtest/main.go:121-130 | two workers are never at the same slot |
| LoadTest.EveryRunEnds | loadtest/main.go:120-134 | no run has more than 4 * total + concurrency steps, and one that cannot go on has brought every worker to its exit |
| Percentiles.PercentileRank | loadtest/main.go:167-176 | the p-th percentile is the one value with at least floor(pn/100)+1 samples at or below it and n-floor(pn/100) at or above it |
| Percentiles.ReportIgnoresOrder | loadtest/main.go:136-144 | the report depends only on the multiset of durations |
| Percentiles.ReportIsOrdered | loadtest/main.go:137-144 | P50 <= P90 <= P99 <= Max, and Max is the largest duration |
| Percentiles.SortedListsAgree | loadtest/main.go:136 | a multiset of durations has one sorted slice, whatever the sorting algorithm |
| Percentiles.ReportIsExact | loadtest/main.go:136-144 | a report describes the durations (total, errors, the three ranks, the largest) if and only if it is the one the program computes |
| Percentiles.FinishRun | loadtest/main.go:136-144 | leaves the slice sorted with the same durations, and reports the percentiles by their rank, the largest duration and the counts, with P50 <= P90 <= P99 <= Max |
| LoadReport.RunsAgree | loadtest/main.go:106-145 | two runs whose requests turn out the same up to order return the same report, errors included, for any interleavings and numbers of workers |
| LoadReport.OnlySuccessesAreRanked | loadtest/main.go:88-96 | the ranked durations are those of the successful requests if and only if the run had no errors |
| LoadReport.SlowFailureIsTheMax | loadtest/main.go:124-129 | a run of one fast success and one slow failure reports the failure's duration as its Max |
| Paging.Page | mocks/internal/mockhttp/mockhttp.go:265-283 | an offset below 0 counts as 0 and one beyond the total as the total, a limit that is not positive as the default and one beyond the maximum as the maximum; the window lies within the items and is non-empty before the end, for positive limits |
| Paging.Walk | mocks/internal/mockhttp/mockhttp.go:265-283 | walking from each returned end gives every item once, in order, in ceil(items / limit) pages of which only the last may be short |
| Paging.FilterIssues | mocks/cmd/mock-redmine/main.go:92-97 | exactly the matching issues, in their order |
| Paging.MatchingKeepsOrder | mocks/cmd/mock-redmine/main.go:92-97 | the filtered list holds the issues at exactly the matching places, in ascending order |
| Paging.StatusFilter | mocks/cmd/mock-redmine/main.go:73-84 | no filter and * select every issue, open and closed the two buckets, any other text the issues whose status id it spells |
| Paging.StatusById | mocks/cmd/mock-redmine/main.go:82 | a number selects exactly the issues of that status |
| Paging.ProjectById | mocks/cmd/mock-redmine/main.go:56-69 | a number selects the issues of that project and of one with that identifier |
| Paging.ProjectByIdentifier | mocks/cmd/mock-redmine/main.go:56-69 | any other text selects the issues of the projects with that identifier, no text all |
| Paging.WalkIssues | mocks/cmd/mock-redmine/main.go:86-106 | the pages of any filter and limit, 25 by default and 100 at most, concatenate to the filtered list |
| Paging.OpenAndClosedPartition | mocks/cmd/mock-redmine/main.go:73-84 | open and closed results split the unfiltered one: disjoint, and merged in order they give it back |
| Hardening.Check | scripts/check-hardening.py:170-211 | reports every finding of every stack, in their order; status 0 exactly if every stack has a service, every service meets all predicates, and a bind mount was seen |
| Hardening.Inspect | scripts/check-hardening.py:81-167 | reports the broken rules of each service, the services in ascending order, or that there is no service; nothing exactly if the stack is good |
| Hardening.CheckService | scripts/check-hardening.py:94-165 | reports the privilege, capability (both ways), secret, read-only, volume and port rules the service breaks, in the order of the rules and of what is listed; nothing exactly if it meets them all |
| Hardening.ReportedIsBroken | scripts/check-hardening.py:94-165 | a problem is reported about a service if and only if the rule it names is broken |
| Hardening.OkBreaksNothing | scripts/check-hardening.py:94-165 | a service passes if and only if it breaks none of the rules, each stated in its own terms |
| Hardening.ReportedInOrder | scripts/check-hardening.py:94-165 | the problems of a service are reported rule by rule |
| Hardening.ReportAscends | scripts/check-hardening.py:92-93 | a stack is reported in ascending order of its services |
| Hardening.FullReportIsExact | scripts/check-hardening.py:184-196 | a finding is printed if and only if one of the stacks is empty, or has that service and it breaks that rule |
| Hardening.VerdictIgnoresOrder | scripts/check-hardening.py:184-211 | the verdict does not depend on the order of stacks, services, mounts, ports or options |
| ImageDigests.Record | scripts/image-digests.py:39-66 | writes a manifest exactly when there is a pair and every pair resolves; otherwise lists each bad pair |
| ImageDigests.PairSplits | scripts/image-digests.py:43-47 | name=tag is split at its first "=" and resolves exactly if the tag has an image |
| ImageDigests.PairFindingsFrom | scripts/image-digests.py:42-50 | recording reports exactly the texts that are no pairs and the tags without an image |
| ImageDigests.ImagesAreTheLast | scripts/image-digests.py:42-51 | the manifest holds each name with the image of its last pair |
| ImageDigests.Verify | scripts/image-digests.py:69-104 | passes exactly when something is recorded and every name keeps its identity; otherwise lists the missing and changed names in ascending order |
| ImageDigests.NameFindingsFrom | scripts/image-digests.py:82-95 | a name is reported missing exactly if it has no image now, and changed exactly if it has another one |
| ImageDigests.NameFindingsAscend | scripts/image-digests.py:82-95 | at most one finding for each name, in ascending order |
| ImageDigests.RecordThenVerify | scripts/image-digests.py:39-104 | a manifest recorded now passes later exactly if no recorded tag lost or changed its image |
| Preflight.UrlReadsBack | scripts/stage-preflight.sh:127-141 | scheme, host name and port (or the scheme's default) are recovered from any composed URL without line breaks before its path, whatever its user info, path and query, also through command substitution |
| Preflight.LoadEnv | scripts/stage-preflight.sh:42-70 | the loop computes the meaning of the file line by line, up to a key at which the shell abandons it, and never changes an existing variable |
| Preflight.LineReadsBack | scripts/stage-preflight.sh:47-64 | a line, its value bare or in either quotes, its key exported or not and with white space around it, assigns exactly that value to that key; comments, lines without "=" and lines whose key is no name assign nothing |
| Preflight.EnvOutcome | scripts/stage-preflight.sh:43-68 | for any file of such lines in any mix: up to the first key the shell cannot read, every unbound key that is a variable and no local of the loader gets its first value, and nothing else changes |
| Preflight.EnvReadsBack | scripts/stage-preflight.sh:54-68 | such a file extends the environment by exactly the first value of each unbound key if and only if every key not bound before starts with no digit and is not file, line, key or value |
| Preflight.LastNewlineIsOptional | scripts/stage-preflight.sh:45 | a file means the same with and without a newline at its end |
| Preflight.LocalNamesAreLost | scripts/stage-preflight.sh:43-65 | a line value="x" binds nothing |
| Preflight.DigitsStopTheLoader | scripts/stage-preflight.sh:57-65 | a line 1A=x also loses the line B=y behind it |
| Text.LeIsTheOrder | mocks/internal/mockhttp/mockhttp.go:92 | a string comes before another if it is a prefix of it, or has the smaller character where they first differ |
| Text.EqualFoldIsLetterwise | e2e/natswire.go:81 | two strings are equal in any letter case exactly if they agree letter by letter up to capitals |
| Text.TrimSpaceAround | e2e/natswire.go:80 | trimming takes away the white space around a text and nothing else |
| Text.AtoiOfItoa | e2e/natswire.go:145 | every number an int can hold is read back, with any sign, and no larger one |

## Left out

- `cmd_passwd`: it reads the user without a lock and saves the whole row from that snapshot, so it is outside the lock protocol; direct authentik edits and Integration Core's own mutations are outside too.
- Locks that PostgreSQL takes by itself for foreign keys when a membership row is inserted, and the membership rows a joined FOR UPDATE locks: only the row locks the script asks for, the row lock of an UPDATE and the unique user name are modelled.
- Account commands are modelled on values, as a state machine, because they interleave; update in place of one Django object is not captured.
- Password handling, container discovery, psql, prompts and the `list` and `show` commands.
- Sockets, deadlines, dialing, HTTP routing, JSON, logging, timers and health checks: a delay is an event, a request is its path, and a failed write is the end of a budget of writes.
- NatsWire.Events: the longest slice is that of a 64-bit platform (2^48 bytes); running out of memory below it is not modelled.
- White space and letter case outside ASCII.
- Percentiles.FinishRun: `sort.Slice` is a library call and is modelled by its result, not by its algorithm; the same goes for the stable sort in FaultQueues.Faults.Pending and Python's `sorted`.
- Preflight.LoadEnv: an all-digit key is skipped whatever its value; at numbers of 2^63 and more, bash may abandon the loader instead, depending on its version. Assigning a variable that bash itself gives a meaning is only a binding.
- Preflight.LineReadsBack: a key with white space inside it, which the loader joins into one name, is not among its lines; `Preflight.LoadEnv` covers it.
- Paging.FilterIssues: the filters arrive trimmed and the limit as an int; reading the query string is not part of it.
- Hardening.Check: a finding is the service and the rule it breaks; the text of the message and the name of the stack in it are not modelled.
- YAML, `docker compose config` and file access in the scripts: the parsed tree, the tag-to-identity map and the file's text are arguments.
- The other linters, the identity directory, the remaining mocks, the lifecycle helpers and the end-to-end scenarios: they would only add easy members, or assert on code that is not in this repository.
