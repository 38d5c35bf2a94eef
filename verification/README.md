# Minecraft server runner and offline-UUID statistics migration, modelled in Dafny

This project models two small TypeScript programs and proves properties of the model. Both belong to a self-hosted Minecraft (NeoForge) server.

- `run.ts` is the server runner.
  - At start-up it checks that the directory it runs in (the server root, which holds the `world/` directory) is a git working tree with an `origin` remote and an upstream branch. If not, it exits with code 1.
  - It then spawns the server and latches a "server ready" flag when the server prints its start-up banner.
  - It passes console lines through to the server.
  - It backs the world up into git on a timer and on the console command `backup`. A backup is `git add -A`, `git commit -m <timestamp>` and `git push`, wrapped in notices to the players and a `save-all flush`.
- `index.ts` is a one-shot script.
  - It renames every player statistics file `<online uuid>.json` to `<offline uuid>.json`.
  - The offline UUID is Java's `UUID.nameUUIDFromBytes("OfflinePlayer:" + name)`. That is the MD5 digest with the version nibble forced to 3 and the variant bits forced to `10`, following sections 4.1.1, 4.1.3 and 4.3 of RFC 4122. It is printed as lower-case hex in 8-4-4-4-12 groups.
  - When a file with the target name already exists with the same size, the source file is deleted instead of renamed.

Modules, one per concern:

| file | module | what |
|---|---|---|
| `options.dfy` | `Options` | the `Option` datatype used for error paths |
| `js_strings.dfy` | `JsStrings` | the JavaScript string built-ins both programs use: `trim`, `endsWith`, `split(sep)[0]`, `replaceAll(c, "")` |
| `offline_uuid.dfy` | `OfflineUuid` | the digest mask, `Buffer.toString("hex")`, the dashed rendering, its decoder, `offlineUUID` |
| `stats_migration.dfy` | `StatsMigration` | the rename/delete loop over the statistics directory |
| `runner.dfy` | `Runner` | the runner's flags as the fields of a class, `backup()`, the stdout latch, the console dispatcher, `main` |

How the outside world is represented:

- The runner records everything it does to the outside world in an effect log. The log holds lines written to the server's stdin, git invocations and the process exit.
- Git's outcome per command, the preflight checks' outcomes, the commit timestamp and the start-up banner pattern are inputs.
- The statistics directory is a map from file name to file contents, and a file's size is the length of its contents.
- The profile lookup and MD5 are functions passed in.

## Model

| member | source | states |
|---|---|---|
| JsStrings.TrimStart | run.ts:175 | the result is a suffix of the input, everything dropped is whitespace, and it does not start with whitespace |
| JsStrings.TrimEnd | run.ts:175 | the result is a prefix of the input, everything dropped is whitespace, and it does not end with whitespace |
| JsStrings.Trim | run.ts:175 | the trimmed line is a contiguous piece of the input with only whitespace cut off on either side, and neither of its ends is whitespace |
| JsStrings.TrimOfPadded | run.ts:175 | any text without whitespace at its ends, padded with whitespace on both sides, trims back to exactly that text |
| JsStrings.TrimOfTrimmed | run.ts:175 | text without whitespace at either end is left unchanged by `trim` |
| JsStrings.TrimIdempotent | run.ts:175 | trimming twice is trimming once |
| JsStrings.EndsWith | index.ts:12 | `endsWith` holds only when the name is some prefix followed by the suffix |
| JsStrings.EndsWithAppend | index.ts:12 | anything followed by the suffix ends with it |
| JsStrings.BeforeFirst | index.ts:13 | `split(".")[0]` is the longest prefix of the name free of `.`, and when shorter than the name it stops right before a `.` |
| JsStrings.BeforeFirstAppend | index.ts:13 | `split(sep)[0]` of a separator-free text followed by a separator and anything is exactly that text |
| JsStrings.RemoveAll | index.ts:15 | `replaceAll("-", "")` leaves no `-` and keeps every other character |
| JsStrings.RemoveAllAppend | index.ts:15 | removing a character distributes over concatenation |
| JsStrings.RemoveAllAbsent | index.ts:15 | removing a character that does not occur changes nothing |
| OfflineUuid.Masked | index.ts:46-47 | the masked digest has version 3 and the RFC 4122 variant; bytes other than 6 and 8, the low nibble of byte 6 and the low six bits of byte 8 are kept |
| OfflineUuid.MaskedCharacterised | index.ts:46-47 | a digest equals the mask of `d` if and only if it has version 3, the RFC 4122 variant, and agrees with `d` on every bit the mask keeps |
| OfflineUuid.MaskedIdempotent | index.ts:46-47 | masking an already masked digest changes nothing |
| OfflineUuid.Hex | index.ts:50 | `toString("hex")` gives two characters per byte; `HexAt` places them |
| OfflineUuid.HexAt | index.ts:50 | byte `i` is rendered as the lower-case hex digits of its high and low nibble at positions `2i` and `2i+1` |
| OfflineUuid.UnhexHex | index.ts:50 | decoding the hex rendering gives back the bytes |
| OfflineUuid.HexUnhex | index.ts:50 | every string the decoder accepts is the hex rendering of what it decodes to |
| OfflineUuid.HexIsLowerHex | index.ts:50 | the hex rendering consists of lower-case hex digits only |
| OfflineUuid.Format | index.ts:50-57 | the rendering is 36 characters, `-` at 8, 13, 18, 23 and lower-case hex elsewhere, with the 32 hex digits in order around the dashes |
| OfflineUuid.FormatWithoutDashes | index.ts:50-57 | removing the dashes gives exactly the 32-digit hex rendering of the digest |
| OfflineUuid.ParseFormat | index.ts:50-57 | the dashed rendering parses back to the digest |
| OfflineUuid.FormatParse | index.ts:50-57 | every text the parser accepts is the rendering of what it parses to |
| OfflineUuid.FormatParseIff | index.ts:50-57 | rendering and parsing are inverse to each other, in both directions |
| OfflineUuid.VariantDigit | index.ts:47 | a byte whose top bits are `10` has `8`, `9`, `a` or `b` as its first hex digit |
| OfflineUuid.OfflineUuidOf | index.ts:38-58 | the offline UUID is a well-formed UUID text with `3` at index 14 and `8`/`9`/`a`/`b` at index 19; it parses to the masked MD5 of `"OfflinePlayer:" + name`, and removing its dashes gives that digest's hex |
| StatsMigration.LookupId | index.ts:13-15 | the lookup key holds neither `.` nor `-`, and its characters are exactly the non-dash characters before the first `.` |
| StatsMigration.LookupOfUuidFile | index.ts:13-15 | a file named `<dashed uuid>.json` is looked up by exactly the 32 hex digits of that UUID, in order |
| StatsMigration.TargetName | index.ts:17 | the target is a 36-character UUID text followed by `.json`, and that text is the rendering of the masked MD5 of `"OfflinePlayer:"` plus the name the lookup returned |
| StatsMigration.IsDuplicate | index.ts:18-19 | a duplicate needs both files to exist; a file compared with itself is always a duplicate |
| StatsMigration.Step | index.ts:12-27 | a name not ending in `.json` changes nothing; a missing source ends the script; an equal-size target leaves the target and deletes the source; otherwise the source's contents move to the target name and the source name is gone; no other file changes |
| StatsMigration.Migrate | index.ts:11-30 | the fold of `Step` over the listing; a listing without a `.json` name completes and changes nothing |
| StatsMigration.MigrateStats | index.ts:11-30 | the loop over the listing, with its `continue` and its early end, computes the same directory and completion as one `Step` per entry in listing order |
| StatsMigration.NonJsonUntouched | index.ts:12 | a file whose name does not end in `.json` is present, absent or unchanged exactly as before the run |
| StatsMigration.NothingInvented | index.ts:18-27 | every file left after the run holds contents some file held before |
| StatsMigration.NeverGrows | index.ts:18-27 | the run never increases the number of files |
| StatsMigration.EqualSizeDeletesDifferentContents | index.ts:18-22 | duplicates are recognised by size alone: a source whose contents differ from the target's but whose size is equal is deleted |
| StatsMigration.ConflictOverwritesTarget | index.ts:23-27 | after a size conflict is reported the rename still happens, and the target's previous contents are lost |
| StatsMigration.SelfNamedFileDeleted | index.ts:18-22 | a file already named as its target counts as its own duplicate and is deleted |
| Runner.TransmittedAppend | run.ts:180 | the text of two batches of writes is the first batch's text followed by the second's |
| Runner.ForwardedText | run.ts:175-180 | forwarding a console line adds exactly its trimmed text and a newline to what the server reads |
| Runner.CheckGitInitialized | run.ts:71-82 | the preflight passes if and only if all three git checks pass |
| Runner.GitRun | run.ts:54-69 | the commands that run form the plan up to and including the first failing one, or the whole plan when none fails |
| Runner.GitPlan | run.ts:108-113 | three steps: `add -A` first, `commit` with the timestamp as message second, `push` last |
| Runner.PlanRun | run.ts:108-113 | `add -A` runs first; `commit` only after it succeeded; `push` only after both succeeded; the backup succeeds if and only if all three do |
| Runner.PlanEffects | run.ts:108-113 | the log of the git steps holds exactly the commands that ran, in order |
| Runner.Admitted | run.ts:88-99 | each of the three guards alone turns the backup away: server not ready, git not ready, a backup in progress; with none of them it proceeds |
| Runner.BackupEffects | run.ts:87-99 | `backup()` does nothing at all unless the server is ready, git is ready and no backup is in progress, and does something whenever all three hold |
| Runner.BackupTranscript | run.ts:101-126 | an admitted backup writes the start notice and `save-all flush` before any git command, then runs exactly the git steps up to the first failure, and writes the outcome notice last, after every git command; it never exits the process |
| Runner.BackupOutcome | run.ts:108-123 | the completion notice is sent if and only if all three git steps succeed; a failing `add -A` or `commit` stops the steps after it |
| Runner.Dispatch | run.ts:174-181 | a console line runs a backup if and only if its trim is `backup`; otherwise the trimmed line plus a newline is forwarded, and it is never the `backup` command |
| Runner.PaddedBackupRuns | run.ts:175-176 | `backup` surrounded by whitespace still runs a backup |
| Runner.BackupRunner.constructor | run.ts:23-26 | nothing started, no flag set, nothing done |
| Runner.BackupRunner.WriteToServer | run.ts:180 | a write reaches the server only when the server process exists |
| Runner.BackupRunner.RunGit | run.ts:54-69 | one git step is logged and reports its outcome; it may only run while the backup flag is held |
| Runner.BackupRunner.RunGitSteps | run.ts:108-113 | the log grows by exactly the git steps of the plan up to the first failure, and the result says whether all succeeded |
| Runner.BackupRunner.Backup | run.ts:87-127 | the log grows by exactly `BackupEffects` of the flags on entry; the in-progress flag is back to its value on entry on every path, and the other flags are unchanged |
| Runner.BackupRunner.OnServerOutput | run.ts:139-146 | the ready flag becomes true on a chunk matching the banner and is never cleared |
| Runner.BackupRunner.OnConsoleLine | run.ts:174-181 | a `backup` line has exactly the effects of `backup()` with no backup in progress; any other line is written to the server as its trimmed text plus a newline, if the server exists; no flag changes, and the state between events is kept |
| Runner.BackupRunner.OnTimer | run.ts:202 | a timer tick has exactly the effects of `backup()` with no backup in progress, and keeps the state between events |
| Runner.BackupRunner.Start | run.ts:189-204 | `gitReady` is the preflight's verdict; a failing preflight exits with code 1 without starting the server; otherwise the server is started and the first backup, triggered before any banner can arrive, does nothing |

Behaviours of the source that the model reproduces and the contracts above make explicit:

- `backup()` contains no `await`, so it runs to completion once started. The state between two events (`BackupRunner.Valid`) therefore has `backupInProgress` false. Every event handler (`OnServerOutput`, `OnConsoleLine`, `OnTimer`, `Start`) requires that state and restores it. So the `backupInProgress` guard never sees `true` when a backup is triggered: `OnConsoleLine` and `OnTimer` state their effects as `BackupEffects` with `false` for the flag. `Backup` itself keeps the guard as written and only requires that a ready server has been spawned.
- The backup that `main` triggers at once always skips, because no banner can have arrived yet (`Start`).
- A file of equal size is deleted even when its contents differ (`EqualSizeDeletesDifferentContents`).
- After the conflict warning the target is overwritten (`ConflictOverwritesTarget`).

## Left out

- Spawning the server, echoing its stdout and stderr, `process.exit` when the server exits, and the SIGINT/SIGTERM handlers that write `stop` (run.ts:132-163) are operating-system plumbing. The server exists in the model only as the recipient of written lines, which is the `serverStarted` field.
- `execFileSync`/`execSync` (run.ts:54-82) are foreign calls. Each git step and each preflight check is an input that says whether it succeeds.
- The output of git and everything `log`, `warn`, `err` and `console.*` print are console output and are not modelled.
- `jaTimestamp` (run.ts:41-51) is locale formatting through `Intl.DateTimeFormat`. The commit message is an opaque string parameter.
- The `READY_REGEX` engine (run.ts:17-18) is a regular-expression library. A match is a predicate parameter on a stdout chunk, and chunks are not split into lines, as in the source.
- `setInterval` and `readline` (run.ts:169-172, run.ts:202) are timers and I/O. Every timer tick and every console line is one call of `OnTimer` or `OnConsoleLine`, and since `backup()` never yields, the calls are sequential.
- The profile lookup through `fetch` (index.ts:15) is a network call and is a function parameter. A failing request, which ends the script, is not modelled. A response without `name` makes the script use the offline UUID of `"OfflinePlayer:undefined"`; the model covers that case, as a lookup that returns `"undefined"`.
- MD5 and the UTF-8 encoding of its input (index.ts:43) are a hashing library. The digest is a function parameter.
- The existence check of the statistics directory (index.ts:8-10) only prints a message and does not stop the script. The model starts from the directory and the listing, which `readdir` provides.
- Path joining (index.ts:17, 19-20, 27) is not modelled. Names are compared as the bare file names within the one directory.
- Strings are sequences of Unicode scalar values, while JavaScript strings are sequences of UTF-16 code units, so a lone surrogate cannot occur in the model. This changes no result here: every character `trim` removes lies in the Basic Multilingual Plane, and the separators `.` and `-` are ASCII.
