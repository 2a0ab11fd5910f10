# rsync-web: job bookkeeping and command assembly, modelled in Dafny

rsync-web is a small web front end for rsync. A Go server runs rsync jobs on request. A browser client builds the command, watches a job's output live, and can cancel, reuse or delete past jobs. This project models the bookkeeping around the rsync process. The process, the database, HTTP and the page are left out.

- **Per-job live state and fan-out** (`jobs.dfy`, module `Jobs`).
  - A `Job` is a class with an output log, a status, a cancel flag and a set of subscriber channels.
  - A subscriber channel is a `Channel` object: a bounded buffer of 100 items with a closed flag.
  - `AddOutput` and `Finish` offer an item to every channel without blocking. A full channel silently drops the item.
- **Job registry** (`registry.dfy`, module `Registry`).
  - `JobManager` keeps a map from history id to live job.
  - Its operations are `Get`, `Cancel` and `RunningCount`, and the overlay of live statuses on the history list that `HandleHistory` applies.
  - `RunJob` is modelled in phases: register, start error or output lines, classify, finish, save. Its status decision is `Classify`: cancellation beats a nonzero exit code, which beats success.
- **Websocket observer** (`observer.dfy`, module `Observer`). The ordered list of `output`/`done` messages an observer receives is a function of what the handler sees:
  - the stored record, when the job is not live;
  - otherwise the snapshot of the output and status, then the items the channel yields.
- **Run scenarios** (`scenarios.dfy`). Jobs, registry and observer are composed into one observed run: every line is seen once, in order, followed by `done`. A second scenario shows an observer whose channel overflows and never sees `done`.
- **Command assembly on the server** (`command.dfy`). `HandleRun` builds rsync's argument vector and the stored `rsync …` command line.
- **SSH config parsing** (`sshconfig.dfy`).
  - The scan loop of `parseSSHConfig` is a method over the lines of the file.
  - It is proved equal to a block-by-block reference definition, `ConfigHosts`.
- **Browser client** (`client.dfy`, `reuse.dfy`, `hostpicker.dfy`), with the form fields as plain values:
  - `getSelectedOptions`, `validateCommand`, `updateCommandPreview`, `reuseCommand`, and `applySSHHost`.
  - A reused job's options round-trip: reusing a job and reading the options out again gives them back.
  - The exception is a filled-in timeout field: it comes back twice.
- **String primitives** (`text.dfy`). The Go and JavaScript library calls the code relies on: `TrimSpace`/`trim`, `Fields`, `split(/\s+/)`, `Split`/`split`, `Join`/`join`, `ToLower`, `replace`.

Some behaviour of the code that the model keeps as written:

- `saveJob` always stores exit code 0, whatever the process returned (srv/handlers.go:496).
- The per-job output log is a slice that only grows; nothing bounds it (srv/handlers.go:534).
- A finished job stays in the registry until the five-minute timer removes it (srv/handlers.go:509-513). Until then `Cancel` on it succeeds.
- A slow observer keeps its subscription. It loses each item that finds its buffer full, the `"__DONE__"` sentinel included (srv/handlers.go:536-539, 548-551).
- `Cancel` closes the job's cancel channel, so cancelling the same job twice panics (srv/handlers.go:417).
- The server itself never sets the status `pending`. The in-memory job is `running` from the moment it is registered (srv/handlers.go:424).
- The observer stream and the job's output share one channel, and the end of a job is signalled by the item `"__DONE__"`. A process that prints the line `__DONE__` therefore ends the stream of every observer draining at that moment, with `done` and the status the job has then, normally "running" (srv/handlers.go:373-378).

## Model

| member | source | states |
|---|---|---|
| Jobs.Offer | srv/handlers.go:536-539 | a non-blocking send: the item is appended exactly when the buffer has room, and the buffer is unchanged exactly when it is full |
| Jobs.OfferAll | srv/handlers.go:535-539 | the buffer after each of a list of items is offered in turn |
| Jobs.OfferAllKeepsFirst | srv/handlers.go:535-539 | a buffer within capacity that nobody drains keeps the first items offered, up to its capacity, and drops the rest |
| Jobs.Channel.constructor | srv/handlers.go:519 | a new subscriber channel has the requested capacity, an empty buffer and is open |
| Jobs.Job.constructor | srv/handlers.go:422-427 | a new job has the given id, no output, status "running", no subscribers and no cancel request |
| Jobs.Job.Subscribe | srv/handlers.go:518-524 | adds exactly one fresh, open, empty channel of capacity 100; output, status and cancel flag unchanged; every subscriber stays open and within capacity |
| Jobs.Job.Unsubscribe | srv/handlers.go:526-530 | removes the channel from the set, a no-op when it is absent; output, status and cancel flag unchanged |
| Jobs.Job.AddOutput | srv/handlers.go:532-542 | the line is appended to the output; each subscriber gets the line if its buffer has room and is otherwise unchanged; status, subscriber set and cancel flag unchanged |
| Jobs.Job.Finish | srv/handlers.go:544-556 | status set; each prior subscriber is offered "__DONE__" (dropped when full) and closed; the subscriber set is empty; output unchanged; the exit code is ignored |
| Registry.ExitCode | srv/handlers.go:463-469 | the exit code is nonzero only when `Wait` returned an exit error, and then it is that error's code |
| Registry.Classify | srv/handlers.go:471-476 | "cancelled" exactly when cancelled; "failed" exactly when not cancelled and the code is nonzero; "completed" exactly when not cancelled and the code is zero; never "running" |
| Registry.Overlay | srv/handlers.go:203-209 | same number of rows; each row keeps every field but the status; the status is the live job's when the id is live, the stored one otherwise |
| Registry.JobManager.constructor | srv/server.go:24-28 | the registry starts empty |
| Registry.JobManager.Get | srv/handlers.go:402-406 | non-nil exactly when the id is registered, and then it is the registered job |
| Registry.JobManager.Cancel | srv/handlers.go:408-419 | an unknown id gives "job not found" and changes nothing; a known id has its cancel flag set, with its output, status and subscribers unchanged; the registry map is unchanged |
| Registry.JobManager.RunningCount | srv/handlers.go:388-400 | the count is the number of registered jobs whose status is "running", at most the number of jobs |
| Registry.JobManager.LiveStatuses | srv/handlers.go:203-208 | one entry per registered id, holding that job's current status |
| Registry.JobManager.OverlayHistory | srv/handlers.go:203-209 | the history array, overwritten in place, equals the overlay of the live statuses on the old rows |
| Registry.JobManager.Launch | srv/handlers.go:421-431 | registers a fresh running job under the id, replacing any previous one |
| Registry.JobManager.ReadOutput | srv/handlers.go:482-487 | every line read is appended to the output in order; each attached subscriber is offered each line in turn and stays open; status, subscriber set and cancel flag unchanged |
| Registry.JobManager.SaveJob | srv/handlers.go:489-506 | saves the job's id and status, exit code 0, and the output joined by "\n"; splitting the saved output at "\n" gives the lines back when there is at least one and none holds a newline |
| Registry.JobManager.FailStart | srv/handlers.go:452-456 | a start failure appends exactly one "Error starting rsync: …" line, finishes the job as "failed", closes all subscribers and saves |
| Registry.JobManager.Complete | srv/handlers.go:463-479 | after `Wait`, the status is the classification of the cancel flag and exit code; subscribers get the sentinel and are closed; output unchanged; saved with exit code 0 |
| Registry.JobManager.RunJob | srv/handlers.go:421-480 | a run to its end registers the job; its output is the start error line or exactly the process's lines; its status is "failed" or the classification, never "running"; what is saved matches the job |
| Registry.JobManager.Evict | srv/handlers.go:509-513 | removes exactly that id from the registry |
| Observer.StoredTranscript | srv/handlers.go:338-351 | a job that is not live gives at most one stored-output message (exactly when the record has output) and then exactly one `done` with the stored status, or the empty status when the lookup failed |
| Observer.Replay | srv/handlers.go:360-362 | one `output` message per stored line, in order |
| Observer.LiveTranscript | srv/handlers.go:355-383 | every line already in the output is replayed first, in order; a job that is not running then gets `done` with its status at once and the stream ends |
| Observer.Drain | srv/handlers.go:372-383 | the `range ch` loop: at most one message per item; every message but the last is an `output`; the stream has ended exactly when the channel was closed or the sentinel was among the items |
| Observer.DrainUpToSentinel | srv/handlers.go:372-379 | the items before the first "__DONE__" are forwarded in order, then `done` with the current status, and the stream ends |
| Observer.DrainWithoutSentinel | srv/handlers.go:372-383 | without "__DONE__" every item is forwarded, no `done` is sent, and the stream ends exactly when the channel was closed |
| Observer.LiveOutcome | srv/handlers.go:355-383 | for a running job: output replay, then the items, then `done` exactly when the sentinel arrived; a channel closed without it ends the stream with no `done` |
| Observer.DoneIsLast | srv/handlers.go:338-383 | whether the job is live or not, nothing follows a `done` message |
| Scenarios.WatchRun | srv/handlers.go:355-383 | when no output line is "__DONE__": an observer that subscribes while the job runs, with fewer than 100 lines after it, receives every line once, in order, then `done` with the classified status; the saved status is that classification, with exit code 0 |
| Scenarios.WatchOverflow | srv/handlers.go:532-556 | when no output line is "__DONE__": an observer that does not drain while 100 or more lines arrive keeps only the first 100; the sentinel is dropped, so the stream ends without `done` |
| Scenarios.WatchSentinelLine | srv/handlers.go:372-379 | an output line "__DONE__" ends the stream of an observer draining while the job runs: the lines before it, then `done` with status "running" |
| Command.Args | srv/handlers.go:234 | the arguments are the options in order, then the source, then the destination |
| Command.FullCommand | srv/handlers.go:235 | the command line is "rsync " followed by the arguments joined by single spaces |
| Command.PlanRun | srv/handlers.go:221-235 | refused with "rsync not available" exactly when no rsync binary was found; otherwise the arguments and the command line above |
| Command.FullCommandDeterminesArgs | srv/handlers.go:234-235 | when no argument holds a space, splitting the stored command line after "rsync " gives back the options, the source and the destination |
| Command.FullCommandInjective | srv/handlers.go:234-235 | two requests without spaces in their arguments give the same command line only if they are the same request |
| SshConfig.Words | srv/handlers.go:153-158 | a line that is blank or a comment has no words; the words of any other line are non-empty runs without white space |
| SshConfig.LineMeaning | srv/handlers.go:153-184 | a line is a directive only with at least two words; its key is matched ignoring ASCII case against host, hostname, user and port; its value holds the remaining words joined by single spaces |
| SshConfig.Directives | srv/handlers.go:152-185 | one directive per line, in order |
| SshConfig.SetField | srv/handlers.go:172-183 | a `hostname`, `user` or `port` line changes only that field and never the entry's name |
| SshConfig.LastHost | srv/handlers.go:167-171 | the last `Host` line, after which no line opens an entry |
| SshConfig.LastValue | srv/handlers.go:172-183 | the value of the last line of a block that sets the field, or "" when none does |
| SshConfig.EntryOf | srv/handlers.go:171-183 | the entry a `Host` line opens, with each field set to its last value in the block |
| SshConfig.ConfigHosts | srv/handlers.go:166-189 | the reference for the result, block by block: each `Host` line opens a block reaching to the next one, and each block with a name other than "" and "*" gives one entry, in file order |
| SshConfig.ParseSSHConfig | srv/handlers.go:149-191 | the scan loop's result equals the block-by-block reference `ConfigHosts` of the file's lines |
| SshConfig.ScanLine | srv/handlers.go:163-184 | one step of the key switch keeps the loop's state equal to the reference for the lines read so far |
| SshConfig.ClosedBlock | srv/handlers.go:167-171 | a `Host` line closes the open block, whose entry is listed when it is named, and opens an empty one |
| SshConfig.ExtendBlock | srv/handlers.go:172-184 | any other line keeps the open block and sets at most the one field it names |
| SshConfig.EntryOfSnoc | srv/handlers.go:172-183 | one more line in a block changes at most the field it sets |
| SshConfig.NoHostNames | srv/handlers.go:166-184 | lines without a `Host` line name no entry |
| SshConfig.OnlyNamedHosts | srv/handlers.go:168-189 | no listed host is named "" or "*" |
| SshConfig.HostsInFileOrder | srv/handlers.go:167-189 | the listed names are the named `Host` values, in file order |
| SshConfig.PreambleIgnored | srv/handlers.go:172-183 | `hostname`, `user`, `port` and other lines before the first `Host` line change nothing |
| SshConfig.LaterValueWins | srv/handlers.go:172-183 | within a block, the last line setting a field wins |
| SshConfig.ConfigHostsUnfold | srv/handlers.go:167-189 | the hosts are those of the blocks before the last `Host` line, then the last block's host when it is named |
| SshConfig.LastHostAppend | srv/handlers.go:167-171 | the last `Host` line of two parts is the second part's, if it has one |
| SshConfig.HostNamesAppend | srv/handlers.go:167-171 | the named `Host` values of two parts are the first part's followed by the second part's |
| SshConfig.Names | srv/handlers.go:169-188 | one name per host, in order |
| Client.TimeoutOptions | srv/static/app.js:113-117 | at most one option, present exactly when the field exists and is not blank |
| Client.NonBlankTrimmed | srv/static/app.js:122-124 | every kept line is trimmed and not blank |
| Client.ExcludeLines | srv/static/app.js:119-125 | every exclude pattern is trimmed, not blank and free of newlines |
| Client.Prefixed | srv/static/app.js:123 | each pattern becomes `--exclude=<pattern>`, in order |
| Client.CustomOptions | srv/static/app.js:127-131 | the custom field gives only non-empty words without white space |
| Client.GetSelectedOptions | srv/static/app.js:107-134 | the options are the ticked flags in page order, then the timeout, then one exclude per non-blank line, then the custom words |
| Client.CollectChecked | srv/static/app.js:109-111 | the flags of the ticked boxes, in page order |
| Client.CheckedFlags | srv/static/app.js:109-111 | the reference for the ticked flags: the flag of every ticked box, in page order |
| Client.SelectedOptions | srv/static/app.js:107-134 | the reference for the option list: ticked flags, then the timeout option, then the exclude options, then the custom words |
| Client.CollectExcludes | srv/static/app.js:119-125 | one `--exclude=` option per non-blank trimmed line of the trimmed field, in order |
| Client.ExcludeStep | srv/static/app.js:122-124 | one more line of the excludes field adds its `--exclude=` option exactly when the trimmed line is not blank |
| Client.NoNewlineSurvives | srv/static/app.js:122-123 | trimmed pieces of the split field hold no newline |
| Client.ValidateCommand | srv/static/app.js:148-220 | on trimmed endpoints: "Source is required" exactly when the source is empty; "Destination is required" exactly when the destination is empty; the "same" error exactly when they are non-empty and equal; the root error exactly for a source of "/" or "/*" or a destination of "/"; valid exactly when there is no error; the warnings never change validity |
| Client.EndpointErrors | srv/static/app.js:154-170 | each error rule reports exactly when its condition holds, in rule order; no error exactly when the endpoints are acceptable |
| Client.Warnings | srv/static/app.js:172-209 | the delete warning exactly when "--delete" is ticked and "-n" is not; the remote warning exactly when both endpoints contain ':' |
| Client.PreviewText | srv/static/app.js:137-141 | the preview starts with "rsync " |
| Client.UpdateCommandPreview | srv/static/app.js:136-146 | the preview is built from the selected options, with placeholders for empty fields; the Run button is enabled exactly when the trimmed endpoints are acceptable |
| Client.PreviewMatchesServer | srv/static/app.js:137-141 | with at least one option and endpoints typed without surrounding white space, the preview equals the command line the server stores for the posted request |
| Client.PreviewWithoutOptions | srv/static/app.js:141 | with no option, the preview has two spaces after "rsync" |
| Client.PreviewWithoutOptionsMismatch | srv/static/app.js:141 | with no option, the preview never equals the command line the server stores |
| Client.BoxOpts | srv/static/app.js:346 | the flag of every box, in page order |
| Client.BucketOf | srv/static/app.js:346-353 | a stored option goes to a box exactly when a box carries it; to the excludes exactly when no box does and it starts with `--exclude=`; to the custom options otherwise |
| Client.Unprefixed | srv/static/app.js:350 | the first `--exclude=` is removed from each option |
| Client.FirstBox | srv/static/app.js:346 | the first box carrying the flag, as `querySelector` finds it |
| Client.Ticked | srv/static/app.js:340-348 | after the reuse, a box is ticked exactly when a stored option carries its flag and it is the first box with that flag; flags unchanged |
| Client.InBucket | srv/static/app.js:345-354 | the reference for each bucket: the stored options that land in it, in stored order |
| Client.Restored | srv/static/app.js:335-357 | the reference for the reused form: stored endpoints, ticked boxes, excludes without their prefix joined by "\n", other options joined by " ", timeout untouched |
| Client.ReuseCommand | srv/static/app.js:329-359 | the reused form has the stored endpoints, the boxes ticked as above, excludes rejoined by "\n" without their prefix, the other options joined by " ", and the timeout field untouched |
| Client.SortOption | srv/static/app.js:345-354 | one stored option goes to its box, the excludes or the custom options, keeping the loop's state equal to the reference |
| Client.SortStep | srv/static/app.js:345-354 | one more stored option ticks its first box, or is appended to the excludes or to the custom options |
| Reuse.BucketsPartition | srv/static/app.js:345-354 | each stored option lands in exactly one of the three buckets; together they are the stored options |
| Reuse.InBucketAppend | srv/static/app.js:345-354 | sorting a concatenation sorts each part |
| Reuse.InBucketUniform | srv/static/app.js:345-354 | options all bound for one bucket all land there in order, and nowhere else |
| Reuse.InCheckedFlags | srv/static/app.js:109-111 | a flag is selected exactly when some ticked box carries it |
| Reuse.TickedUnchanged | srv/static/app.js:340-348 | with distinct flags, options that name exactly the ticked boxes leave the boxes as they were |
| Reuse.CheckedAreBoxFlags | srv/static/app.js:109-111 | every selected flag is the flag of a box |
| Reuse.UnprefixedPrefixed | srv/static/app.js:349-350 | stripping `--exclude=` from the exclude options gives the patterns back |
| Reuse.NonBlankTrimmedKeeps | srv/static/app.js:122-124 | trimmed non-blank lines are all kept unchanged |
| Reuse.ExcludeLinesOfJoin | srv/static/app.js:119-125 | patterns written one per line into the excludes field read back as the same patterns |
| Reuse.CustomOptionsOfJoin | srv/static/app.js:127-131 | words written space-separated into the custom field read back as the same words |
| Reuse.TimeoutIsNoExclude | srv/static/app.js:349 | the timeout option is never sorted into the excludes |
| Reuse.TimeoutTokens | srv/static/app.js:114-116 | the timeout option has no white space when the trimmed value has none |
| Reuse.TimeoutGroup | srv/static/app.js:346-353 | a timeout option that is no box flag is sorted into the custom options |
| Reuse.ExcludeGroup | srv/static/app.js:346-350 | every exclude option starts with `--exclude=` |
| Reuse.SortGroups | srv/static/app.js:345-354 | flags, a timeout, excludes and custom words land group by group in their buckets |
| Reuse.ReuseReselect | srv/static/app.js:329-359 | reusing a job from a reusable form and reading it out again gives back the endpoints, the boxes, the flags, the excludes and the custom words, with the timeout option twice |
| Reuse.ReadBack | srv/static/app.js:356-357 | the rejoined excludes and custom options read back as the same options |
| Reuse.ReusedForm | srv/static/app.js:329-357 | reusing a job from a reusable form gives the stored endpoints, the same boxes, the patterns one per line and the timeout and custom words space-separated |
| Reuse.TickedFlagsOnly | srv/static/app.js:346-348 | with distinct flags, a box is ticked exactly when its flag is among the selected flags and options that are no box flag |
| Reuse.ReuseKeepsBoxes | srv/static/app.js:340-348 | the reuse ticks exactly the boxes that were ticked |
| Reuse.ReuseSorts | srv/static/app.js:345-354 | the excludes come back as excludes, and the timeout joins the custom options |
| Reuse.ReuseRoundTrip | srv/static/app.js:329-359 | without a timeout, the reused form selects exactly the options the job was started with |
| Reuse.ReuseDuplicatesTimeout | srv/static/app.js:329-359 | with a timeout, the reused form selects one option more: the timeout option, once more |
| HostPicker.ApplySSHHost | srv/static/app.js:550-556 | nothing is written exactly when no host is selected; otherwise the target is the host, ':' and the remote path |
| HostPicker.SSHTargetParts | srv/static/app.js:556 | for a host without ':', the target splits at its first ':' into the host and the remote path, which may be empty |
| HostPicker.SSHTargetIsRemote | srv/static/app.js:556 | a field filled from a host keeps its ':' after trimming, so validation sees it as remote |
| HostPicker.ListedHostApplies | srv/handlers.go:187-189 | every host the server lists can be applied |
| Text.Trim | srv/handlers.go:153 | the result is no longer than the input, trimmed, and empty exactly when the input is all white space |
| Text.TrimStart | srv/handlers.go:153 | leading white space is dropped, and only that |
| Text.TrimEnd | srv/handlers.go:153 | trailing white space is dropped, and only that |
| Text.TrimOfTrimmed | srv/static/app.js:149-150 | trimming a trimmed string changes nothing |
| Text.TrimKeeps | srv/static/app.js:177-178 | a character that is not white space survives trimming |
| Text.TrimIn | srv/static/app.js:120-123 | trimming only removes characters |
| Text.TokenEnd | srv/handlers.go:158 | the length of the leading run of non-space characters |
| Text.Fields | srv/handlers.go:158 | every field is a non-empty run without white space |
| Text.FieldsTrimStart | srv/handlers.go:153-158 | leading white space does not change the fields |
| Text.TokenEndOfToken | srv/handlers.go:158 | a token followed by white space or nothing ends where the token ends |
| Text.FieldsOfJoin | srv/handlers.go:158-164 | fields joined by single spaces split back into the same fields |
| Text.SplitSpaceRuns | srv/static/app.js:130 | splitting at white-space runs gives at least one piece |
| Text.SplitSpaceRunsOfTrimmed | srv/static/app.js:128-130 | on a trimmed non-empty string, splitting at white-space runs gives exactly the fields, so no empty word |
| Text.IndexOf | srv/static/app.js:177-178 | the first position of the character, or the length when it is absent |
| Text.Split | srv/static/app.js:122 | at least one part, and no part holds the separator |
| Text.Join | srv/handlers.go:491 | joining nothing gives "", joining one part gives that part |
| Text.JoinIsTrimmed | srv/handlers.go:164 | joining non-empty trimmed parts gives a trimmed string |
| Text.JoinSnoc | srv/handlers.go:235 | joining one more part appends the separator and the part |
| Text.SplitJoin | srv/handlers.go:491 | parts without the separator, joined with it, split back into the same parts |
| Text.IndexOfPrefix | srv/static/app.js:556 | the first separator after a prefix without it is at the prefix's length |
| Text.JoinSplit | srv/static/app.js:356 | splitting at a separator and joining with it gives the string back |
| Text.ToLower | srv/handlers.go:163 | same length, each ASCII letter lower-cased |
| Text.ReplaceFirst | srv/static/app.js:350 | a string starting with the pattern has that prefix replaced |

## Left out

- Process execution: `exec.CommandContext`, the pipes, `cmd.Start`/`Wait` and the `bufio.Scanner` reading (srv/handlers.go:446-487). How the process started, the lines it printed and how `Wait` returned are inputs.
- The 64 KiB line limit of `bufio.Scanner`, and the interleaving of stdout and stderr lines.
- Concurrency: goroutines, the mutexes, and the goroutine forwarding the cancel channel to the context. The model runs every operation sequentially.
  - The race between `Subscribe` and the output replay, which can show a line twice, is not modelled.
  - An observer's output is modelled as a snapshot taken right after subscribing.
- Registry.JobManager.Cancel: a second cancel of the same job panics in Go, because it closes a closed channel. The model requires the job not to be cancelled already, instead of modelling the panic.
- Timers and timestamps: `StartedAt`/`CompletedAt`, and when the five-minute eviction runs. `Evict` is the deletion itself.
- Database, HTTP and JSON:
  - the `dbgen` queries;
  - the `UpdateRsyncRunning` call;
  - request decoding and its "bad request" path;
  - the JSON encoding of options and responses;
  - `strconv.ParseInt` id parsing.
- Websocket:
  - the upgrade;
  - a failed `WriteJSON`, which ends the stream early (srv/handlers.go:380-382);
  - `defer Unsubscribe`, after the stream ends.
- Handlers outside the job bookkeeping: `HandleStatus` (runs `rsync --version`), `HandleBrowse` (directory listing through the file system), `HandleGetJob`, `HandleDeleteHistory`, and the static file and index handlers.
- `parseSSHConfig` file access: the home directory lookup, opening ~/.ssh/config, and their error paths, which return no hosts. The model starts from the file's lines.
- White space and case: `strings.TrimSpace`, `strings.Fields`, JavaScript's `trim` and `\s`, and `strings.ToLower` are modelled on ASCII only. Unicode white space and case folding are not.
- SshConfig.ParseLine: the model has no contract of its own; `LineMeaning` states what it does.
- `reuseCommand` looks a box up with a CSS selector built from the option text. An option containing `"` or `\` would make the selector differ from exact matching, or fail. The model looks boxes up by exact equality.
- Client glue:
  - DOM rendering and the error and warning markup;
  - `fetch` and its error handling;
  - the `WebSocket` handlers;
  - `localStorage` defaults;
  - `escapeHtml`, `loadHistory` rendering, and `formatSize` (floating point);
  - the confirmation dialog for `--delete` without `-n`;
  - the alert when no host is selected.
- srv/server.go and cmd/srv/main.go: wiring, the route table and start-up. Only the `Job` and `JobManager` fields are mirrored.
