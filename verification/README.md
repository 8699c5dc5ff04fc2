# Discord bot hoster: a verified model of the supervisor

This project models the core of a small Discord bot hosting service. Users
submit bot source code and a bot token. The backend stores the bots in
`bots.json`, writes each bot's code with the token filled in to a working
file, and launches it as a child process. It tracks running processes in two
in-memory registries keyed by bot id, `botProcesses` and `botStartTimes`.
The stored `running` flag of a bot whose process has died is corrected by a
liveness probe, `checkBotProcess`. The TypeScript variant runs the probe from
a periodic status pass, started at backend/src/index.ts:292. The JavaScript
variant defines the same pass but never starts it; there the probe runs only
when `GET /bots` lists the caller's bots.

There are two backend variants, and both are modelled:

- `backend/dist/index.js` keys ownership by the caller's IP address. It
  launches a bot in one of nine languages, sanitizes code against a denylist
  and injects the token through a table of placeholder regexes.
- `backend/src/index.ts` keys ownership by the authenticated account. It runs
  every bot as `python <id>.py` and fills the token in with a single
  first-occurrence replace. It stops a bot by writing a sentinel file.

The frontend (`frontend/src/App.tsx`) contributes the uptime label, the
starter-template choice and the updates the dashboard makes to its bot list.

Modules (one file each):

| file | module | what it holds |
|---|---|---|
| `wrappers.dfy` | `Wrappers` | `Option` |
| `text.dfy` | `Text` | JavaScript string primitives: `startsWith`, `split`/`join`, `indexOf`, `replace` with a string pattern, `trim` |
| `scan.dfy` | `Scanning` | the leftmost, non-overlapping scan of a global regex `replace` |
| `patterns.dfy` | `Patterns` | the regexes the source uses, as an explicit rule table with anchored matchers |
| `credentials.dfy` | `Credentials` | `validateToken` |
| `sanitizer.dfy` | `Sanitizer` | `sanitizeCode` and its denylist |
| `injection.dfy` | `Injection` | the token-injection block of the JavaScript variant |
| `strategy.dfy` | `Strategy` | extension and interpreter tables, and the launch plan per language |
| `bots.dfy` | `Bots` | the stored bot record and the `find`/`findIndex`/`filter` lookups |
| `replies.dfy` | `Replies` | the error and success responses, with their status codes and texts |
| `supervisor.dfy` | `Supervisor` | the shared state (class `Host`): `checkBotProcess`, `updateBotUptime`, the status pass of the TypeScript variant |
| `js_backend.dfy` | `JsBackend` | the handlers and process callbacks of `backend/dist/index.js` |
| `ts_backend.dfy` | `TsBackend` | the handlers, the `close` callback, `cleanBotsFile` and `disableBotCodeFile` of `backend/src/index.ts` |
| `dashboard.dfy` | `Dashboard` | `formatUptime`, `getDefaultCode` and the bot-list updates of the dashboard |

How the model works:

- Asynchronous events (process `exit`, `error` and `close`) are ordinary
  operations on the `Host`. The environment decides when to call them.
- A child process is named by a handle, its index in `Host.launches`.
- Whether a process is alive (`process.kill(0)` does not throw) is an oracle
  `alive: Handle -> bool`.
- `Date.now()`, `new Date().toISOString()`, fresh UUIDs, the caller's address
  or account id and a process's exit code are parameters.
- A request field that is absent is the empty string, since both are falsy.
- Signals sent to processes are recorded in `Host.signalled`.
- Working files are a map from name to contents, `Host.files`.

Where a comment and the code disagree, the model follows the code. The
comment on `validateToken` (backend/dist/index.js:150) says "at least 3
dot-separated parts", but the code demands exactly three.
`Credentials.FourSegmentsRejected` states the code's rule.

## Model

| member | source | states |
|---|---|---|
| `Credentials.ValidTokenIffTwoDots` | backend/dist/index.js:149-152 | a token is valid iff it contains exactly two dots and is longer than 30 characters; the TypeScript variant repeats the same rule at backend/src/index.ts:165-168 |
| `Credentials.ThreeSegmentToken` | backend/dist/index.js:149-152 | three dot-free segments joined by dots split back into those segments, and the token is valid iff it is long enough |
| `Credentials.FourSegmentsRejected` | backend/dist/index.js:149-152 | a token of four dot-separated segments is rejected, however long it is ("exactly three parts", not "at least three") |
| `Sanitizer.SanitizeCode` | backend/dist/index.js:154-168 | the loop over the five-entry denylist computes `Sanitized`: each rule applied in order, every match replaced by `// BLOCKED: ` and the pattern source; the TypeScript copy is backend/src/index.ts:171-187 |
| `Sanitizer.SanitizedIsFreeOfExitAndKill` | backend/dist/index.js:154-168 | for every input, sanitized code contains neither `process.exit` nor `process.kill` |
| `Sanitizer.SanitizedWithoutMatch` | backend/dist/index.js:154-168 | code that matches none of the five patterns is returned unchanged |
| `Injection.InjectToken` | backend/dist/index.js:433-460 | for the placeholder table it is given, the placeholder loop followed by the language passes computes `InjectedWith`: every placeholder pattern in order, then the python passes or the JavaScript/TypeScript passes |
| `Injection.InjectedWithoutMatch` | backend/dist/index.js:433-460 | with any placeholder table, the table as written included, code in which no placeholder and no call or assignment shape of its language matches is written exactly as stored |
| `Injection.PythonTokenAssignment` | backend/dist/index.js:452-454 | with the table as written and with the corrected one, a python bot's `TOKEN = '<v>'` becomes `TOKEN = '<token>'`, for every token and every value without quotes or line breaks in which no placeholder matches |
| `Injection.PythonTokenAssignmentExample` | backend/dist/index.js:454 | with the table as written, `TOKEN = 'x'` becomes `TOKEN = '<token>'` (an instance of `PythonTokenAssignment`) |
| `Injection.AsWrittenLeavesHere` | backend/dist/index.js:437-444 | with the table as written, for a language without passes of its own (php, ruby, …), a line `pre 'place ur bot token here' post` becomes `pre '<token>' here' post`, whenever no placeholder matches in `pre`, in `post` or in the token |
| `Injection.CorrectedReplacesPlaceholder` | backend/dist/index.js:437-444 | with the corrected table, under the same conditions, the whole quoted placeholder becomes the quoted token and nothing else changes |
| `Strategy.LanguageOf` | backend/dist/index.js:414 | an unset language is `javascript`; a set one is kept |
| `Strategy.TablesAgree` | backend/dist/index.js:414-429 | the extension table and the interpreter table cover exactly the same nine languages |
| `Strategy.UnknownLanguageFallsBack` | backend/dist/index.js:430-510 | an unknown language gets extension `js`, interpreter `['node']` and the launch `node bot_<id>.js` |
| `Strategy.UnsetLanguageIsJavaScript` | backend/dist/index.js:414-431 | a bot without a language is launched exactly as a JavaScript bot |
| `Strategy.ArgvIsInterpreterThenFile` | backend/dist/index.js:503-514 | outside Java the spawned argv is the interpreter followed by the working file; the C# branch agrees with its table entry |
| `Strategy.ExtensionsDistinct` | backend/dist/index.js:415-418 | distinct known languages have distinct extensions, so their working files never collide |
| `Strategy.JavaCompilesThenRunsClass` | backend/dist/index.js:470-476 | Java runs `javac bot_<id>.java`, then `java bot_<id>` |
| `Strategy.Plan` | backend/dist/index.js:468-514 | the plan compiles first exactly for Java |
| `Bots.FindIndex` | backend/dist/index.js:315 | the index found is the first bot with the id; none means no bot has it |
| `Bots.FindOwned` | backend/src/index.ts:354 | the index found is the first bot with both the id and the owner; none means no bot has both |
| `Bots.WithoutIdKeepsOthers` | backend/dist/index.js:391 | filtering out an id keeps every bot with another id |
| `Bots.WithoutIdKeepsOrder` | backend/dist/index.js:391 | the filter keeps the order of the list: filtering a concatenation is concatenating the filtered pieces |
| `Bots.WithoutIdCounts` | backend/dist/index.js:391 | each bot with another id is kept exactly as often as it is stored; bots with the id are all dropped |
| `Bots.WithoutIdChangesIffPresent` | backend/dist/index.js:391 | filtering out an id no bot has changes nothing; filtering out a present id shortens the list |
| `Supervisor.MarkStoppedSpec` | backend/dist/index.js:114-118 | marking a bot stopped changes only the `running` flag of the first bot with that id, and doing it twice is doing it once |
| `Supervisor.Host.CheckBotProcess` | backend/dist/index.js:100-123 | the result is whether the bot has a registered, live process; on a dead process both registry entries go and the stored bot is marked stopped; otherwise nothing changes |
| `Supervisor.Host.UpdateBotUptime` | backend/dist/index.js:88-98 | with a truthy start time the first bot with the id gets `floor((now - start) / 1000)` as its uptime; otherwise nothing changes |
| `Supervisor.Host.Forget` | backend/dist/index.js:111-112 | both registry entries of the id are removed and nothing else changes |
| `Supervisor.Host.Spawn` | backend/dist/index.js:516-518 | the new child is the next handle and is registered for its bot with the current time |
| `Supervisor.Host.Visit` | backend/src/index.ts:145-155 | one bot of the pass: a bot that claims to run and does not probe as running comes back stopped and flags a correction; a live one has its uptime refreshed |
| `Supervisor.Host.ForEachBot` | backend/src/index.ts:144-156 | after the loop the list is the reconciled list, the registry the pruned registry, and the flag is set iff something needed correction |
| `Supervisor.Host.StatusPass` | backend/src/index.ts:139-162 | one tick of the TypeScript variant's pass: saves its own reconciled list only if something was corrected; dead registrations of claimed bots are pruned; afterwards every bot stored as running has a live registered process |
| `Supervisor.PassStep` | backend/src/index.ts:145-155 | visiting one more bot keeps the pass invariant |
| `Supervisor.PassLeavesRunningAlive` | backend/src/index.ts:139-162 | whichever list the pass leaves, each of its running bots probes as running on the pruned registry |
| `Supervisor.RefreshedChangesOnlyUptime` | backend/dist/index.js:88-98 | refreshing uptimes changes no field other than `uptime` and keeps the length |
| `JsBackend.List` | backend/dist/index.js:238-264 | the response is the caller's bots in stored order, without tokens, each shown stopped if it claims to run without a live registered process and with its uptime if it runs; the registry loses the dead entries of claimed bots, and the stored list has the first record of each such bot marked stopped |
| `JsBackend.ListOne` | backend/dist/index.js:243-257 | one bot of the response: a running one is probed, shown stopped if the probe fails, else given its uptime; a dead registered process is dropped and its bot saved stopped |
| `JsBackend.ListStep` | backend/dist/index.js:243-257 | listing one more bot keeps the loop invariant of `List` |
| `JsBackend.StoppedWhereDead` | backend/dist/index.js:114-118 | the probes of a listing change only `running` flags, only from true to false, and only for ids a listed bot claims on a dead registered process |
| `JsBackend.StoppedStep` | backend/dist/index.js:247 | probing one more running bot stops its first stored record exactly when its registered process is newly found dead |
| `JsBackend.ListedRunningAlive` | backend/dist/index.js:245-255 | every bot the response shows running probes as running on the registry the listing leaves |
| `JsBackend.ListAfterRestart` | backend/dist/index.js:100-103 | with an empty registry the response shows all the caller's bots stopped, but the stored list is left as it was |
| `JsBackend.FromIpCounts` | backend/dist/index.js:242 | the caller's bots are listed as often as they are stored, and no other bot is |
| `JsBackend.FromIpKeepsOrder` | backend/dist/index.js:242 | the filter keeps the stored order |
| `JsBackend.OwnerCheck` | backend/dist/index.js:311-325 | access is granted to the first bot with the id when it was created from the caller's address; "Bot not found" iff no bot has the id; otherwise "Forbidden: Not your bot" |
| `JsBackend.OwnerCheckStable` | backend/dist/index.js:311-325 | replacing a bot by one with the same id and creator keeps every ownership check |
| `JsBackend.Create` | backend/dist/index.js:266-309 | a request refused by validation leaves the list unchanged; an accepted one appends the stopped, trimmed, sanitized bot under the fresh id |
| `JsBackend.CreateOutcome` | backend/dist/index.js:271-293 | an invalid token is refused (after the name check); a request is accepted iff the name and code are non-blank and the token is valid; the new bot is stopped, owned by the caller's address and free of `process.exit`/`process.kill` |
| `JsBackend.CreateKeepsIdsUnique` | backend/dist/index.js:281-294 | appending under an id no stored bot has keeps the ids unique |
| `JsBackend.EditFields` | backend/dist/index.js:344-352 | the field assignments compute `Edited` |
| `JsBackend.EditedChangesOnlySupplied` | backend/dist/index.js:344-352 | an edit changes a field only when it was supplied, always sets the update time, and sanitizes supplied code |
| `JsBackend.Update` | backend/dist/index.js:327-367 | a denied or invalid request leaves the list unchanged; otherwise the owned bot is replaced by its edit in place, running or not |
| `JsBackend.Delete` | backend/dist/index.js:369-400 | a foreign, unknown or running bot is refused and nothing changes; otherwise its working file and both registry entries go, no process is signalled, and every bot with the id is filtered out |
| `JsBackend.SpawnBot` | backend/dist/index.js:461-531 | the working file gets the code injected through the given placeholder table; the plan's first process is spawned with callbacks over the loaded list and registered now |
| `JsBackend.StartAsWritten` | backend/dist/index.js:402-552 | a foreign, unknown or running bot is refused; otherwise the working file gets the code injected with the table as written (`InjectedAsWritten`), the bot is launched and registered, but the stored list is left as loaded |
| `JsBackend.Start` | backend/dist/index.js:402-552 | the corrected start: the bot is saved running before its process is launched, and its working file gets the code injected with the corrected table |
| `JsBackend.MarkedRunning` | backend/dist/index.js:546 | the bot is marked running and nothing else changes |
| `JsBackend.OnExit` | backend/dist/index.js:525-531 | both registry entries of the bot go and the list the callback closes over is saved with the bot stopped |
| `JsBackend.OnError` | backend/dist/index.js:520-524 | the list the callback closes over is saved with the bot stopped; the registry keeps its entries |
| `JsBackend.OnCompileClosed` | backend/dist/index.js:473-500 | exit code 0 spawns and registers `java bot_<id>`; any other code spawns nothing and saves the bot stopped |
| `JsBackend.Stop` | backend/dist/index.js:554-585 | "Bot is not running" unless the bot is stored running; with a registered process that process is signalled, both entries go and the bot is saved stopped; without one, "Bot process not found" and nothing changes |
| `JsBackend.StopAfterStartAsWrittenRefused` | backend/dist/index.js:562-564 | as written, stopping a bot the start handler accepted is always refused with "Bot is not running" |
| `JsBackend.AsWrittenCallbacksRestoreSnapshot` | backend/dist/index.js:520-531 | as written, the `exit` and `error` callbacks write back exactly the list the start request loaded |
| `JsBackend.StopAfterStartSucceeds` | backend/dist/index.js:554-585 | with the corrected start, a stop that follows a successful start succeeds |
| `JsBackend.CallbacksUndoStart` | backend/dist/index.js:520-531 | with the corrected start, the callbacks save the start's list with the bot stopped again |
| `TsBackend.KeptOwnedSpec` | backend/src/index.ts:282 | the filter keeps exactly the bots whose owner is a non-empty string, and shrinks the list iff some bot has none |
| `TsBackend.KeptOwnedKeepsOrder` | backend/src/index.ts:282 | the filter keeps the order of the list |
| `TsBackend.CleanBotsFile` | backend/src/index.ts:280-287 | the list becomes the filtered list, and it is saved iff some bot had no owner |
| `TsBackend.SameOwnersSameIndex` | backend/src/index.ts:354 | lists with the same ids and owners position by position find the same owned bot |
| `TsBackend.EditFields` | backend/src/index.ts:364-374 | the assignments in order compute `Edited`, or abandon the edit on a malformed supplied token |
| `TsBackend.EditedChangesOnlySupplied` | backend/src/index.ts:364-374 | an edit keeps id, owner and run state, changes a field only when supplied (the name untrimmed), and sanitizes supplied code |
| `TsBackend.Update` | backend/src/index.ts:350-381 | 404 without an owned bot, a refusal for a running bot or a malformed supplied token, each leaving the list unchanged; otherwise the edit is saved in place |
| `TsBackend.UpdateKeepsOwnership` | backend/src/index.ts:350-381 | a saved edit keeps the bot's id, owner and stopped state, and every owned lookup |
| `TsBackend.SplicedSpec` | backend/src/index.ts:414 | splicing removes exactly that bot and keeps the others in their order |
| `TsBackend.Delete` | backend/src/index.ts:383-421 | 404 without an owned bot; otherwise a running bot with a registered process has it sent `SIGTERM` and both entries removed; `<id>.py` is removed and exactly that bot is spliced out |
| `TsBackend.Launched` | backend/src/index.ts:480-483 | the started bot is running, started now, with uptime 0, and no other bot changes |
| `TsBackend.LaunchScript` | backend/src/index.ts:444-455 | `<id>.py` gets the code with its first placeholder replaced, and `python <id>.py` is spawned and registered now |
| `TsBackend.Run` | backend/src/index.ts:423-490 | 404 or "already running" change nothing; a live registered process only marks the bot running; otherwise the script is launched and the loaded list saved with the bot started |
| `TsBackend.OnClose` | backend/src/index.ts:465-477 | both registry entries go and the freshly loaded list is saved with the bot stopped, if it was running |
| `TsBackend.Stop` | backend/src/index.ts:492-514 | 404 for an unknown or foreign bot; otherwise the sentinel file is written and the bot saved stopped, whatever its state; the registry is never touched |
| `TsBackend.RunAfterStopFindsRegisteredProcess` | backend/src/index.ts:436-441 | after a sentinel stop, running the bot again only reports "Bot is already running" while its old process is alive |
| `TsBackend.StopAfterRunAccepted` | backend/src/index.ts:492-514 | after a run that launched the bot, a stop is accepted and another run is refused as already running |
| `TsBackend.DisableLines` | backend/src/index.ts:194-199 | the loop over the first five lines computes `Disabled` in place |
| `TsBackend.DisabledSpec` | backend/src/index.ts:190-202 | the line count is kept; lines from the sixth on and comment lines are unchanged; other lines among the first five get `// DISABLED: ` |
| `TsBackend.DisabledIdempotent` | backend/src/index.ts:190-202 | disabling twice is disabling once |
| `TsBackend.DisabledTextSpec` | backend/src/index.ts:192-200 | on a whole file the number of line breaks is kept and disabling twice is disabling once |
| `TsBackend.DisableBotCodeFile` | backend/src/index.ts:190-202 | an existing file is rewritten with its leading lines disabled; a missing one is left alone |
| `Dashboard.DigitsRoundTrip` | frontend/src/App.tsx:262 | the decimal digits of a number denote that number |
| `Dashboard.FormatUptimeSpec` | frontend/src/App.tsx:258-263 | a missing or zero uptime reads `N/A`; a positive one gives hours and minutes with minutes under 60 and `3600*h + 60*m <= s < 3600*h + 60*m + 60` |
| `Dashboard.FormatUptimeReadsBack` | frontend/src/App.tsx:258-263 | the digits before `h` and before `m` read back as the hours and minutes |
| `Dashboard.JsRemainder` | frontend/src/App.tsx:261 | JavaScript `%` keeps the sign of the dividend |
| `Dashboard.DefaultCodeSpec` | frontend/src/App.tsx:17-255 | a language with a template gets its own; any other gets the JavaScript one; the templates cover exactly the backend's languages |
| `Dashboard.AddBotSpec` | frontend/src/App.tsx:488 | adding appends: one more bot, the earlier ones unchanged, and the running count grows iff the new bot runs |
| `Dashboard.ReplaceEditedSpec` | frontend/src/App.tsx:519 | every bot with the edited id becomes the server's record and the others are unchanged; replacing twice is replacing once |
| `Dashboard.RemoveBotSpec` | frontend/src/App.tsx:545 | exactly the bots with other ids are kept, the running count does not grow, and removing an absent id changes nothing |
| `Dashboard.RemoveBotKeepsOrder` | frontend/src/App.tsx:545 | removal keeps the order of the list |
| `Dashboard.MarkRunningSpec` | frontend/src/App.tsx:573 | only the bots with the id change: they run with the new start time; length and other bots are unchanged |
| `Dashboard.RunningCount` | frontend/src/App.tsx:675 | the running count is at most the list length, and it is zero iff no bot runs |

## Left out

- File I/O (`loadBots`/`saveBots`, `existsSync`, `writeFileSync`, `unlinkSync`) is modelled as reading and assigning `Host.store` and `Host.files`. A failed read or write is not modelled; the source logs it and carries on.
- The directory prefix that `path.join(__dirname, …)` puts on working files is dropped: files are named by their base name.
- `spawn` and `process.kill` are not modelled as OS calls. A spawn is the append of a `Launch`, a signal is an entry in `Host.signalled`, and liveness is the oracle `alive`.
- The `stdout`/`stderr` logging and every `console` call are left out.
- `setInterval` timing, and the order in which the runtime delivers `exit`, `error` and `close`, are left out. Each callback is an operation, and any order can be modelled by calling them in that order.
- Express routing, JSON bodies, status plumbing, `getRequestIp`, JWT and bcrypt authentication, and the user register/login endpoints are left out. The caller's address or account id is a string parameter.
- Every Supabase call (`backend/src/supabaseClient.ts`, and the TypeScript variant's register, login and `POST /bots`) is left out.
- The TypeScript variant's `GET /bots` and `GET /bots/:id` handlers are left out: they only filter and read the list, with no probe and no write.
- Request fields that are not strings (numbers, objects) are not modelled. An absent field is the empty string.
- Lookups of prototype keys in the JavaScript tables (a language named `constructor`, say) are not modelled. Such a language is treated as unknown.
- `$` patterns in a `replace` replacement string (a token containing `$&`) are not modelled; the replacement is taken literally.
- Only the regexes the source uses are modelled, as an explicit rule table. There is no general regex engine.
- The text of the starter templates is not modelled; a template is known by its language.
- React rendering, hooks, `fetch` and the dashboard's error states are left out. Only the list updates after a successful response are modelled.
- The TypeScript variant's `req.user.userId` is modelled as a string. An undefined user id, which would match bots without an owner, is not modelled.
- Code with non-BMP characters is modelled over UTF-16 code units, as JavaScript strings are.
- `JsBackend.Create`, `JsBackend.Update`, `TsBackend.Update`: the response body is modelled as the whole record or the id, not as the subset of fields the handler echoes.

## Findings

| source | as written | input that shows it | evidently intended | confidence | as-written member | corrected member |
|---|---|---|---|---|---|---|
| backend/dist/index.js:402-552 | the start handler never sets the stored `running` to `true`; it answers "Bot started" but saves nothing, and its callbacks write back the list as loaded | start an owned, stopped bot, then stop it: the stop is refused with "Bot is not running" while the process runs | the bot is saved running when it is launched, so a following stop finds it running and stops it | high, not executed | `JsBackend.StopAfterStartAsWrittenRefused` | `JsBackend.StopAfterStartSucceeds` |
| backend/dist/index.js:437-444 | the placeholder pattern is `['"]?place ur bot token['"]?`, but the templates (frontend/src/App.tsx:235) write `'place ur bot token here'` | a php bot with `$discord->run('place ur bot token here');` is written as `$discord->run('<token>' here');` | the whole quoted placeholder is replaced, giving `$discord->run('<token>');` | high, not executed | `Injection.AsWrittenLeavesHere` | `Injection.CorrectedReplacesPlaceholder` |
