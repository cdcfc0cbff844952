# react-native-background-downloader: the JavaScript layer, in Dafny

This project models the JavaScript layer of `react-native-background-downloader`.
That layer sits between application code and a platform download engine (Android
DownloadManager, iOS background `NSURLSession`). It covers:

- the `DownloadTask` handle (`lib/DownloadTask.ts`): a state machine with six
  states, two byte counters, parsed metadata and four handler slots. Each slot can
  be set three ways: a chainable method, a property, or a legacy `_`-prefixed
  property.
- the module state of `index.ts`:
  - the registry `tasksMap`, from task id to task object;
  - the `config` object: default headers, the progress interval with its floor of
    250, and the logging flag;
  - the loader of the engine's constants, with its five-field null check;
  - the four event listeners: begin, progress batch, complete, failed;
  - the public functions `setConfig`, `download`, `completeHandler`,
    `checkForExistingDownloads` (reconciliation with the engine) and
    `ensureDownloadsAreRunning`.

The engine, user handlers and the console are outside the model. Each call into
the engine, each handler call and each warning is appended to a ghost log in the
class `Native.Effects`. Every operation states exactly what it appends. `JSON.parse`
is a parameter, `parse: string -> Option<JsValue>`, where `None` means the string
does not parse.

Modules:

| file | module | what it holds |
|---|---|---|
| `wrappers.dfy` | `Wrappers` | `Option`, `Result`, `Outcome` |
| `js_values.dfy` | `JsValues` | JavaScript values and the operations the layer applies to them |
| `native.dfy` | `Native` | the engine boundary and the effect log |
| `download_task.dfy` | `DownloadTasks` | the state machine, the handler store, and the class `DownloadTask` |
| `downloader_spec.dfy` | `DownloaderSpec` | pure functions for `index.ts`: constants, config, option normalising, the progress fold, the reconciliation fold |
| `downloader.dfy` | `Downloader` | the class `BackgroundDownloader` (`tasksMap` and `config`) and the class `DownloadOptions` |

The registry is a field `tasks: map<string, DownloadTask>` that the listeners
and public functions reassign. The contracts describe the registry through
`Views()`, the value of every registered task. The three loops are proved
against pure folds in `DownloaderSpec`:

- The progress listener against `ApplyProgress` and `ProgressTrace`.
- Reconciliation against `Reconcile`, `Survivors`, `CancelCalls` and
  `ReconcileWarnings`.
- `ensureDownloadsAreRunning` against `KickCalls`.

Lemmas then prove what those folds promise. The other listeners and public
functions state their effects directly in their own contracts: `setConfig`
through `ConfigAfter` and `IntervalWarnings`, `download` through `Normalised`
and `Request`.

Four behaviours of the code are easy to misread; the model follows the code:

- The chainable `begin(null)` (and its three siblings) leaves the slot as it
  is (`lib/DownloadTask.ts:105-108`). Only a property assignment of null clears
  it. `DownloadTasks.SpellingsAgree` states the difference.
- No transition is guarded by the prior state: DONE and FAILED are not
  terminal in the code. Every event or call except progress overwrites the
  state (`lib/DownloadTask.ts:162-198`); progress only updates the counters.
- Reconciliation sets DOWNLOADING, PAUSED or DONE directly on a new task
  (`index.ts:133-142`), without a begin, pause or complete event. So through
  the task's methods PAUSED is reached only by `pause()` and DONE only by the
  complete event (`DownloadTasks.EnteredOnlyBy`), but a reconciled task can
  start in either state (`Downloader.BackgroundDownloader.Reconstruct`).
- A dropped entry during reconciliation is not written to the registry. Any
  task already registered under its id stays registered
  (`index.ts:137-145`, proved in `DownloaderSpec.ReconcileFrame`).

A few methods split inline source code into steps:

- `BackgroundDownloader.Reconstruct`, `ReconcileEntry` and `ReconcileNext` make
  up the `foundTasks.map(...).filter(...)` callback.
- `DeliverProgress` is the body of the progress listener's loop.
- `Rekick` is the body of the `ensureDownloadsAreRunning` loop.
- `DownloadOptions.Normalise` is the in-place rewrite inside `download`.

## Model

| member | source | states |
|---|---|---|
| JsValues.TypeOf | index.ts:112-120 | `typeof`: "object" exactly for null and objects, "number" for numbers and NaN, and one name per other kind |
| JsValues.Coalesce | lib/DownloadTask.ts:135-138 | `a ?? b` is `a` unless `a` is null or undefined, and `b` when it is |
| JsValues.Truthy | lib/DownloadTask.ts:131 | JavaScript truthiness: undefined, null and NaN are falsy, every object and function truthy |
| JsValues.IsNullish | index.ts:198-200 | `v == null`: holds for null and undefined only, and such a value is falsy and not a function |
| JsValues.Spread | index.ts:191 | the own properties `{...v}` copies: an object's properties, none for null, undefined or a primitive |
| JsValues.TruthyObject | index.ts:193-194 | `v && typeof v === 'object'` holds exactly for non-null objects |
| JsValues.MergeProps | index.ts:191 | `{...a, ...b}` has the keys of both, with `b`'s value on every shared key |
| JsValues.IndexOf | index.ts:196 | the first occurrence of the pattern at or after `from`, or none when there is no occurrence |
| JsValues.ReplaceFirst | index.ts:196 | `replace` with a string pattern replaces only the first occurrence; with no occurrence the string is unchanged |
| DownloadTasks.Forced | lib/DownloadTask.ts:162-198 | the state each event or call writes: begin and resume write DOWNLOADING, pause PAUSED, stop STOPPED, done DONE, error FAILED, progress writes none, and nothing writes PENDING |
| DownloadTasks.RunEndsInLastForced | lib/DownloadTask.ts:162-198 | after any sequence of events, the state is the one forced by the last state-writing event, whatever came before |
| DownloadTasks.EnteredOnlyBy | lib/DownloadTask.ts:162-198 | through the task's own methods (not reconciliation, which writes the state directly), a state other than the start state is entered only by an event that forces it: PAUSED only by pause, STOPPED only by stop, DONE and FAILED only by the native events, and PENDING never |
| DownloadTasks.PauseThenResume | lib/DownloadTask.ts:185-193 | pause then resume ends in DOWNLOADING from every state |
| DownloadTasks.ValidateHandler | lib/DownloadTask.ts:10-15 | passes exactly for functions; otherwise a TypeError whose message ends in the value's `typeof` |
| DownloadTasks.AssignSlot | lib/DownloadTask.ts:27-35 | succeeds exactly for null, undefined or a function; null and undefined clear the slot, a function is stored; other slots are untouched; a failure carries the TypeError |
| DownloadTasks.ChainSlot | lib/DownloadTask.ts:105-123 | the chainable setter on the store: succeeds exactly for null, undefined or a function; a function is stored in its slot, null and undefined leave the store as it was, other slots are untouched, and anything else fails with the TypeError |
| DownloadTasks.SpellingsAgree | lib/DownloadTask.ts:105-123 | the chainable setter and a property assignment agree on every non-null value; for null or undefined the setter keeps the slot and the assignment clears it |
| DownloadTasks.SlotValue | lib/DownloadTask.ts:37-39 | a slot reads as its stored function, or undefined when empty |
| DownloadTasks.Dispatch | lib/DownloadTask.ts:164 | an optional-call of a handler makes one call with the argument when the slot is set, none otherwise |
| DownloadTasks.BytesPayload | lib/DownloadTask.ts:170 | the object `{ bytesDownloaded, bytesTotal }` the progress handler receives |
| DownloadTasks.ParsedJson | lib/DownloadTask.ts:200-210 | `tryParseJson`'s value: a non-string is returned as is, a string its parse, and null when the string does not parse |
| DownloadTasks.ParseWarnings | lib/DownloadTask.ts:206-207 | `tryParseJson` writes at most one warning, exactly when given a string that does not parse |
| DownloadTasks.InitialMetadata | lib/DownloadTask.ts:130-132 | a task's metadata is always truthy: the parsed string or the given value when truthy, `{}` when it does not parse or is falsy |
| DownloadTasks.CopySlot | lib/DownloadTask.ts:134-139 | chaining `original.x ?? original._x` copies a set slot and leaves the store alone for an empty one |
| DownloadTasks.DownloadTask.constructor | lib/DownloadTask.ts:125-140 | a new task is PENDING, with its id, counters defaulting to 0, the initial metadata, and the handlers of `original` when given; it logs the parse warning, if any |
| DownloadTasks.DownloadTask.CopyHandlersFrom | lib/DownloadTask.ts:134-139 | the store becomes the old store overridden by every set slot of `original` |
| DownloadTasks.DownloadTask.TryParseJson | lib/DownloadTask.ts:200-210 | a string is parsed, with null and one warning when it does not parse; any other value is returned unchanged |
| DownloadTasks.DownloadTask.HandlerProperty | lib/DownloadTask.ts:45-47 | a getter returns the stored function, or undefined when the slot is empty |
| DownloadTasks.DownloadTask.LegacyHandlerProperty | lib/DownloadTask.ts:53-55 | the `_`-prefixed getter reads the same slot as the plain getter |
| DownloadTasks.DownloadTask.SetHandler | lib/DownloadTask.ts:27-35 | the store becomes what `AssignSlot` gives; on a TypeError the store is unchanged and the error is returned |
| DownloadTasks.DownloadTask.SetHandlerProperty | lib/DownloadTask.ts:41-43 | the property setter behaves as `setHandler` |
| DownloadTasks.DownloadTask.SetLegacyHandlerProperty | lib/DownloadTask.ts:49-51 | the legacy setter behaves as the plain setter it forwards to |
| DownloadTasks.DownloadTask.SetHandlerUnlessNull | lib/DownloadTask.ts:105-108 | null and undefined are ignored; any other value is assigned as by the property setter |
| DownloadTasks.DownloadTask.Begin | lib/DownloadTask.ts:142-145 | returns the task itself with the begin slot chained, or the TypeError with the store unchanged |
| DownloadTasks.DownloadTask.Progress | lib/DownloadTask.ts:147-150 | the same for the progress slot |
| DownloadTasks.DownloadTask.Done | lib/DownloadTask.ts:152-155 | the same for the done slot |
| DownloadTasks.DownloadTask.Error | lib/DownloadTask.ts:157-160 | the same for the error slot |
| DownloadTasks.DownloadTask.OnBegin | lib/DownloadTask.ts:162-165 | state becomes DOWNLOADING and nothing else changes; the begin handler, if set, is called once with the event payload |
| DownloadTasks.DownloadTask.OnProgress | lib/DownloadTask.ts:167-171 | both counters are overwritten and the state is kept; the progress handler gets exactly the two counters |
| DownloadTasks.DownloadTask.OnDone | lib/DownloadTask.ts:173-178 | state becomes DONE and both counters are overwritten from the event; the done handler, if set, is called once with the whole event payload |
| DownloadTasks.DownloadTask.OnError | lib/DownloadTask.ts:180-183 | state becomes FAILED and the counters are kept; the error handler gets the payload |
| DownloadTasks.DownloadTask.Pause | lib/DownloadTask.ts:185-188 | state becomes PAUSED from any state, and exactly one `pauseTask(id)` is issued |
| DownloadTasks.DownloadTask.Resume | lib/DownloadTask.ts:190-193 | state becomes DOWNLOADING from any state, and exactly one `resumeTask(id)` is issued |
| DownloadTasks.DownloadTask.Stop | lib/DownloadTask.ts:195-198 | state becomes STOPPED from any state, and exactly one `stopTask(id)` is issued |
| DownloaderSpec.LegacyConstants | index.ts:22-49 | succeeds exactly when all five fields are present, returning them; otherwise the "constants are not available" error |
| DownloaderSpec.LoadConstants | index.ts:51-60 | the getter's object wins; without it, the result is exactly that of the legacy loader, so loading fails exactly when a legacy field is missing |
| DownloaderSpec.AcceptedInterval | index.ts:115 | an interval is accepted exactly when it is a number (not NaN) at or above 250 |
| DownloaderSpec.ConfigAfter | index.ts:111-121 | `setConfig` keeps the config valid (interval at least 250, headers of type object); the interval changes only to an accepted value; headers and logging change only for values of the right type |
| DownloaderSpec.IntervalWarnings | index.ts:114-118 | exactly one `ProgressIntervalRejected` warning when an interval is given and rejected, none otherwise |
| DownloaderSpec.DefaultFlag | index.ts:198-200 | `if (x == null) x = d`: a null or undefined flag becomes `d`, any other value is kept |
| DownloaderSpec.Normalised | index.ts:186-200 | throws the "required" error exactly when id, url or destination is missing or empty; otherwise the merged headers (the option's value wins), object metadata or `{}`, the first `file://` removed from the destination, and the three flags defaulted only when null |
| DownloaderSpec.Request | index.ts:208-212 | the option set sent to the engine: the normalised options with the configured progress interval; the metadata is carried as a value |
| DownloaderSpec.ApplyProgress | index.ts:87-92 | the registry views after a batch, records applied in order, each to the task registered under its id; characterised by `ProgressOutcome` |
| DownloaderSpec.ProgressTrace | index.ts:87-92 | the handler calls of a batch, in record order: never more than one per record; characterised by `ProgressTraceCalls` |
| DownloaderSpec.ProgressStep | index.ts:87-92 | one more record of a batch updates only its registered task's counters and appends that task's progress call |
| DownloaderSpec.ProgressOutcome | index.ts:85-93 | a batch keeps the registered ids, ignores records for unregistered ids, and leaves each task with the counters of its last record; state, metadata and handlers are kept |
| DownloaderSpec.ProgressTraceCalls | index.ts:85-93 | a batch calls only progress handlers of the tasks it names, each with one record's counters, and calls once per record when every record names a task with a handler |
| DownloaderSpec.Classify | index.ts:133-146 | running gives DOWNLOADING, suspended PAUSED, canceling stop-and-drop, completed gives DONE with equal counters and drop otherwise, any other code PENDING; both directions hold when the codes are distinct, and FAILED and STOPPED never appear |
| DownloaderSpec.Survivors | index.ts:128-149 | the `map`-then-`filter` result as a fold: the kept entries in input order with their mapped states; characterised by `SurvivorsSpec` |
| DownloaderSpec.SurvivorsSpec | index.ts:128-149 | the survivors are the kept entries of the input, each with its mapped state, none FAILED or STOPPED, no more than the entries; every kept entry survives |
| DownloaderSpec.SurvivorIds | index.ts:147 | an id is registered by reconciliation exactly when some survivor carries it |
| DownloaderSpec.CancelCalls | index.ts:137-139 | the stop calls of reconciliation: at most one per entry, each a `stopTask` for the id of a canceling entry |
| DownloaderSpec.ReconcileWarnings | index.ts:130 | the parse warnings of reconciliation: at most one per entry, each the metadata-parse warning |
| DownloaderSpec.ReconcileOne | index.ts:130-147 | the registry after the callback sees one entry: a kept entry's task, carrying the handlers then registered under its id, replaces that registration; a dropped entry changes nothing |
| DownloaderSpec.Reconcile | index.ts:128-149 | the registry after all entries, seen in order; characterised by `ReconcileFrame` and `ReconcileLastWins` |
| DownloaderSpec.ReconcileStep | index.ts:128-149 | one more entry extends the registry, the survivors, the stop calls and the parse warnings by that entry's share |
| DownloaderSpec.ReconcileFrame | index.ts:128-149 | reconciliation registers exactly the survivor ids on top of the old ids, leaves every other registration alone, and every registered task has the handlers previously registered under its id |
| DownloaderSpec.ReconcileLastWins | index.ts:130-147 | for each id, the last surviving entry wins: the registered task is built from it, with the handlers registered under that id before |
| DownloaderSpec.KickCalls | index.ts:157-161 | the calls of the re-kick loop over the survivors, in order; characterised by `KickCallsPaired` |
| DownloaderSpec.KickStep | index.ts:157-161 | one more reconciled task adds its pause and resume calls, when it is DOWNLOADING, after the earlier ones |
| DownloaderSpec.KickCallsPaired | index.ts:157-161 | the re-kick calls come in pairs, `pauseTask(id)` immediately followed by `resumeTask(id)`, each for a DOWNLOADING survivor |
| DownloaderSpec.ReconcileExample | index.ts:133-149 | running, suspended, canceling and completed-with-matching-counts yield three tasks (DOWNLOADING, PAUSED, DONE) and one stop call |
| Downloader.DownloadOptions.constructor | index.ts:174-184 | an options object holds the given fields |
| Downloader.DownloadOptions.Normalise | index.ts:191-200 | the object is rewritten in place to exactly its normalised form |
| Downloader.LastRegisteredStep | index.ts:147 | registering the newest reconstruction keeps the last reconstruction of every id registered |
| Downloader.BackgroundDownloader.constructor | index.ts:18-72 | module load: requires the constants loader to succeed (it throws otherwise) and takes its constants; an empty registry and the default config (interval 1000, headers `{}`, logging off) |
| Downloader.BackgroundDownloader.OnDownloadBegin | index.ts:79-83 | only the task registered under the id moves to DOWNLOADING and gets its begin call; an unknown id changes nothing; the registry keeps its ids |
| Downloader.BackgroundDownloader.DeliverProgress | index.ts:88-91 | one record: only its registered task takes the counters and makes its progress call |
| Downloader.BackgroundDownloader.OnDownloadProgress | index.ts:85-93 | the registry after a batch is `ApplyProgress` of the batch, and the handler calls are `ProgressTrace` of it |
| Downloader.BackgroundDownloader.OnDownloadComplete | index.ts:95-101 | the registered task, if any, becomes DONE with the event's counters and its done handler gets the event's fields other than `id`; the id is deleted either way (handlers are assumed to return), and the other tasks are untouched; the event's counters are required to agree with `bytesDownloaded` and `bytesTotal` in the payload, where it carries them |
| Downloader.BackgroundDownloader.OnDownloadFailed | index.ts:103-109 | the registered task, if any, becomes FAILED and gets its error call; the id is deleted either way (handlers are assumed to return), and the other tasks are untouched |
| Downloader.BackgroundDownloader.SetConfig | index.ts:111-121 | the config becomes `ConfigAfter` of the arguments and stays valid; the warnings are `IntervalWarnings` |
| Downloader.BackgroundDownloader.CompleteHandler | index.ts:165-172 | a given id is forwarded to the engine; a missing id writes one warning and calls nothing |
| Downloader.BackgroundDownloader.Download | index.ts:186-215 | without id, url or destination it throws and changes nothing; otherwise the options are normalised in place, a fresh PENDING task is registered under the id (replacing any earlier one), and one native `download` is issued with the configured interval |
| Downloader.BackgroundDownloader.Reconstruct | index.ts:130-146 | the task for one entry exists exactly when the mapping keeps it, with the mapped state and the handlers of the task previously registered under the id; a canceling entry issues one stop call |
| Downloader.BackgroundDownloader.ReconcileEntry | index.ts:128-148 | the registry becomes `ReconcileOne` of the entry; a kept entry's fresh task is registered under its id; no existing task changes state |
| Downloader.BackgroundDownloader.ReconcileNext | index.ts:128-149 | one entry of the `map`/`filter` keeps the registry equal to `Reconcile` of the prefix and the returned tasks paired with the survivors |
| Downloader.BackgroundDownloader.CheckForExistingDownloads | index.ts:123-151 | the registry becomes `Reconcile` of the engine's list; the returned fresh tasks match the survivors one for one in id and state; each id's last reconstruction is the one registered; the stop calls and warnings are `CancelCalls` and `ReconcileWarnings` |
| Downloader.BackgroundDownloader.Rekick | index.ts:158-161 | pause then resume leaves a DOWNLOADING task and the registry as they were, and issues exactly `pauseTask(id)`, `resumeTask(id)` |
| Downloader.BackgroundDownloader.EnsureDownloadsAreRunning | index.ts:153-163 | reconciles as above, then adds exactly `KickCalls` of the survivors: one pause and resume per DOWNLOADING task |

## Left out

- Logging (`log`, `config.isLogsEnabled` being read) and the console: only the three warnings the layer writes are recorded, as values, not as text.
- The choice of the native module between TurboModule and legacy bridge, and the event emitter set-up: the listeners are methods called with an event's fields.
- The `console.warn` when `getConstants` throws: `LoadConstants` takes the getter's result as `None`.
- `directories.documents` and the rest of the module's exports that only re-export the constants.
- The engine itself and the native sources (Android and iOS): every call into it is a logged value.
- Promise asynchrony: `checkForExistingDownloads` takes the engine's list as an argument and runs the callback at once.
- `JSON.stringify` of the metadata sent to the engine: the request carries the value.
- `JSON.parse` is a parameter; its grammar is not modelled.
- The spread of a string or other non-object into headers: `Spread` gives no properties for anything but an object.
- The property order of merged headers: objects are maps.
- Non-string `id`, `url` or `destination` options: they are modelled as present or missing strings.
- `setConfig()` called without an argument, which throws on destructuring `undefined`.
- Infinity and other non-finite numbers except NaN.
- The types of event payload fields: the counters of progress and complete events are integers, passed to the listeners beside the payload; where a done payload also carries them, `CarriesCounters` requires it to agree with them. A missing or non-numeric counter is not modelled.
- Re-entrancy: handlers are opaque tokens and are assumed not to call back into the downloader.
- Aliasing of objects the layer keeps: the config headers and a task's metadata are held by value. In the source, `setConfig` keeps the caller's headers object itself (`index.ts:112`), and each later `download` spreads its contents at that moment (`index.ts:191`). A new task's metadata is the caller's own `options.metadata` object (`index.ts:193-194`, `202-205`, `lib/DownloadTask.ts:130-132`). Writes by user code to such objects after the call are not modelled. Neither are writes to a task's public fields: `id` is a `const` here, though writable in the source (`lib/DownloadTask.ts:18`), and the registry invariant relies on it.
- Exceptions from user handlers and from `JSON.stringify`: both are assumed to return normally. If one throws, the source behaves differently, and the model does not capture it:
  - a throwing done or error handler skips `tasksMap.delete(id)` (`index.ts:98-100`, `106-108`), so "the id is deleted either way" in `OnDownloadComplete` and `OnDownloadFailed` holds only for handlers that return;
  - a throwing progress handler drops the rest of the batch (`index.ts:87-92`);
  - a throwing `JSON.stringify` (cyclic metadata, for example) makes `download` throw after `tasksMap.set` (`index.ts:206`, then `210`), leaving the task registered with no native download issued.
- DownloadTasks.DownloadTask.SetHandler: clearing removes the slot from the map where the source stores `undefined` in it; the slot reads the same either way.
- Downloader.DownloadOptions.Normalise: writes each flag back even when it is not null, with its own value, where the source skips the assignment.
- Downloader.BackgroundDownloader.CheckForExistingDownloads: states id, state and effect log of each returned task, not its whole view; the whole view of each registered task is stated through `Views()`.
- Steps of inline code as methods: the `map` callback is split into `Reconstruct` (building the task) and `ReconcileEntry` (registering it), and the `filter` into `ReconcileNext`; the progress loop body is `DeliverProgress` and the re-kick loop body `Rekick`.
