/**
 * The module-level state of index.ts: the registry `tasksMap`, the `config`
 * object, the four event listeners and the public facade.
 */
module Downloader {
  import opened Wrappers
  import opened JsValues
  import opened Native
  import opened DownloadTasks
  import opened DownloaderSpec

  /** A caller's `DownloadOptions` object, which `download` rewrites in place. */
  class DownloadOptions {
    var id: Option<string>
    var url: Option<string>
    var destination: Option<string>
    var headers: JsValue
    var metadata: JsValue
    var isAllowedOverRoaming: JsValue
    var isAllowedOverMetered: JsValue
    var isNotificationVisible: JsValue
    var notificationTitle: JsValue

    constructor (v: OptionsValue)
      ensures Value() == v
    {
      id, url, destination := v.id, v.url, v.destination;
      headers, metadata := v.headers, v.metadata;
      isAllowedOverRoaming, isAllowedOverMetered := v.isAllowedOverRoaming, v.isAllowedOverMetered;
      isNotificationVisible, notificationTitle := v.isNotificationVisible, v.notificationTitle;
    }

    function Value(): OptionsValue
      reads this
    {
      OptionsValue(id, url, destination, headers, metadata,
                   isAllowedOverRoaming, isAllowedOverMetered, isNotificationVisible, notificationTitle)
    }
    /**
     * The in-place rewrite `download` performs once id, url and destination
     * are present: merged headers, object metadata, the scheme stripped from
     * the destination and the three flags defaulted.
     */
    method Normalise(defaultHeaders: JsValue)
      requires Present(id) && Present(url) && Present(destination)
      modifies this
      ensures Normalised(old(Value()), defaultHeaders) == Success(Value())
    {
      headers := Obj(MergeProps(Spread(defaultHeaders), Spread(headers)));
      TruthyObject(metadata);
      if !(Truthy(metadata) && TypeOf(metadata) == "object") {
        metadata := Obj(map[]);
      }
      destination := Some(ReplaceFirst(destination.value, FileScheme, ""));
      // `x == null` holds for null and undefined alike: each flag defaults only when missing
      isAllowedOverRoaming := DefaultFlag(isAllowedOverRoaming, true);
      isAllowedOverMetered := DefaultFlag(isAllowedOverMetered, true);
      isNotificationVisible := DefaultFlag(isNotificationVisible, false);
    }
  }

  /** No task after position `k` of `r` has the id of `r[k]`. */
  predicate LastOfTaskId(r: seq<DownloadTask>, k: nat)
    requires k < |r|
  {
    forall j :: k < j < |r| ==> r[j].id != r[k].id
  }

  /**
   * Each task of `r` that no later task of `r` shares its id with is the one
   * `tasks` holds under that id: the last reconstruction of an id wins.
   */
  ghost predicate LastRegistered(tasks: map<string, DownloadTask>, r: seq<DownloadTask>) {
    forall i :: 0 <= i < |r| && LastOfTaskId(r, i) ==> r[i].id in tasks && tasks[r[i].id] == r[i]
  }

  /** Registering the last task of `r` under its id keeps the last reconstruction of every id registered. */
  lemma LastRegisteredStep(tasks: map<string, DownloadTask>, r: seq<DownloadTask>, task: DownloadTask)
    requires LastRegistered(tasks, r)
    ensures LastRegistered(tasks[task.id := task], r + [task])
  {
    var r' := r + [task];
    var t' := tasks[task.id := task];
    forall k | 0 <= k < |r'| && LastOfTaskId(r', k)
      ensures r'[k].id in t' && t'[r'[k].id] == r'[k]
    {
      if k < |r| {
        assert r'[k] == r[k];
        assert task.id != r[k].id by { assert r'[|r|] == task; }
        assert LastOfTaskId(r, k) by {
          forall j | k < j < |r| ensures r[j].id != r[k].id {
            assert r'[j] == r[j];
          }
        }
      }
    }
  }

  /** The view of every task of a registry. */
  ghost function ViewsOf(tasks: map<string, DownloadTask>): map<string, TaskView>
    reads tasks.Values
  {
    map id | id in tasks :: tasks[id].View()
  }

  /** A registry whose tasks show, id by id, the views of `m` has `m` as its views. */
  lemma ViewsOfPointwise(tasks: map<string, DownloadTask>, m: map<string, TaskView>)
    requires forall k :: k in m <==> k in tasks
    requires forall k :: k in tasks ==> tasks[k].View() == m[k]
    ensures ViewsOf(tasks) == m
  {
  }

  class BackgroundDownloader {
    /** `tasksMap`. */
    var tasks: map<string, DownloadTask>
    /** `config`. */
    var config: Config
    /** The engine's constants, loaded once (see DownloaderSpec.LoadConstants). */
    const constants: NativeConstants
    const effects: Effects
    /** `JSON.parse`, with `None` for a string that does not parse. */
    const parse: string -> Option<JsValue>

    /**
     * Every registered task is registered under its own id, so distinct ids
     * hold distinct task objects, and shares this layer's effect log; the
     * config keeps its interval floor.
     */
    ghost predicate Valid()
      reads this, tasks.Values
    {
      && ConfigValid(config)
      && forall id :: id in tasks ==> tasks[id].id == id && tasks[id].effects == effects
    }

    /** What the registry holds, task by task. */
    ghost function Views(): map<string, TaskView>
      reads this, tasks.Values
    {
      ViewsOf(tasks)
    }

    /**
     * Module load: the constants loader must succeed (otherwise loading
     * throws), then an empty registry and the default config.
     */
    constructor (fromGetter: Option<NativeConstants>, legacy: LegacyFields,
                 effects: Effects, parse: string -> Option<JsValue>)
      requires LoadConstants(fromGetter, legacy).Success?
      ensures Valid()
      ensures tasks == map[] && config == DefaultConfig
      ensures constants == LoadConstants(fromGetter, legacy).value && this.effects == effects && this.parse == parse
    {
      tasks := map[];
      config := DefaultConfig;
      constants := LoadConstants(fromGetter, legacy).value;
      this.effects := effects;
      this.parse := parse;
    }

    /** The `downloadBegin` listener: the registered task, if any, gets `onBegin` with the event's other fields. */
    method OnDownloadBegin(id: string, rest: Payload)
      requires Valid()
      modifies tasks.Values, effects
      ensures Valid() && tasks == old(tasks) && config == old(config)
      ensures Views() == if id in old(tasks)
                         then old(Views())[id := old(Views())[id].(state := Transition(old(Views())[id].state, BeginEvent))]
                         else old(Views())
      ensures effects.invocations == old(effects.invocations)
                + (if id in old(tasks) then Dispatch(old(tasks[id].handlers), BeginHandler, rest) else [])
      ensures effects.nativeCalls == old(effects.nativeCalls) && effects.warnings == old(effects.warnings)
    {
      if id in tasks {
        var task := tasks[id];
        ghost var v0 := Views();
        task.OnBegin(rest);
        forall k | k in tasks
          ensures tasks[k].View() == v0[id := v0[id].(state := Transition(v0[id].state, BeginEvent))][k]
        {
          if k != id {
            assert tasks[k].id != task.id;
          }
        }
        ViewsOfPointwise(tasks, v0[id := v0[id].(state := Transition(v0[id].state, BeginEvent))]);
      }
    }

    /** One record of a `downloadProgress` batch: the registered task, if any, gets `onProgress` with its counters. */
    method DeliverProgress(rec: ProgressRecord)
      requires Valid()
      modifies tasks.Values, effects
      ensures Valid()
      ensures Views() == if rec.id in old(Views())
                         then old(Views())[rec.id := old(Views())[rec.id].(bytesDownloaded := rec.bytesDownloaded, bytesTotal := rec.bytesTotal)]
                         else old(Views())
      ensures effects.invocations == old(effects.invocations)
                + (if rec.id in old(Views())
                   then Dispatch(old(Views())[rec.id].handlers, ProgressHandler, BytesPayload(rec.bytesDownloaded, rec.bytesTotal))
                   else [])
      ensures effects.nativeCalls == old(effects.nativeCalls) && effects.warnings == old(effects.warnings)
    {
      if rec.id in tasks {
        var task := tasks[rec.id];
        ghost var v0 := Views();
        task.OnProgress(rec.bytesDownloaded, rec.bytesTotal);
        forall k | k in tasks
          ensures tasks[k].View() == v0[rec.id := v0[rec.id].(bytesDownloaded := rec.bytesDownloaded, bytesTotal := rec.bytesTotal)][k]
        {
          if k != rec.id {
            assert tasks[k].id != task.id;
          }
        }
        ViewsOfPointwise(tasks, v0[rec.id := v0[rec.id].(bytesDownloaded := rec.bytesDownloaded, bytesTotal := rec.bytesTotal)]);
      }
    }

    /** The `downloadProgress` listener: the records of the batch, in order, each to its registered task. */
    method OnDownloadProgress(batch: seq<ProgressRecord>)
      requires Valid()
      modifies tasks.Values, effects
      ensures Valid() && tasks == old(tasks) && config == old(config)
      ensures Views() == ApplyProgress(old(Views()), batch)
      ensures effects.invocations == old(effects.invocations) + ProgressTrace(batch, old(Views()))
      ensures effects.nativeCalls == old(effects.nativeCalls) && effects.warnings == old(effects.warnings)
    {
      ghost var v0 := Views();
      for i := 0 to |batch|
        invariant Valid()
        invariant Views() == ApplyProgress(v0, batch[..i])
        invariant effects.invocations == old(effects.invocations) + ProgressTrace(batch[..i], v0)
        invariant effects.nativeCalls == old(effects.nativeCalls) && effects.warnings == old(effects.warnings)
      {
        ProgressStep(v0, batch, i, old(effects.invocations));
        ProgressOutcome(v0, batch[..i]);
        DeliverProgress(batch[i]);
      }
      assert batch[..|batch|] == batch;
    }

    /**
     * The `downloadComplete` listener, given the event's fields other than `id`
     * as `rest` and its two counters: the registered task, if any, gets
     * `onDone`; the id is deleted either way.
     */
    method OnDownloadComplete(id: string, rest: Payload, bytesDownloaded: int, bytesTotal: int)
      requires Valid() && CarriesCounters(rest, bytesDownloaded, bytesTotal)
      modifies this`tasks, tasks.Values, effects
      ensures Valid() && tasks == old(tasks) - {id} && config == old(config)
      ensures Views() == old(Views()) - {id}
      ensures id in old(tasks) ==>
                old(tasks)[id].View() == old(tasks[id].View()).(state := Transition(old(tasks[id].state), DoneEvent),
                                                             bytesDownloaded := bytesDownloaded, bytesTotal := bytesTotal)
      ensures effects.invocations == old(effects.invocations)
                + (if id in old(tasks) then Dispatch(old(tasks[id].handlers), DoneHandler, rest) else [])
      ensures effects.nativeCalls == old(effects.nativeCalls) && effects.warnings == old(effects.warnings)
      ensures id !in old(tasks) ==> tasks == old(tasks) && effects.invocations == old(effects.invocations)
    {
      ghost var v0 := Views();
      if id in tasks {
        var task := tasks[id];
        task.OnDone(rest, bytesDownloaded, bytesTotal);
        forall k | k in tasks && k != id
          ensures tasks[k].View() == v0[k]
        {
          assert tasks[k].id != task.id;
        }
      }
      tasks := tasks - {id};
      ViewsOfPointwise(tasks, v0 - {id});
    }

    /** The `downloadFailed` listener: the registered task, if any, gets `onError`; the id is deleted either way. */
    method OnDownloadFailed(id: string, rest: Payload)
      requires Valid()
      modifies this`tasks, tasks.Values, effects
      ensures Valid() && tasks == old(tasks) - {id} && config == old(config)
      ensures Views() == old(Views()) - {id}
      ensures id in old(tasks) ==>
                old(tasks)[id].View() == old(tasks[id].View()).(state := Transition(old(tasks[id].state), ErrorEvent))
      ensures effects.invocations == old(effects.invocations)
                + (if id in old(tasks) then Dispatch(old(tasks[id].handlers), ErrorHandler, rest) else [])
      ensures effects.nativeCalls == old(effects.nativeCalls) && effects.warnings == old(effects.warnings)
      ensures id !in old(tasks) ==> tasks == old(tasks) && effects.invocations == old(effects.invocations)
    {
      ghost var v0 := Views();
      if id in tasks {
        var task := tasks[id];
        task.OnError(rest);
        forall k | k in tasks && k != id
          ensures tasks[k].View() == v0[k]
        {
          assert tasks[k].id != task.id;
        }
      }
      tasks := tasks - {id};
      ViewsOfPointwise(tasks, v0 - {id});
    }

    /** `setConfig({ headers, progressInterval, isLogsEnabled })`; a missing field is `Undefined`. */
    method SetConfig(headers: JsValue, progressInterval: JsValue, isLogsEnabled: JsValue)
      requires Valid()
      modifies this`config, effects
      ensures Valid() && tasks == old(tasks)
      ensures config == ConfigAfter(old(config), headers, progressInterval, isLogsEnabled)
      ensures effects.warnings == old(effects.warnings) + IntervalWarnings(progressInterval)
      ensures effects.nativeCalls == old(effects.nativeCalls) && effects.invocations == old(effects.invocations)
    {
      if TypeOf(headers) == "object" {
        config := config.(headers := headers);
      }
      if !IsNullish(progressInterval) {
        // NaN is a number, but compares false with the floor
        if TypeOf(progressInterval) == "number" && progressInterval.Num? && progressInterval.n >= MinProgressInterval {
          config := config.(progressInterval := progressInterval.n);
        } else {
          effects.Warn(ProgressIntervalRejected);
        }
      }
      if TypeOf(isLogsEnabled) == "boolean" {
        config := config.(isLogsEnabled := isLogsEnabled.b);
      }
    }

    /** `completeHandler(jobId)`: forwarded to the engine, or a warning and nothing else when the id is null or undefined. */
    method CompleteHandler(jobId: Option<string>)
      modifies effects
      ensures jobId.Some? ==> effects.nativeCalls == old(effects.nativeCalls) + [NativeCall.CompleteHandler(jobId.value)]
                              && effects.warnings == old(effects.warnings)
      ensures jobId.None? ==> effects.nativeCalls == old(effects.nativeCalls)
                              && effects.warnings == old(effects.warnings) + [CompleteHandlerWithoutId]
      ensures effects.invocations == old(effects.invocations)
    {
      if jobId.None? {
        effects.Warn(CompleteHandlerWithoutId);
        return;
      }
      effects.Call(NativeCall.CompleteHandler(jobId.value));
    }

    /**
     * `download(options)`: throws, changing nothing, without an id, url or
     * destination; otherwise rewrites `options` into their normalised form,
     * registers a fresh PENDING task under the id (replacing any earlier one),
     * starts the native download and returns the task.
     */
    method Download(options: DownloadOptions) returns (r: Result<DownloadTask, JsError>)
      requires Valid()
      modifies this`tasks, options, effects
      ensures Valid() && config == old(config)
      ensures var n := Normalised(old(options.Value()), old(config.headers));
              n.Failure? ==>
                && r == Failure(n.error) && tasks == old(tasks) && options.Value() == old(options.Value())
                && effects.nativeCalls == old(effects.nativeCalls)
      ensures var n := Normalised(old(options.Value()), old(config.headers));
              n.Success? ==>
                && r.Success? && fresh(r.value) && r.value.effects == effects
                && options.Value() == n.value
                && tasks == old(tasks)[n.value.id.value := r.value]
                && r.value.View() == TaskView(n.value.id.value, Pending, n.value.metadata, 0, 0, map[])
                && effects.nativeCalls == old(effects.nativeCalls) + [StartDownload(Request(n.value, config.progressInterval))]
      ensures effects.invocations == old(effects.invocations) && effects.warnings == old(effects.warnings)
    {
      if !Present(options.id) || !Present(options.url) || !Present(options.destination) {
        return Failure(Error(RequiredFieldsMessage));
      }
      options.Normalise(config.headers);
      var task := new DownloadTask(TaskInfo(options.id.value, options.metadata, None, None), null, effects, parse);
      tasks := tasks[options.id.value := task];
      effects.Call(StartDownload(Request(options.Value(), config.progressInterval)));
      r := Success(task);
    }

    /**
     * The task the `foundTasks.map` callback builds for one native entry,
     * taking over the handlers of `original`, with the state the entry's
     * native state gives it; `null` for an entry that is dropped, after
     * stopping it when the engine was canceling it.
     */
    method Reconstruct(info: ExistingDownload, original: DownloadTask?) returns (r: DownloadTask?)
      modifies effects
      ensures (r != null) == Classify(info, constants).Keep?
      ensures r != null ==> && fresh(r) && r.id == info.id && r.effects == effects
                            && r.View() == ReconciledView(Survivor(info, Classify(info, constants).state), parse,
                                                          if original == null then map[] else old(original.handlers))
      ensures effects.nativeCalls == old(effects.nativeCalls)
                + (if Classify(info, constants) == StopAndDrop then [StopTask(info.id)] else [])
      ensures effects.warnings == old(effects.warnings) + ParseWarnings(Str(info.metadata), parse)
      ensures effects.invocations == old(effects.invocations)
    {
      var task := new DownloadTask(TaskInfo(info.id, Str(info.metadata), Some(info.bytesDownloaded), Some(info.bytesTotal)),
                                   original, effects, parse);
      if info.state == constants.taskRunning {
        task.state := Downloading;
      } else if info.state == constants.taskSuspended {
        task.state := Paused;
      } else if info.state == constants.taskCanceling {
        task.Stop();
        return null;
      } else if info.state == constants.taskCompleted {
        if info.bytesDownloaded == info.bytesTotal {
          task.state := TaskState.Done;
        } else {
          // the engine completed the download without all its bytes
          return null;
        }
      }
      r := task;
    }

    /** The `foundTasks.map` callback for one native entry: the reconstructed task is registered under its id. */
    method ReconcileEntry(info: ExistingDownload) returns (r: DownloadTask?)
      requires Valid()
      modifies this`tasks, effects
      ensures Valid()
      ensures forall t: DownloadTask :: old(allocated(t)) ==> t.state == old(t.state)
      ensures Views() == ReconcileOne(old(Views()), info, constants, parse)
      ensures (r != null) == Classify(info, constants).Keep?
      ensures r != null ==> && fresh(r) && r.id == info.id && r.effects == effects
                            && r.state == Classify(info, constants).state
                            && tasks == old(tasks)[info.id := r]
      ensures r == null ==> tasks == old(tasks)
      ensures effects.nativeCalls == old(effects.nativeCalls)
                + (if Classify(info, constants) == StopAndDrop then [StopTask(info.id)] else [])
      ensures effects.warnings == old(effects.warnings) + ParseWarnings(Str(info.metadata), parse)
      ensures effects.invocations == old(effects.invocations)
    {
      ghost var v0 := Views();
      var original: DownloadTask? := if info.id in tasks then tasks[info.id] else null;
      assert (if original == null then map[] else original.handlers) == HandlersOf(v0, info.id);
      var task := Reconstruct(info, original);
      if task == null {
        return null;
      }
      ghost var prev := tasks;
      tasks := tasks[info.id := task];
      forall k | k in tasks
        ensures tasks[k].View() == v0[info.id := task.View()][k]
      {
        if k != info.id {
          assert tasks[k] == prev[k];
        }
      }
      ViewsOfPointwise(tasks, v0[info.id := task.View()]);
      r := task;
    }

    /** `task` is the reconstruction of `survivor`, sharing this layer's effect log. */
    predicate Rebuilds(task: DownloadTask, survivor: Survivor)
      reads task`state
    {
      task.effects == effects && task.id == survivor.entry.id && task.state == survivor.state
    }

    /** Appending a reconstruction and its survivor keeps the tasks and survivors paired. */
    lemma RebuildsAppend(r: seq<DownloadTask>, s: seq<Survivor>, task: DownloadTask, survivor: Survivor)
      requires |r| == |s| && forall k :: 0 <= k < |r| ==> Rebuilds(r[k], s[k])
      requires Rebuilds(task, survivor)
      ensures forall k :: 0 <= k < |r| + 1 ==> Rebuilds((r + [task])[k], (s + [survivor])[k])
    {
      forall k | 0 <= k < |r| + 1
        ensures Rebuilds((r + [task])[k], (s + [survivor])[k])
      {
        if k < |r| {
          assert (r + [task])[k] == r[k] && (s + [survivor])[k] == s[k];
        }
      }
    }

    /**
     * One element of `foundTasks.map(...).filter(task => !!task)`: entry `i`
     * of `found` is reconciled and its task, when it survives, appended to
     * the tasks `r` kept from the entries before it.
     */
    method ReconcileNext(ghost v0: map<string, TaskView>, found: seq<ExistingDownload>, i: nat, r: seq<DownloadTask>,
                         ghost s: seq<Survivor>, ghost calls: seq<NativeCall>, ghost warnings: seq<Warning>)
      returns (r': seq<DownloadTask>, ghost s': seq<Survivor>)
      requires Valid() && i < |found|
      requires Views() == Reconcile(v0, found[..i], constants, parse)
      requires s == Survivors(found[..i], constants) && |r| == |s|
      requires forall k :: 0 <= k < |r| ==> Rebuilds(r[k], s[k])
      requires LastRegistered(tasks, r)
      requires effects.nativeCalls == calls + CancelCalls(found[..i], constants)
      requires effects.warnings == warnings + ReconcileWarnings(found[..i], parse)
      modifies this`tasks, effects
      ensures Valid()
      ensures Views() == Reconcile(v0, found[..i + 1], constants, parse)
      ensures s' == Survivors(found[..i + 1], constants) && |r'| == |s'|
      ensures forall k :: 0 <= k < |r'| ==> Rebuilds(r'[k], s'[k])
      ensures LastRegistered(tasks, r')
      ensures forall t :: t in r' ==> t in r || fresh(t)
      ensures effects.nativeCalls == calls + CancelCalls(found[..i + 1], constants)
      ensures effects.warnings == warnings + ReconcileWarnings(found[..i + 1], parse)
      ensures effects.invocations == old(effects.invocations)
    {
      ReconcileStep(v0, found, i, constants, parse, calls, warnings);
      ghost var pre := tasks;
      var task := ReconcileEntry(found[i]);
      forall k | 0 <= k < |r|
        ensures Rebuilds(r[k], s[k])
      {
        assert r[k].state == old(r[k].state);
      }
      r', s' := r, s;
      if task != null {
        LastRegisteredStep(pre, r, task);
        r' := r + [task];
        s' := s + [Survivor(found[i], Classify(found[i], constants).state)];
        RebuildsAppend(r, s, task, s'[|s|]);
      }
    }

    /** `checkForExistingDownloads`, given the engine's answer `found`. */
    method CheckForExistingDownloads(found: seq<ExistingDownload>) returns (r: seq<DownloadTask>)
      requires Valid()
      modifies this`tasks, effects
      ensures Valid() && config == old(config)
      ensures Views() == Reconcile(old(Views()), found, constants, parse)
      ensures |r| == |Survivors(found, constants)|
      ensures forall t :: t in r ==> fresh(t)
      ensures forall k :: 0 <= k < |r| ==> Rebuilds(r[k], Survivors(found, constants)[k])
      ensures LastRegistered(tasks, r)
      ensures effects.nativeCalls == old(effects.nativeCalls) + CancelCalls(found, constants)
      ensures effects.warnings == old(effects.warnings) + ReconcileWarnings(found, parse)
      ensures effects.invocations == old(effects.invocations)
    {
      ghost var v0 := Views();
      ghost var s: seq<Survivor> := [];
      r := [];
      for i := 0 to |found|
        invariant Valid()
        invariant Views() == Reconcile(v0, found[..i], constants, parse)
        invariant s == Survivors(found[..i], constants) && |r| == |s|
        invariant forall k :: 0 <= k < |r| ==> Rebuilds(r[k], s[k])
        invariant forall t :: t in r ==> fresh(t)
        invariant LastRegistered(tasks, r)
        invariant effects.nativeCalls == old(effects.nativeCalls) + CancelCalls(found[..i], constants)
        invariant effects.warnings == old(effects.warnings) + ReconcileWarnings(found[..i], parse)
        invariant effects.invocations == old(effects.invocations)
      {
        r, s := ReconcileNext(v0, found, i, r, s, old(effects.nativeCalls), old(effects.warnings));
      }
      assert found[..|found|] == found;
    }

    /** The loop body of `ensureDownloadsAreRunning` for a DOWNLOADING task: `pause()`, then `resume()`. */
    method Rekick(task: DownloadTask)
      requires task.effects == effects && task.state == Downloading
      modifies task`state, effects
      ensures task.state == Downloading && Views() == old(Views())
      ensures effects.nativeCalls == old(effects.nativeCalls) + [PauseTask(task.id), ResumeTask(task.id)]
      ensures effects.invocations == old(effects.invocations) && effects.warnings == old(effects.warnings)
    {
      ghost var v := task.View();
      ghost var views := Views();
      task.Pause();
      task.Resume();
      assert task.View() == v;
      forall id | id in tasks
        ensures tasks[id].View() == views[id]
      {
      }
      ViewsOfPointwise(tasks, views);
    }

    /** `ensureDownloadsAreRunning`: reconciles, then pauses and resumes every reconciled DOWNLOADING task. */
    method EnsureDownloadsAreRunning(found: seq<ExistingDownload>)
      requires Valid()
      modifies this`tasks, effects
      ensures Valid() && config == old(config)
      ensures Views() == Reconcile(old(Views()), found, constants, parse)
      ensures effects.nativeCalls == old(effects.nativeCalls) + CancelCalls(found, constants)
                                     + KickCalls(Survivors(found, constants))
      ensures effects.warnings == old(effects.warnings) + ReconcileWarnings(found, parse)
      ensures effects.invocations == old(effects.invocations)
    {
      var reconciled := CheckForExistingDownloads(found);
      ghost var s := Survivors(found, constants);
      ghost var registry := tasks;
      ghost var views := Views();
      ghost var calls := effects.nativeCalls;
      for i := 0 to |reconciled|
        invariant tasks == registry && Views() == views
        invariant forall t :: t in reconciled ==> fresh(t)
        invariant forall k :: 0 <= k < |reconciled| ==> Rebuilds(reconciled[k], s[k])
        invariant effects.nativeCalls == calls + KickCalls(s[..i])
        invariant effects.warnings == old(effects.warnings) + ReconcileWarnings(found, parse)
        invariant effects.invocations == old(effects.invocations)
      {
        KickStep(s, i, calls);
        var task := reconciled[i];
        assert task in reconciled;
        if task.state == Downloading {
          Rekick(task);
          forall k | 0 <= k < |reconciled|
            ensures Rebuilds(reconciled[k], s[k])
          {
          }
        }
      }
      assert s[..|reconciled|] == s;
    }
  }
}
