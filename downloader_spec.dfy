/**
 * The pure part of index.ts: the constants loader, the configuration rules,
 * the option normaliser of `download`, the progress-batch fold and the
 * status-code mapping of `checkForExistingDownloads`, with their properties.
 */
module DownloaderSpec {
  import opened Wrappers
  import opened JsValues
  import opened Native
  import opened DownloadTasks

  const MinProgressInterval: real := 250.0
  const DefaultProgressInterval: real := 1000.0
  const FileScheme: string := "file://"
  const RequiredFieldsMessage: string := "[RNBackgroundDownloader] id, url and destination are required"
  const MissingConstantsMessage: string := "[RNBackgroundDownloader] Native module constants are not available"

  // ---------------------------------------------------------------------------
  // Native constants

  /** The five constants as read off a legacy native module; `None` is a null or missing field. */
  datatype LegacyFields = LegacyFields(
    documents: Option<string>, taskRunning: Option<int>, taskSuspended: Option<int>,
    taskCanceling: Option<int>, taskCompleted: Option<int>)

  /** `getLegacyConstants`: all five fields must be present, otherwise module loading throws. */
  function LegacyConstants(f: LegacyFields): (r: Result<NativeConstants, JsError>)
    ensures r.Success? <==> f.documents.Some? && f.taskRunning.Some? && f.taskSuspended.Some?
                            && f.taskCanceling.Some? && f.taskCompleted.Some?
    ensures r.Success? ==> r.value == NativeConstants(f.documents.value, f.taskRunning.value,
                                        f.taskSuspended.value, f.taskCanceling.value, f.taskCompleted.value)
    ensures r.Failure? ==> r.error == Error(MissingConstantsMessage)
  {
    if f.documents.None? || f.taskRunning.None? || f.taskSuspended.None?
       || f.taskCanceling.None? || f.taskCompleted.None?
    then Failure(Error(MissingConstantsMessage))
    else Success(NativeConstants(f.documents.value, f.taskRunning.value,
                                 f.taskSuspended.value, f.taskCanceling.value, f.taskCompleted.value))
  }

  /**
   * The constants loader: what `getConstants()` returns when it returns an
   * object (`None` when it is missing, throws or returns a non-object),
   * otherwise the legacy fields.
   */
  function LoadConstants(fromGetter: Option<NativeConstants>, legacy: LegacyFields): (r: Result<NativeConstants, JsError>)
    ensures r.Failure? <==> fromGetter.None? && LegacyConstants(legacy).Failure?
    ensures fromGetter.Some? ==> r == Success(fromGetter.value)
    ensures fromGetter.None? ==> r == LegacyConstants(legacy)
  {
    if fromGetter.Some? then Success(fromGetter.value) else LegacyConstants(legacy)
  }

  // ---------------------------------------------------------------------------
  // Configuration

  /** The module-level `config` object. */
  datatype Config = Config(headers: JsValue, progressInterval: real, isLogsEnabled: bool)

  const DefaultConfig: Config := Config(Obj(map[]), DefaultProgressInterval, false)

  /** The configuration invariant: the interval never drops below the floor and the headers are `typeof 'object'`. */
  predicate ConfigValid(c: Config) {
    c.progressInterval >= MinProgressInterval && TypeOf(c.headers) == "object"
  }

  /** The interval `setConfig` accepts: a number at or above the floor. */
  function AcceptedInterval(v: JsValue): (r: Option<real>)
    ensures r.Some? <==> v.Num? && v.n >= MinProgressInterval
    ensures r.Some? ==> r.value == v.n
  {
    if TypeOf(v) == "number" && v.Num? && v.n >= MinProgressInterval then Some(v.n) else None
  }

  /** `setConfig({ headers, progressInterval, isLogsEnabled })` on the config. */
  function ConfigAfter(c: Config, headers: JsValue, progressInterval: JsValue, isLogsEnabled: JsValue): (r: Config)
    ensures ConfigValid(c) ==> ConfigValid(r)
    ensures r.headers == (if TypeOf(headers) == "object" then headers else c.headers)
    ensures r.progressInterval != c.progressInterval ==> progressInterval == Num(r.progressInterval) && r.progressInterval >= MinProgressInterval
    ensures AcceptedInterval(progressInterval).Some? ==> r.progressInterval == progressInterval.n
    ensures r.isLogsEnabled == (if isLogsEnabled.Bool? then isLogsEnabled.b else c.isLogsEnabled)
  {
    var c1 := if TypeOf(headers) == "object" then c.(headers := headers) else c;
    var c2 := if !IsNullish(progressInterval) && AcceptedInterval(progressInterval).Some?
              then c1.(progressInterval := AcceptedInterval(progressInterval).value) else c1;
    if TypeOf(isLogsEnabled) == "boolean" then c2.(isLogsEnabled := isLogsEnabled.b) else c2
  }

  /** The warning `setConfig` writes: a given interval that is not accepted. */
  function IntervalWarnings(progressInterval: JsValue): (r: seq<Warning>)
    ensures r != [] <==> !IsNullish(progressInterval) && AcceptedInterval(progressInterval).None?
    ensures r == [] || r == [ProgressIntervalRejected]
  {
    if !IsNullish(progressInterval) && AcceptedInterval(progressInterval).None? then [ProgressIntervalRejected] else []
  }

  // ---------------------------------------------------------------------------
  // download(options)

  /** The fields of a `DownloadOptions` object; a `None` string is a missing field. */
  datatype OptionsValue = OptionsValue(
    id: Option<string>, url: Option<string>, destination: Option<string>,
    headers: JsValue, metadata: JsValue,
    isAllowedOverRoaming: JsValue, isAllowedOverMetered: JsValue, isNotificationVisible: JsValue,
    notificationTitle: JsValue)

  /** A string field is truthy: present and non-empty. */
  predicate Present(x: Option<string>) {
    x.Some? && x.value != ""
  }

  /** `if (flag == null) flag = d`. */
  function DefaultFlag(v: JsValue, d: bool): (r: JsValue)
    ensures !IsNullish(r)
    ensures !IsNullish(v) ==> r == v
    ensures IsNullish(v) ==> r == Bool(d)
  {
    if IsNullish(v) then Bool(d) else v
  }

  /** What `download` turns the caller's options into, or the error it throws. */
  function Normalised(o: OptionsValue, defaultHeaders: JsValue): (r: Result<OptionsValue, JsError>)
    ensures r.Failure? <==> !Present(o.id) || !Present(o.url) || !Present(o.destination)
    ensures r.Failure? ==> r.error == Error(RequiredFieldsMessage)
    ensures r.Success? ==> r.value.id == o.id && r.value.url == o.url && r.value.notificationTitle == o.notificationTitle
    ensures r.Success? ==> r.value.headers.Obj?
    ensures r.Success? ==> r.value.headers.props.Keys == Spread(defaultHeaders).Keys + Spread(o.headers).Keys
    ensures r.Success? ==> forall k :: k in Spread(o.headers) ==> r.value.headers.props[k] == Spread(o.headers)[k]
    ensures r.Success? ==> forall k :: k in Spread(defaultHeaders) && k !in Spread(o.headers) ==>
              r.value.headers.props[k] == Spread(defaultHeaders)[k]
    ensures r.Success? ==> r.value.metadata == (if o.metadata.Obj? then o.metadata else Obj(map[]))
    ensures r.Success? ==> r.value.destination == Some(ReplaceFirst(o.destination.value, FileScheme, ""))
    ensures r.Success? ==> r.value.isAllowedOverRoaming == (if IsNullish(o.isAllowedOverRoaming) then Bool(true) else o.isAllowedOverRoaming)
    ensures r.Success? ==> r.value.isAllowedOverMetered == (if IsNullish(o.isAllowedOverMetered) then Bool(true) else o.isAllowedOverMetered)
    ensures r.Success? ==> r.value.isNotificationVisible == (if IsNullish(o.isNotificationVisible) then Bool(false) else o.isNotificationVisible)
  {
    if !Present(o.id) || !Present(o.url) || !Present(o.destination) then Failure(Error(RequiredFieldsMessage))
    else
      TruthyObject(o.metadata);
      Success(o.(
        headers := Obj(MergeProps(Spread(defaultHeaders), Spread(o.headers))),
        metadata := if Truthy(o.metadata) && TypeOf(o.metadata) == "object" then o.metadata else Obj(map[]),
        destination := Some(ReplaceFirst(o.destination.value, FileScheme, "")),
        isAllowedOverRoaming := DefaultFlag(o.isAllowedOverRoaming, true),
        isAllowedOverMetered := DefaultFlag(o.isAllowedOverMetered, true),
        isNotificationVisible := DefaultFlag(o.isNotificationVisible, false)))
  }

  /** The option set sent to the engine: the normalised options, plus the configured interval. */
  function Request(n: OptionsValue, progressInterval: real): DownloadRequest
    requires n.id.Some? && n.url.Some? && n.destination.Some?
  {
    DownloadRequest(n.id.value, n.url.value, n.destination.value, Spread(n.headers), n.metadata,
                    n.isAllowedOverRoaming, n.isAllowedOverMetered, n.isNotificationVisible,
                    n.notificationTitle, progressInterval)
  }

  // ---------------------------------------------------------------------------
  // The progress batch

  /** One record of a `downloadProgress` batch. */
  datatype ProgressRecord = ProgressRecord(id: string, bytesDownloaded: int, bytesTotal: int)

  /** The task views after the records of `batch`, in order, each given to the task registered under its id. */
  function ApplyProgress(views: map<string, TaskView>, batch: seq<ProgressRecord>): map<string, TaskView>
    decreases |batch|
  {
    if batch == [] then views
    else
      var before := ApplyProgress(views, batch[..|batch| - 1]);
      var rec := batch[|batch| - 1];
      if rec.id in before
      then before[rec.id := before[rec.id].(bytesDownloaded := rec.bytesDownloaded, bytesTotal := rec.bytesTotal)]
      else before
  }

  /** One more record of a batch: its registered task, if any, takes its counters and calls its progress handler. */
  lemma ProgressStep(views: map<string, TaskView>, batch: seq<ProgressRecord>, i: nat, invocations: seq<Invocation>)
    requires i < |batch|
    ensures var before := ApplyProgress(views, batch[..i]);
            ApplyProgress(views, batch[..i + 1])
            == if batch[i].id in before
               then before[batch[i].id := before[batch[i].id].(bytesDownloaded := batch[i].bytesDownloaded, bytesTotal := batch[i].bytesTotal)]
               else before
    ensures invocations + ProgressTrace(batch[..i + 1], views)
            == invocations + ProgressTrace(batch[..i], views)
               + (if batch[i].id in views
                  then Dispatch(views[batch[i].id].handlers, ProgressHandler, BytesPayload(batch[i].bytesDownloaded, batch[i].bytesTotal))
                  else [])
  {
    assert batch[..i + 1][..i] == batch[..i];
  }

  /** The last record of `batch` for `id`. */
  function LastRecord(batch: seq<ProgressRecord>, id: string): (r: Option<ProgressRecord>)
    decreases |batch|
  {
    if batch == [] then None
    else if batch[|batch| - 1].id == id then Some(batch[|batch| - 1])
    else LastRecord(batch[..|batch| - 1], id)
  }

  /** A task view after the record `last`, if there is one. */
  function AfterLastRecord(v: TaskView, last: Option<ProgressRecord>): TaskView {
    match last
    case None => v
    case Some(rec) => v.(bytesDownloaded := rec.bytesDownloaded, bytesTotal := rec.bytesTotal)
  }

  /**
   * A progress batch never changes which ids are registered, ignores records
   * for unregistered ids, and leaves each registered task with the counters
   * of its last record (or untouched when it has none); states, metadata and
   * handlers are kept.
   */
  lemma {:induction false} ProgressOutcome(views: map<string, TaskView>, batch: seq<ProgressRecord>)
    ensures ApplyProgress(views, batch).Keys == views.Keys
    ensures forall id :: id in views ==> ApplyProgress(views, batch)[id] == AfterLastRecord(views[id], LastRecord(batch, id))
    decreases |batch|
  {
    if batch != [] {
      ProgressOutcome(views, batch[..|batch| - 1]);
    }
  }

  /** The handler calls a batch makes: one per record whose task is registered and has a progress handler. */
  function ProgressTrace(batch: seq<ProgressRecord>, views: map<string, TaskView>): (r: seq<Invocation>)
    ensures |r| <= |batch|
    decreases |batch|
  {
    if batch == [] then []
    else
      var rec := batch[|batch| - 1];
      ProgressTrace(batch[..|batch| - 1], views)
        + (if rec.id in views then Dispatch(views[rec.id].handlers, ProgressHandler, BytesPayload(rec.bytesDownloaded, rec.bytesTotal))
           else [])
  }

  /**
   * A batch calls only progress handlers of tasks it names, each with the
   * counters of one of its records; and when every record names a
   * registered task with a progress handler, it makes exactly one call per record.
   */
  lemma {:induction false} ProgressTraceCalls(batch: seq<ProgressRecord>, views: map<string, TaskView>)
    ensures forall inv :: inv in ProgressTrace(batch, views) ==>
              exists i :: 0 <= i < |batch| && batch[i].id in views && ProgressHandler in views[batch[i].id].handlers
                && inv == Invocation(views[batch[i].id].handlers[ProgressHandler], BytesPayload(batch[i].bytesDownloaded, batch[i].bytesTotal))
    ensures (forall i :: 0 <= i < |batch| ==> batch[i].id in views && ProgressHandler in views[batch[i].id].handlers) ==>
              |ProgressTrace(batch, views)| == |batch|
    decreases |batch|
  {
    if batch != [] {
      var init := batch[..|batch| - 1];
      ProgressTraceCalls(init, views);
      forall inv | inv in ProgressTrace(batch, views)
        ensures exists i :: 0 <= i < |batch| && batch[i].id in views && ProgressHandler in views[batch[i].id].handlers
                  && inv == Invocation(views[batch[i].id].handlers[ProgressHandler], BytesPayload(batch[i].bytesDownloaded, batch[i].bytesTotal))
      {
        if inv in ProgressTrace(init, views) {
          var i :| 0 <= i < |init| && init[i].id in views && ProgressHandler in views[init[i].id].handlers
                   && inv == Invocation(views[init[i].id].handlers[ProgressHandler], BytesPayload(init[i].bytesDownloaded, init[i].bytesTotal));
          assert batch[i] == init[i];
        } else {
          assert batch[|batch| - 1].id in views;
        }
      }
    }
  }

  // ---------------------------------------------------------------------------
  // checkForExistingDownloads and ensureDownloadsAreRunning

  /** What reconciliation does with one native entry. */
  datatype Disposition = Keep(state: TaskState) | StopAndDrop | Drop

  /** The engine's four status codes are pairwise distinct. */
  predicate DistinctCodes(c: NativeConstants) {
    c.taskRunning != c.taskSuspended && c.taskRunning != c.taskCanceling && c.taskRunning != c.taskCompleted
    && c.taskSuspended != c.taskCanceling && c.taskSuspended != c.taskCompleted && c.taskCanceling != c.taskCompleted
  }

  /**
   * The status-code mapping: running is DOWNLOADING, suspended PAUSED,
   * canceling is stopped and dropped, completed is DONE only with equal
   * counters and dropped otherwise, and any other code stays PENDING.
   * The codes are tested in that order, so it decides when codes coincide.
   */
  function Classify(e: ExistingDownload, c: NativeConstants): (r: Disposition)
    ensures r.Keep? ==> r.state != Failed && r.state != Stopped
    ensures e.state == c.taskRunning ==> r == Keep(Downloading)
    ensures DistinctCodes(c) ==> (r == Keep(Downloading) <==> e.state == c.taskRunning)
    ensures DistinctCodes(c) ==> (r == Keep(Paused) <==> e.state == c.taskSuspended)
    ensures DistinctCodes(c) ==> (r == StopAndDrop <==> e.state == c.taskCanceling)
    ensures DistinctCodes(c) ==> (r == Keep(Done) <==> e.state == c.taskCompleted && e.bytesDownloaded == e.bytesTotal)
    ensures DistinctCodes(c) ==> (r == Drop <==> e.state == c.taskCompleted && e.bytesDownloaded != e.bytesTotal)
    ensures r == Keep(Pending) <==> e.state !in {c.taskRunning, c.taskSuspended, c.taskCanceling, c.taskCompleted}
  {
    if e.state == c.taskRunning then Keep(Downloading)
    else if e.state == c.taskSuspended then Keep(Paused)
    else if e.state == c.taskCanceling then StopAndDrop
    else if e.state == c.taskCompleted then (if e.bytesDownloaded == e.bytesTotal then Keep(Done) else Drop)
    else Keep(Pending)
  }

  /** A native entry that survives reconciliation, with the state its task gets. */
  datatype Survivor = Survivor(entry: ExistingDownload, state: TaskState)

  /** The survivors of `found`, in input order. */
  function Survivors(found: seq<ExistingDownload>, c: NativeConstants): seq<Survivor>
    decreases |found|
  {
    if found == [] then []
    else
      var e := found[|found| - 1];
      Survivors(found[..|found| - 1], c) + (if Classify(e, c).Keep? then [Survivor(e, Classify(e, c).state)] else [])
  }

  /**
   * The survivors are exactly the entries the mapping keeps, each with the
   * state the mapping gives it: none is FAILED or STOPPED, none was
   * canceling, and there are never more of them than entries.
   */
  lemma {:induction false} SurvivorsSpec(found: seq<ExistingDownload>, c: NativeConstants)
    ensures |Survivors(found, c)| <= |found|
    ensures forall i :: 0 <= i < |Survivors(found, c)| ==>
              Survivors(found, c)[i].entry in found
              && Classify(Survivors(found, c)[i].entry, c) == Keep(Survivors(found, c)[i].state)
              && Survivors(found, c)[i].state != Failed && Survivors(found, c)[i].state != Stopped
    ensures forall e :: e in found && Classify(e, c).Keep? ==> exists i :: 0 <= i < |Survivors(found, c)| && Survivors(found, c)[i].entry == e
    decreases |found|
  {
    if found != [] {
      var init := found[..|found| - 1];
      SurvivorsSpec(init, c);
      var s := Survivors(found, c);
      forall e | e in found && Classify(e, c).Keep?
        ensures exists i :: 0 <= i < |s| && s[i].entry == e
      {
        if e in init {
          var i :| 0 <= i < |Survivors(init, c)| && Survivors(init, c)[i].entry == e;
          assert s[i] == Survivors(init, c)[i];
        } else {
          assert e == found[|found| - 1];
          assert s[|s| - 1].entry == e;
        }
      }
    }
  }

  /** The ids reconciliation registers. */
  function SurvivorIds(found: seq<ExistingDownload>, c: NativeConstants): (r: set<string>)
    ensures forall id :: id in r <==> exists i :: 0 <= i < |Survivors(found, c)| && Survivors(found, c)[i].entry.id == id
    decreases |found|
  {
    if found == [] then {}
    else
      var e := found[|found| - 1];
      var s0 := Survivors(found[..|found| - 1], c);
      var s := Survivors(found, c);
      assert forall i :: 0 <= i < |s0| ==> s[i] == s0[i];
      assert Classify(e, c).Keep? ==> s[|s0|].entry.id == e.id;
      SurvivorIds(found[..|found| - 1], c) + (if Classify(e, c).Keep? then {e.id} else {})
  }

  /** The `stopTask` calls reconciliation issues, one per canceling entry, in input order. */
  function CancelCalls(found: seq<ExistingDownload>, c: NativeConstants): (r: seq<NativeCall>)
    ensures |r| <= |found|
    ensures forall k :: 0 <= k < |r| ==> r[k].StopTask? && exists e :: e in found && Classify(e, c) == StopAndDrop && r[k].id == e.id
    decreases |found|
  {
    if found == [] then []
    else
      var e := found[|found| - 1];
      CancelCalls(found[..|found| - 1], c) + (if Classify(e, c) == StopAndDrop then [StopTask(e.id)] else [])
  }

  /** The metadata-parse warnings reconciliation writes, one per entry whose metadata does not parse. */
  function ReconcileWarnings(found: seq<ExistingDownload>, parse: string -> Option<JsValue>): (r: seq<Warning>)
    ensures |r| <= |found|
    ensures forall w :: w in r ==> w == MetadataParseFailed
    decreases |found|
  {
    if found == [] then []
    else ReconcileWarnings(found[..|found| - 1], parse) + ParseWarnings(Str(found[|found| - 1].metadata), parse)
  }

  /**
   * Reconciling one more entry extends the registry and each summary of
   * reconciliation by that entry's contribution, also when the summaries are
   * appended to the logs `calls` and `warnings` written before.
   */
  lemma ReconcileStep(views: map<string, TaskView>, found: seq<ExistingDownload>, i: nat, c: NativeConstants,
                      parse: string -> Option<JsValue>, calls: seq<NativeCall>, warnings: seq<Warning>)
    requires i < |found|
    ensures var e := found[i];
            && Reconcile(views, found[..i + 1], c, parse) == ReconcileOne(Reconcile(views, found[..i], c, parse), e, c, parse)
            && (if Classify(e, c).Keep?
                then && Survivors(found[..i + 1], c) == Survivors(found[..i], c) + [Survivor(e, Classify(e, c).state)]
                     && SurvivorIds(found[..i + 1], c) == SurvivorIds(found[..i], c) + {e.id}
                else && Survivors(found[..i + 1], c) == Survivors(found[..i], c)
                     && SurvivorIds(found[..i + 1], c) == SurvivorIds(found[..i], c))
            && calls + CancelCalls(found[..i + 1], c)
               == calls + CancelCalls(found[..i], c) + (if Classify(e, c) == StopAndDrop then [StopTask(e.id)] else [])
            && warnings + ReconcileWarnings(found[..i + 1], parse)
               == warnings + ReconcileWarnings(found[..i], parse) + ParseWarnings(Str(e.metadata), parse)
  {
    assert found[..i + 1][..i] == found[..i];
  }

  /** The handlers of the task registered under `id`, none when there is none (`tasksMap.get(id)`). */
  function HandlersOf(views: map<string, TaskView>, id: string): HandlerStore {
    if id in views then views[id].handlers else map[]
  }

  /** The task reconciliation builds for a survivor, given the handlers it inherits. */
  function ReconciledView(s: Survivor, parse: string -> Option<JsValue>, handlers: HandlerStore): TaskView {
    TaskView(s.entry.id, s.state, InitialMetadata(Str(s.entry.metadata), parse),
             s.entry.bytesDownloaded, s.entry.bytesTotal, handlers)
  }

  /**
   * The registry after the mapping callback has seen entry `e`: a surviving
   * entry's task, carrying the handlers of the task registered under its id
   * at that moment, replaces that registration.
   */
  function ReconcileOne(views: map<string, TaskView>, e: ExistingDownload, c: NativeConstants,
                        parse: string -> Option<JsValue>): map<string, TaskView>
  {
    match Classify(e, c)
    case Keep(state) => views[e.id := ReconciledView(Survivor(e, state), parse, HandlersOf(views, e.id))]
    case _ => views
  }

  /** The registry `checkForExistingDownloads` leaves behind, the entries of `found` seen in order. */
  function Reconcile(views: map<string, TaskView>, found: seq<ExistingDownload>, c: NativeConstants,
                     parse: string -> Option<JsValue>): map<string, TaskView>
    decreases |found|
  {
    if found == [] then views
    else ReconcileOne(Reconcile(views, found[..|found| - 1], c, parse), found[|found| - 1], c, parse)
  }

  /**
   * Reconciliation registers exactly the survivor ids on top of what was
   * registered, leaves every other registration as it was, and every task
   * registered afterwards carries the handlers registered under its id before.
   */
  lemma {:induction false} ReconcileFrame(views: map<string, TaskView>, found: seq<ExistingDownload>, c: NativeConstants,
                                          parse: string -> Option<JsValue>)
    ensures Reconcile(views, found, c, parse).Keys == views.Keys + SurvivorIds(found, c)
    ensures forall id :: id in views && id !in SurvivorIds(found, c) ==> Reconcile(views, found, c, parse)[id] == views[id]
    ensures forall id :: id in Reconcile(views, found, c, parse) ==>
              Reconcile(views, found, c, parse)[id].handlers == HandlersOf(views, id)
    decreases |found|
  {
    if found != [] {
      var init := found[..|found| - 1];
      ReconcileFrame(views, init, c, parse);
    }
  }

  /** No survivor after position `k` of `s` has the id of the survivor at `k`. */
  predicate LastOfId(s: seq<Survivor>, k: nat)
    requires k < |s|
  {
    forall j :: k < j < |s| ==> s[j].entry.id != s[k].entry.id
  }

  /**
   * The last surviving entry for an id wins: the task registered under it
   * afterwards is the one built from that entry, with the handlers
   * registered under the id before reconciliation.
   */
  lemma {:induction false} ReconcileLastWins(views: map<string, TaskView>, found: seq<ExistingDownload>, c: NativeConstants,
                                             parse: string -> Option<JsValue>)
    ensures forall k :: 0 <= k < |Survivors(found, c)| && LastOfId(Survivors(found, c), k) ==>
              && Survivors(found, c)[k].entry.id in Reconcile(views, found, c, parse)
              && Reconcile(views, found, c, parse)[Survivors(found, c)[k].entry.id]
                 == ReconciledView(Survivors(found, c)[k], parse, HandlersOf(views, Survivors(found, c)[k].entry.id))
    decreases |found|
  {
    if found != [] {
      var init := found[..|found| - 1];
      var e := found[|found| - 1];
      ReconcileLastWins(views, init, c, parse);
      var s0 := Survivors(init, c);
      var s := Survivors(found, c);
      var r0 := Reconcile(views, init, c, parse);
      var r := Reconcile(views, found, c, parse);
      forall k | 0 <= k < |s| && LastOfId(s, k)
        ensures s[k].entry.id in r && r[s[k].entry.id] == ReconciledView(s[k], parse, HandlersOf(views, s[k].entry.id))
      {
        var id := s[k].entry.id;
        if k < |s0| {
          assert s[k] == s0[k];
          assert forall j :: k < j < |s0| ==> s[j] == s0[j];
          assert LastOfId(s0, k);
          assert s0[k].entry.id in r0;
          assert r0[s0[k].entry.id] == ReconciledView(s0[k], parse, HandlersOf(views, s0[k].entry.id));
          assert id in r0 && r0[id] == ReconciledView(s0[k], parse, HandlersOf(views, id));
          if Classify(e, c).Keep? {
            assert s[|s| - 1].entry.id == e.id;
            assert r == r0[e.id := ReconciledView(Survivor(e, Classify(e, c).state), parse, HandlersOf(r0, e.id))];
          } else {
            assert r == r0;
          }
        } else {
          assert Classify(e, c).Keep?;
          assert s[k] == Survivor(e, Classify(e, c).state);
          ReconcileFrame(views, init, c, parse);
          assert HandlersOf(r0, e.id) == HandlersOf(views, e.id);
          assert r == r0[e.id := ReconciledView(s[k], parse, HandlersOf(r0, e.id))];
        }
      }
    }
  }

  /** The calls `ensureDownloadsAreRunning` adds: `pauseTask` then `resumeTask` for each DOWNLOADING survivor. */
  function KickCalls(s: seq<Survivor>): seq<NativeCall>
    decreases |s|
  {
    if s == [] then []
    else
      var last := s[|s| - 1];
      KickCalls(s[..|s| - 1]) + (if last.state == Downloading then [PauseTask(last.entry.id), ResumeTask(last.entry.id)] else [])
  }

  /** One more survivor adds its re-kick calls, if any, after those of the survivors before it. */
  lemma KickStep(s: seq<Survivor>, i: nat, calls: seq<NativeCall>)
    requires i < |s|
    ensures calls + KickCalls(s[..i + 1])
            == calls + KickCalls(s[..i]) + (if s[i].state == Downloading then [PauseTask(s[i].entry.id), ResumeTask(s[i].entry.id)] else [])
  {
    assert s[..i + 1][..i] == s[..i];
  }

  /**
   * The re-kick calls come in pairs, a `pauseTask` immediately followed by a
   * `resumeTask` for the same id, and only for DOWNLOADING survivors.
   */
  lemma {:induction false} KickCallsPaired(s: seq<Survivor>)
    ensures |KickCalls(s)| % 2 == 0
    ensures forall k :: 0 <= k < |KickCalls(s)| / 2 ==>
              KickCalls(s)[2 * k].PauseTask? && KickCalls(s)[2 * k + 1] == ResumeTask(KickCalls(s)[2 * k].id)
              && exists i :: 0 <= i < |s| && s[i].state == Downloading && s[i].entry.id == KickCalls(s)[2 * k].id
    decreases |s|
  {
    if s != [] {
      var init := s[..|s| - 1];
      KickCallsPaired(init);
      var kc := KickCalls(s);
      var ki := KickCalls(init);
      forall k | 0 <= k < |kc| / 2
        ensures kc[2 * k].PauseTask? && kc[2 * k + 1] == ResumeTask(kc[2 * k].id)
                && exists i :: 0 <= i < |s| && s[i].state == Downloading && s[i].entry.id == kc[2 * k].id
      {
        if 2 * k < |ki| {
          assert kc[2 * k] == ki[2 * k] && kc[2 * k + 1] == ki[2 * k + 1];
          var i :| 0 <= i < |init| && init[i].state == Downloading && init[i].entry.id == ki[2 * k].id;
          assert s[i] == init[i];
        } else {
          assert 2 * k == |ki|;
          assert s[|s| - 1].state == Downloading;
        }
      }
    }
  }

  /** Four entries, running, suspended, canceling and completed with equal counters, give three tasks and one stop call. */
  lemma ReconcileExample(c: NativeConstants, a: string, b: string, d: string, e: string, m: string, n: int)
    requires DistinctCodes(c)
    ensures var found := [ExistingDownload(a, m, c.taskRunning, 1, 2), ExistingDownload(b, m, c.taskSuspended, 1, 2),
                          ExistingDownload(d, m, c.taskCanceling, 1, 2), ExistingDownload(e, m, c.taskCompleted, n, n)];
            && Survivors(found, c) == [Survivor(found[0], Downloading), Survivor(found[1], Paused), Survivor(found[3], Done)]
            && CancelCalls(found, c) == [StopTask(d)]
  {
    var found := [ExistingDownload(a, m, c.taskRunning, 1, 2), ExistingDownload(b, m, c.taskSuspended, 1, 2),
                  ExistingDownload(d, m, c.taskCanceling, 1, 2), ExistingDownload(e, m, c.taskCompleted, n, n)];
    assert found[..3][..2] == found[..2] && found[..2][..1] == found[..1] && found[..1][..0] == [];
    assert Survivors(found[..1], c) == [Survivor(found[0], Downloading)];
    assert Survivors(found[..2], c) == [Survivor(found[0], Downloading), Survivor(found[1], Paused)];
    assert Survivors(found[..3], c) == Survivors(found[..2], c);
    assert CancelCalls(found[..1], c) == [];
    assert CancelCalls(found[..2], c) == [];
    assert CancelCalls(found[..3], c) == [StopTask(d)];
    assert found[..4] == found;
  }
}
