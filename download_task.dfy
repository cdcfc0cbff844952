/**
 * One download handle (lib/DownloadTask.ts): its state machine, its byte
 * counters, its metadata and its four live handler slots.
 */
module DownloadTasks {
  import opened Wrappers
  import opened JsValues
  import opened Native

  datatype TaskState = Pending | Downloading | Paused | Done | Failed | Stopped

  /** The four handler slots. */
  datatype HandlerName = BeginHandler | ProgressHandler | DoneHandler | ErrorHandler

  /** The handler store: a slot absent from the map holds `undefined`. */
  type HandlerStore = map<HandlerName, Handler>

  /** What can happen to a task: the four native events and the three control calls. */
  datatype TaskEvent = BeginEvent | ProgressEvent | DoneEvent | ErrorEvent | PauseCall | ResumeCall | StopCall

  /** The state an event writes into `state`; a progress event writes none. */
  function Forced(e: TaskEvent): (r: Option<TaskState>)
    ensures r.None? <==> e == ProgressEvent
    ensures r == Some(Downloading) <==> e == BeginEvent || e == ResumeCall
    ensures r == Some(Paused) <==> e == PauseCall
    ensures r == Some(Stopped) <==> e == StopCall
    ensures r == Some(Done) <==> e == DoneEvent
    ensures r == Some(Failed) <==> e == ErrorEvent
    ensures r != Some(Pending)
  {
    match e
    case BeginEvent => Some(Downloading)
    case ProgressEvent => None
    case DoneEvent => Some(Done)
    case ErrorEvent => Some(Failed)
    case PauseCall => Some(Paused)
    case ResumeCall => Some(Downloading)
    case StopCall => Some(Stopped)
  }

  /** One step of the state machine; no event is guarded by the prior state. */
  function Transition(s: TaskState, e: TaskEvent): TaskState {
    Forced(e).GetOr(s)
  }

  /** The state after a sequence of events. */
  function Run(s: TaskState, es: seq<TaskEvent>): TaskState
    decreases |es|
  {
    if es == [] then s else Transition(Run(s, es[..|es| - 1]), es[|es| - 1])
  }

  /** The state written by the last event of `es` that writes one. */
  function LastForced(es: seq<TaskEvent>): (r: Option<TaskState>)
    decreases |es|
  {
    if es == [] then None
    else if Forced(es[|es| - 1]).Some? then Forced(es[|es| - 1])
    else LastForced(es[..|es| - 1])
  }

  /** The state after a sequence of events is the one its last state-writing event forces, whatever came before. */
  lemma {:induction false} RunEndsInLastForced(s: TaskState, es: seq<TaskEvent>)
    ensures Run(s, es) == LastForced(es).GetOr(s)
    ensures LastForced(es).Some? ==> exists i :: 0 <= i < |es| && Forced(es[i]) == LastForced(es)
    decreases |es|
  {
    if es != [] {
      var init := es[..|es| - 1];
      RunEndsInLastForced(s, init);
      if Forced(es[|es| - 1]).None? && LastForced(init).Some? {
        var i :| 0 <= i < |init| && Forced(init[i]) == LastForced(init);
        assert es[i] == init[i];
      }
    }
  }

  /**
   * Through the task's own methods, a state is entered only by an event that
   * forces it: PAUSED only by a pause call, STOPPED only by a stop call, DONE
   * and FAILED only by the native complete and failed events, never by a
   * call. (Reconciliation writes DOWNLOADING, PAUSED or DONE straight into a
   * new task, outside these events.)
   */
  lemma EnteredOnlyBy(s: TaskState, es: seq<TaskEvent>, t: TaskState)
    requires Run(s, es) == t && s != t
    ensures exists i :: 0 <= i < |es| && Forced(es[i]) == Some(t)
    ensures t == Paused ==> PauseCall in es
    ensures t == Stopped ==> StopCall in es
    ensures t == Done ==> DoneEvent in es
    ensures t == Failed ==> ErrorEvent in es
    ensures t != Pending
  {
    RunEndsInLastForced(s, es);
  }

  /** A pause followed by a resume ends in DOWNLOADING from any state. */
  lemma PauseThenResume(s: TaskState)
    ensures Run(s, [PauseCall, ResumeCall]) == Downloading
  {
    assert [PauseCall, ResumeCall][..1] == [PauseCall];
  }

  /** What a task is built from: a native record, or the id and metadata of a new download. */
  datatype TaskInfo = TaskInfo(id: string, metadata: JsValue, bytesDownloaded: Option<int>, bytesTotal: Option<int>)

  /** Everything observable about a task object. */
  datatype TaskView = TaskView(
    id: string, state: TaskState, metadata: JsValue,
    bytesDownloaded: int, bytesTotal: int, handlers: HandlerStore)

  const HandlerTypeErrorPrefix: string := "[RNBackgroundDownloader] expected argument to be a function, got: "

  /** `validateHandler`: only a function passes; anything else is a TypeError naming its `typeof`. */
  function ValidateHandler(v: JsValue): (r: Outcome<JsError>)
    ensures r.Pass? <==> v.Fn?
    ensures r.Fail? ==> r.error == TypeError(HandlerTypeErrorPrefix + TypeOf(v))
  {
    var t := TypeOf(v);
    if t != "function" then Fail(TypeError(HandlerTypeErrorPrefix + t)) else Pass
  }

  /** `setHandler`: what assigning `v` to a handler property does to the store. */
  function AssignSlot(store: HandlerStore, name: HandlerName, v: JsValue): (r: Result<HandlerStore, JsError>)
    ensures r.Success? <==> IsNullish(v) || v.Fn?
    ensures r.Failure? ==> r.error == TypeError(HandlerTypeErrorPrefix + TypeOf(v))
    ensures r.Success? ==> r.value - {name} == store - {name}
    ensures r.Success? ==> (name in r.value <==> v.Fn?)
    ensures r.Success? && v.Fn? ==> r.value[name] == v.handler
  {
    if IsNullish(v) then Success(store - {name})
    else match ValidateHandler(v)
      case Fail(e) => Failure(e)
      case Pass => Success(store[name := v.handler])
  }

  /** `setBeginHandler` and its three siblings: null and undefined are ignored, anything else is assigned. */
  function ChainSlot(store: HandlerStore, name: HandlerName, v: JsValue): (r: Result<HandlerStore, JsError>)
    ensures r.Success? <==> IsNullish(v) || v.Fn?
    ensures r.Failure? ==> r.error == TypeError(HandlerTypeErrorPrefix + TypeOf(v))
    ensures r.Success? ==> r.value - {name} == store - {name}
    ensures r.Success? && v.Fn? ==> name in r.value && r.value[name] == v.handler
    ensures r.Success? && !v.Fn? ==> r.value == store
  {
    if IsNullish(v) then Success(store) else AssignSlot(store, name, v)
  }

  /**
   * The chainable method and the two property spellings store a value alike;
   * only for null or undefined do they differ: the method leaves the slot,
   * an assignment clears it.
   */
  lemma SpellingsAgree(store: HandlerStore, name: HandlerName, v: JsValue)
    ensures !IsNullish(v) ==> ChainSlot(store, name, v) == AssignSlot(store, name, v)
    ensures IsNullish(v) ==> ChainSlot(store, name, v) == Success(store)
    ensures IsNullish(v) ==> AssignSlot(store, name, v) == Success(store - {name})
  {
  }

  /** The value a handler property reads: the stored function or `undefined`. */
  function SlotValue(store: HandlerStore, name: HandlerName): (r: JsValue)
    ensures r.Fn? <==> name in store
    ensures !r.Fn? ==> r == Undefined
    ensures r.Fn? ==> r.handler == store[name]
  {
    if name in store then Fn(store[name]) else Undefined
  }

  /** The handler call `this.xHandler?.(arg)` makes: one call when the slot is set, none otherwise. */
  function Dispatch(store: HandlerStore, name: HandlerName, arg: Payload): (r: seq<Invocation>)
    ensures |r| <= 1
    ensures |r| == 1 <==> name in store
    ensures name in store ==> r[0] == Invocation(store[name], arg)
  {
    if name in store then [Invocation(store[name], arg)] else []
  }

  /** The object `{ bytesDownloaded, bytesTotal }`. */
  function BytesPayload(bytesDownloaded: int, bytesTotal: int): Payload {
    map["bytesDownloaded" := Num(bytesDownloaded as real), "bytesTotal" := Num(bytesTotal as real)]
  }

  /** The counters an event payload carries, where it carries them, are `bytesDownloaded` and `bytesTotal`. */
  predicate CarriesCounters(params: Payload, bytesDownloaded: int, bytesTotal: int) {
    && ("bytesDownloaded" in params ==> params["bytesDownloaded"] == Num(bytesDownloaded as real))
    && ("bytesTotal" in params ==> params["bytesTotal"] == Num(bytesTotal as real))
  }

  /** `tryParseJson`: a string is parsed, `null` standing for a parse failure; anything else is returned as is. */
  function ParsedJson(element: JsValue, parse: string -> Option<JsValue>): (r: JsValue)
    ensures !element.Str? ==> r == element
    ensures element.Str? && parse(element.s).Some? ==> r == parse(element.s).value
    ensures element.Str? && parse(element.s).None? ==> r == Null
  {
    if element.Str? then parse(element.s).GetOr(Null) else element
  }

  /** The warning `tryParseJson` writes for a string that does not parse. */
  function ParseWarnings(element: JsValue, parse: string -> Option<JsValue>): (r: seq<Warning>)
    ensures r == [] || r == [MetadataParseFailed]
    ensures r != [] <==> element.Str? && parse(element.s).None?
  {
    if element.Str? && parse(element.s).None? then [MetadataParseFailed] else []
  }

  /** The metadata a new task ends up with: the parsed or given value when it is truthy, `{}` otherwise. */
  function InitialMetadata(element: JsValue, parse: string -> Option<JsValue>): (r: JsValue)
    ensures Truthy(r)
    ensures !element.Str? && Truthy(element) ==> r == element
    ensures element.Str? && parse(element.s).Some? && Truthy(parse(element.s).value) ==> r == parse(element.s).value
    ensures element.Str? && (parse(element.s).None? || !Truthy(parse(element.s).value)) ==> r == Obj(map[])
    ensures !element.Str? && !Truthy(element) ==> r == Obj(map[])
  {
    var parsed := ParsedJson(element, parse);
    if Truthy(parsed) then parsed else Obj(map[])
  }

  /** Chaining the value a slot of `from` reads copies that slot when it is set and leaves the store otherwise. */
  lemma CopySlot(store: HandlerStore, from: HandlerStore, name: HandlerName)
    ensures ChainSlot(store, name, Coalesce(SlotValue(from, name), SlotValue(from, name)))
         == Success(if name in from then store[name := from[name]] else store)
  {
  }

  /** The outcome `res` of a store update took effect: `after` and the returned outcome agree with it. */
  predicate Applied(res: Result<HandlerStore, JsError>, before: HandlerStore, after: HandlerStore, r: Outcome<JsError>) {
    match res
    case Success(s) => r == Pass && after == s
    case Failure(e) => r == Fail(e) && after == before
  }

  class DownloadTask {
    const id: string
    var state: TaskState
    var metadata: JsValue
    var bytesDownloaded: int
    var bytesTotal: int
    var handlers: HandlerStore
    const effects: Effects

    function View(): TaskView
      reads this
    {
      TaskView(id, state, metadata, bytesDownloaded, bytesTotal, handlers)
    }

    /**
     * Builds a task in PENDING from `info`; when `original` is given, its set
     * handler slots are copied over (the handler transplant of reconciliation).
     */
    constructor (info: TaskInfo, original: DownloadTask?, effects: Effects, parse: string -> Option<JsValue>)
      modifies effects
      ensures this.effects == effects
      ensures View() == TaskView(info.id, Pending, InitialMetadata(info.metadata, parse),
                                 info.bytesDownloaded.GetOr(0), info.bytesTotal.GetOr(0),
                                 if original == null then map[] else original.handlers)
      ensures effects.warnings == old(effects.warnings) + ParseWarnings(info.metadata, parse)
      ensures effects.nativeCalls == old(effects.nativeCalls) && effects.invocations == old(effects.invocations)
    {
      id := info.id;
      state := Pending;
      metadata := Obj(map[]);
      bytesDownloaded := info.bytesDownloaded.GetOr(0);
      bytesTotal := info.bytesTotal.GetOr(0);
      handlers := map[];
      this.effects := effects;
      new;
      var parsed := TryParseJson(info.metadata, parse);
      if Truthy(parsed) {
        metadata := parsed;
      }
      if original != null {
        CopyHandlersFrom(original);
      }
    }

    /** The four `setXHandler(original.xHandler ?? original._xHandler)` calls: every set slot of `original` is copied. */
    method CopyHandlersFrom(original: DownloadTask)
      requires original != this
      modifies this`handlers
      ensures handlers == old(handlers) + original.handlers
    {
      ghost var from := original.handlers;
      CopySlot(handlers, from, BeginHandler);
      var ok := SetHandlerUnlessNull(BeginHandler,
        Coalesce(original.HandlerProperty(BeginHandler), original.LegacyHandlerProperty(BeginHandler)));
      CopySlot(handlers, from, ProgressHandler);
      ok := SetHandlerUnlessNull(ProgressHandler,
        Coalesce(original.HandlerProperty(ProgressHandler), original.LegacyHandlerProperty(ProgressHandler)));
      CopySlot(handlers, from, DoneHandler);
      ok := SetHandlerUnlessNull(DoneHandler,
        Coalesce(original.HandlerProperty(DoneHandler), original.LegacyHandlerProperty(DoneHandler)));
      CopySlot(handlers, from, ErrorHandler);
      ok := SetHandlerUnlessNull(ErrorHandler,
        Coalesce(original.HandlerProperty(ErrorHandler), original.LegacyHandlerProperty(ErrorHandler)));
      forall n
        ensures (n in handlers <==> n in old(handlers) + from)
        ensures n in handlers ==> handlers[n] == (old(handlers) + from)[n]
      {
        assert n == BeginHandler || n == ProgressHandler || n == DoneHandler || n == ErrorHandler;
      }
    }

    /** `tryParseJson`, which also warns when a string does not parse. */
    method TryParseJson(element: JsValue, parse: string -> Option<JsValue>) returns (r: JsValue)
      modifies effects
      ensures r == ParsedJson(element, parse)
      ensures effects.warnings == old(effects.warnings) + ParseWarnings(element, parse)
      ensures effects.nativeCalls == old(effects.nativeCalls) && effects.invocations == old(effects.invocations)
    {
      r := element;
      if element.Str? {
        match parse(element.s)
        case Some(v) =>
          r := v;
        case None =>
          effects.Warn(MetadataParseFailed);
          r := Null;
      }
    }

    /** The getters `beginHandler`, `progressHandler`, `doneHandler` and `errorHandler` (via `getHandler`). */
    function HandlerProperty(name: HandlerName): (r: JsValue)
      reads this
      ensures r.Fn? <==> name in handlers
      ensures r.Fn? ==> r.handler == handlers[name]
      ensures !r.Fn? ==> r == Undefined
    {
      SlotValue(handlers, name)
    }

    /** The legacy getters `_beginHandler` and siblings read the very same slot. */
    function LegacyHandlerProperty(name: HandlerName): (r: JsValue)
      reads this
      ensures r == HandlerProperty(name)
    {
      HandlerProperty(name)
    }

    /** `setHandler`: null or undefined clears the slot, a function is stored, anything else throws and changes nothing. */
    method SetHandler(name: HandlerName, v: JsValue) returns (r: Outcome<JsError>)
      modifies this`handlers
      ensures Applied(AssignSlot(old(handlers), name, v), old(handlers), handlers, r)
    {
      if IsNullish(v) {
        handlers := handlers - {name};
        return Pass;
      }
      r := ValidateHandler(v);
      if r.Pass? {
        handlers := handlers[name := v.handler];
      }
    }

    /** The setters `beginHandler = v` and siblings. */
    method SetHandlerProperty(name: HandlerName, v: JsValue) returns (r: Outcome<JsError>)
      modifies this`handlers
      ensures Applied(AssignSlot(old(handlers), name, v), old(handlers), handlers, r)
    {
      r := SetHandler(name, v);
    }

    /** The legacy setters `_beginHandler = v` and siblings, which forward to the canonical setter. */
    method SetLegacyHandlerProperty(name: HandlerName, v: JsValue) returns (r: Outcome<JsError>)
      modifies this`handlers
      ensures Applied(AssignSlot(old(handlers), name, v), old(handlers), handlers, r)
    {
      r := SetHandlerProperty(name, v);
    }

    /** `setBeginHandler` and siblings: null and undefined are ignored. */
    method SetHandlerUnlessNull(name: HandlerName, v: JsValue) returns (r: Outcome<JsError>)
      modifies this`handlers
      ensures Applied(ChainSlot(old(handlers), name, v), old(handlers), handlers, r)
    {
      if IsNullish(v) {
        return Pass;
      }
      r := SetHandlerProperty(name, v);
    }

    /** The chainable `begin(handler)`: returns the task itself, or the TypeError it throws. */
    method Begin(v: JsValue) returns (r: Result<DownloadTask, JsError>)
      modifies this`handlers
      ensures Chained(ChainSlot(old(handlers), BeginHandler, v), old(handlers), r)
    {
      var o := SetHandlerUnlessNull(BeginHandler, v);
      r := if o.Pass? then Success(this) else Failure(o.error);
    }

    /** The chainable `progress(handler)`. */
    method Progress(v: JsValue) returns (r: Result<DownloadTask, JsError>)
      modifies this`handlers
      ensures Chained(ChainSlot(old(handlers), ProgressHandler, v), old(handlers), r)
    {
      var o := SetHandlerUnlessNull(ProgressHandler, v);
      r := if o.Pass? then Success(this) else Failure(o.error);
    }

    /** The chainable `done(handler)`. */
    method Done(v: JsValue) returns (r: Result<DownloadTask, JsError>)
      modifies this`handlers
      ensures Chained(ChainSlot(old(handlers), DoneHandler, v), old(handlers), r)
    {
      var o := SetHandlerUnlessNull(DoneHandler, v);
      r := if o.Pass? then Success(this) else Failure(o.error);
    }

    /** The chainable `error(handler)`. */
    method Error(v: JsValue) returns (r: Result<DownloadTask, JsError>)
      modifies this`handlers
      ensures Chained(ChainSlot(old(handlers), ErrorHandler, v), old(handlers), r)
    {
      var o := SetHandlerUnlessNull(ErrorHandler, v);
      r := if o.Pass? then Success(this) else Failure(o.error);
    }

    /** A chainable method took effect: on success the store is updated and the task itself returned. */
    ghost predicate Chained(res: Result<HandlerStore, JsError>, before: HandlerStore, r: Result<DownloadTask, JsError>)
      reads this
    {
      match res
      case Success(s) => r == Success(this) && handlers == s
      case Failure(e) => r == Failure(e) && handlers == before
    }

    /** `onBegin`: DOWNLOADING, counters kept, the begin handler called once with the event's fields. */
    method OnBegin(params: Payload)
      modifies this`state, effects
      ensures View() == old(View()).(state := Transition(old(state), BeginEvent))
      ensures effects.invocations == old(effects.invocations) + Dispatch(handlers, BeginHandler, params)
      ensures effects.nativeCalls == old(effects.nativeCalls) && effects.warnings == old(effects.warnings)
    {
      state := TaskState.Downloading;
      var h := HandlerProperty(BeginHandler);
      if h.Fn? {
        effects.Invoke(h.handler, params);
      }
    }

    /** `onProgress`: both counters overwritten, the state kept, the handler given exactly the two counters. */
    method OnProgress(bytesDownloaded: int, bytesTotal: int)
      modifies this`bytesDownloaded, this`bytesTotal, effects
      ensures View() == old(View()).(bytesDownloaded := bytesDownloaded, bytesTotal := bytesTotal)
      ensures state == Transition(old(state), ProgressEvent)
      ensures effects.invocations == old(effects.invocations) + Dispatch(handlers, ProgressHandler, BytesPayload(bytesDownloaded, bytesTotal))
      ensures effects.nativeCalls == old(effects.nativeCalls) && effects.warnings == old(effects.warnings)
    {
      this.bytesDownloaded := bytesDownloaded;
      this.bytesTotal := bytesTotal;
      var h := HandlerProperty(ProgressHandler);
      if h.Fn? {
        effects.Invoke(h.handler, BytesPayload(bytesDownloaded, bytesTotal));
      }
    }

    /**
     * `onDone`: DONE, both counters overwritten from the event, and the done
     * handler given the whole event payload `params`; `bytesDownloaded` and
     * `bytesTotal` are the payload's two counters, as integers.
     */
    method OnDone(params: Payload, bytesDownloaded: int, bytesTotal: int)
      requires CarriesCounters(params, bytesDownloaded, bytesTotal)
      modifies this`state, this`bytesDownloaded, this`bytesTotal, effects
      ensures View() == old(View()).(state := Transition(old(state), DoneEvent),
                                     bytesDownloaded := bytesDownloaded, bytesTotal := bytesTotal)
      ensures effects.invocations == old(effects.invocations) + Dispatch(handlers, DoneHandler, params)
      ensures effects.nativeCalls == old(effects.nativeCalls) && effects.warnings == old(effects.warnings)
    {
      state := TaskState.Done;
      this.bytesDownloaded := bytesDownloaded;
      this.bytesTotal := bytesTotal;
      var h := HandlerProperty(DoneHandler);
      if h.Fn? {
        effects.Invoke(h.handler, params);
      }
    }

    /** `onError`: FAILED, counters kept. */
    method OnError(params: Payload)
      modifies this`state, effects
      ensures View() == old(View()).(state := Transition(old(state), ErrorEvent))
      ensures effects.invocations == old(effects.invocations) + Dispatch(handlers, ErrorHandler, params)
      ensures effects.nativeCalls == old(effects.nativeCalls) && effects.warnings == old(effects.warnings)
    {
      state := Failed;
      var h := HandlerProperty(ErrorHandler);
      if h.Fn? {
        effects.Invoke(h.handler, params);
      }
    }

    /** `pause`: PAUSED from any state, and one `pauseTask(id)`. */
    method Pause()
      modifies this`state, effects
      ensures View() == old(View()).(state := Transition(old(state), PauseCall))
      ensures effects.nativeCalls == old(effects.nativeCalls) + [PauseTask(id)]
      ensures effects.invocations == old(effects.invocations) && effects.warnings == old(effects.warnings)
    {
      state := Paused;
      effects.Call(PauseTask(id));
    }

    /** `resume`: DOWNLOADING from any state, and one `resumeTask(id)`. */
    method Resume()
      modifies this`state, effects
      ensures View() == old(View()).(state := Transition(old(state), ResumeCall))
      ensures effects.nativeCalls == old(effects.nativeCalls) + [ResumeTask(id)]
      ensures effects.invocations == old(effects.invocations) && effects.warnings == old(effects.warnings)
    {
      state := TaskState.Downloading;
      effects.Call(ResumeTask(id));
    }

    /** `stop`: STOPPED from any state, and one `stopTask(id)`. */
    method Stop()
      modifies this`state, effects
      ensures View() == old(View()).(state := Transition(old(state), StopCall))
      ensures effects.nativeCalls == old(effects.nativeCalls) + [StopTask(id)]
      ensures effects.invocations == old(effects.invocations) && effects.warnings == old(effects.warnings)
    {
      state := Stopped;
      effects.Call(StopTask(id));
    }
  }
}
