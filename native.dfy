/**
 * The boundary to the platform download engine and to user code.
 *
 * The engine itself is not modelled: every call the JavaScript layer makes into
 * it is appended to a ghost log, and so is every invocation of a user handler
 * and every console warning. Handlers are opaque, assumed not to call back
 * into the downloader, and assumed to return normally (never to throw).
 */
module Native {
  import opened JsValues

  /** The option set handed to the engine's `download` (index.ts passes it spread from the caller's options). */
  datatype DownloadRequest = DownloadRequest(
    id: string,
    url: string,
    destination: string,
    headers: Props,
    metadata: JsValue,            // the value handed to JSON.stringify, whose output is not modelled
    isAllowedOverRoaming: JsValue,
    isAllowedOverMetered: JsValue,
    isNotificationVisible: JsValue,
    notificationTitle: JsValue,
    progressInterval: real)

  /** One fire-and-forget call into the engine. */
  datatype NativeCall =
    | StartDownload(request: DownloadRequest)
    | PauseTask(id: string)
    | ResumeTask(id: string)
    | StopTask(id: string)
    | CompleteHandler(id: string)

  /** The argument object a handler is called with. */
  type Payload = map<string, JsValue>

  /** One call of a user handler. */
  datatype Invocation = Invocation(handler: Handler, arg: Payload)

  /** The console warnings the layer can emit. */
  datatype Warning = ProgressIntervalRejected | CompleteHandlerWithoutId | MetadataParseFailed

  /** A download the engine reports as already known to it. */
  datatype ExistingDownload = ExistingDownload(
    id: string, metadata: string, state: int, bytesDownloaded: int, bytesTotal: int)

  /** The engine's constants: the documents directory and its four status codes. */
  datatype NativeConstants = NativeConstants(
    documents: string, taskRunning: int, taskSuspended: int, taskCanceling: int, taskCompleted: int)

  /** The observable effects of the JavaScript layer, as ghost logs. */
  class Effects {
    ghost var nativeCalls: seq<NativeCall>
    ghost var invocations: seq<Invocation>
    ghost var warnings: seq<Warning>

    constructor ()
      ensures nativeCalls == [] && invocations == [] && warnings == []
    {
      nativeCalls, invocations, warnings := [], [], [];
    }

    /** Issues one call to the engine. */
    method Call(c: NativeCall)
      modifies this
      ensures nativeCalls == old(nativeCalls) + [c]
      ensures invocations == old(invocations) && warnings == old(warnings)
    {
      nativeCalls := nativeCalls + [c];
    }

    /** Calls the user handler `h` with `arg`. */
    method Invoke(h: Handler, arg: Payload)
      modifies this
      ensures invocations == old(invocations) + [Invocation(h, arg)]
      ensures nativeCalls == old(nativeCalls) && warnings == old(warnings)
    {
      invocations := invocations + [Invocation(h, arg)];
    }

    /** Writes a console warning. */
    method Warn(w: Warning)
      modifies this
      ensures warnings == old(warnings) + [w]
      ensures nativeCalls == old(nativeCalls) && invocations == old(invocations)
    {
      warnings := warnings + [w];
    }
  }
}
