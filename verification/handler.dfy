/** One invocation of a custom resource handler: choose the physical id,
    run the try block (stack ARN, logical id, property validation, the
    lifecycle hook for the request type, attribute validation), turn any
    throw into `fail`, then report SUCCESS or FAILED to the callback URL,
    with one last FAILED attempt when the SUCCESS report cannot be sent. */
module Handler {
  import opened Js
  import opened PhysicalId
  import opened ResourceProps
  import opened SendResponse
  import opened HandlerState

  /** The request-type-specific part of a lifecycle event. */
  datatype Request =
    | CreateRequest
    | UpdateRequest(physicalResourceId: string, oldResourceProperties: Value)
    | DeleteRequest(physicalResourceId: string)

  /** A lifecycle event as the host delivers it. */
  datatype Event = Event(
    request: Request,
    stackId: string,
    logicalResourceId: string,
    resourceProperties: Value,
    requestId: string,
    responseUrl: string)

  /** What one run of a lifecycle hook did: the edits it made through the
      protected members, in order, and then either a normal return or a
      throw. */
  datatype HookRun = HookRun(actions: seq<Action>, thrown: Option<Thrown>)

  /** The default `updateResource` and `deleteResource`: do nothing. */
  const NoOp: HookRun := HookRun([], None)

  /** The subclass's lifecycle hooks. `createResource` has no default;
      `None` for the others means the subclass kept the no-op default. */
  datatype Hooks = Hooks(
    createResource: HookRun,
    updateResource: Option<HookRun>,
    deleteResource: Option<HookRun>)

  /** A concrete handler: the constructor's decoders and the subclass's
      hooks. */
  datatype ResourceHandler = ResourceHandler(
    decodeProps: Decoder<Value>,
    decodeAttributes: Option<Decoder<Value>>,
    hooks: Hooks)

  /** What the handler cannot compute itself: the content hash, and the
      replies to the SUCCESS and the FAILED callback PUTs. */
  datatype Externals = Externals(
    hash: Hash,
    successReply: HttpReply,
    failedReply: HttpReply)

  /** The JSON body of one callback PUT. */
  datatype CallbackResponse = CallbackResponse(
    status: Status,
    reason: Option<string>,
    physicalResourceId: string,
    stackId: string,
    requestId: string,
    logicalResourceId: string,
    noEcho: bool,
    data: Value)

  /** The outcome of `execute`: the handler's final state, the bodies
      whose PUT was attempted, in order, and the error that escapes to the
      host, if any. */
  datatype Execution = Execution(
    state: State,
    sent: seq<CallbackResponse>,
    error: Option<Thrown>)

  /** The state at a point of the try block, with the throw that ended it
      early, if any. */
  datatype Step = Step(state: State, thrown: Option<Thrown>)

  const UnknownError: string := "unknown error"
  const AttributeKind: string := "attribute"

  /** The hook `executeOverride` calls for a request type. */
  function HookFor(hooks: Hooks, request: Request): HookRun {
    match request
    case CreateRequest => hooks.createResource
    case UpdateRequest(_, _) => hooks.updateResource.GetOr(NoOp)
    case DeleteRequest(_) => hooks.deleteResource.GetOr(NoOp)
  }

  /** The physical id assigned before the try block: derived on Create,
      carried over from the event otherwise. */
  function InitialPhysicalId(ev: Event, hash: Hash): string {
    match ev.request
    case CreateRequest => MakePhysicalResourceId(hash, ev.stackId, ev.logicalResourceId).value
    case UpdateRequest(id, _) => id
    case DeleteRequest(id) => id
  }

  /** The state on entry to the try block: `execute` first sets the
      request id and the physical id of the instance it runs on. The other
      fields still hold what an earlier invocation left; the try block then
      sets the stack ARN, the stack id, the logical id and the properties. */
  function Begin(ev: Event, hash: Hash, instance: State): State {
    instance.(requestId := Some(ev.requestId)).WithPhysicalResourceId(InitialPhysicalId(ev, hash))
  }

  /** `executeOverride`: dispatch on the request type. An Update first
      stores `OldResourceProperties` as they are, without validation. The
      hook cannot reach the properties, the logical id or the request id,
      and `oldProperties` changes only on an Update. */
  function ExecuteOverride(hooks: Hooks, ev: Event, s: State): (r: Step)
    ensures r.thrown == HookFor(hooks, ev.request).thrown
    ensures r.state.properties == s.properties
    ensures r.state.logicalResourceId == s.logicalResourceId
    ensures r.state.requestId == s.requestId
    ensures r.state.oldProperties
            == (if ev.request.UpdateRequest? then ev.request.oldResourceProperties else s.oldProperties)
  {
    var before := if ev.request.UpdateRequest? then s.(oldProperties := ev.request.oldResourceProperties) else s;
    var run := HookFor(hooks, ev.request);
    HookKeepsPrivate(before, run.actions);
    Step(ApplyAll(before, run.actions), run.thrown)
  }

  /** Attribute validation after the hook: only when an attribute decoder
      was supplied and `data` is truthy; an accepted value replaces
      `data`. */
  function ValidateAttributes(decodeAttributes: Option<Decoder<Value>>, s: State): Step {
    if decodeAttributes.Some? && Truthy(s.data) then
      match Validate(decodeAttributes.value, s.data, AttributeKind)
      case Normal(d) => Step(s.(data := d), None)
      case Abrupt(e) => Step(s, Some(e))
    else
      Step(s, None)
  }

  /** The first two statements of the try block, neither of which can
      throw: the `stackArn` setter (which also derives `stackId`) and the
      logical id. */
  function Prepare(ev: Event, s: State): State {
    s.WithStackArn(ev.stackId).(logicalResourceId := Some(ev.logicalResourceId))
  }

  /** The body of the try block, stopping at the first throw. */
  function TryBlock(h: ResourceHandler, ev: Event, s: State): Step {
    var s1 := Prepare(ev, s);
    match Validate(h.decodeProps, ev.resourceProperties)
    case Abrupt(e) => Step(s1, Some(e))
    case Normal(props) =>
      var hooked := ExecuteOverride(h.hooks, ev, s1.(properties := props));
      if hooked.thrown.Some? then hooked
      else ValidateAttributes(h.decodeAttributes, hooked.state)
  }

  /** The catch block: a throw becomes `fail` with its reason. */
  function Catch(step: Step): State {
    match step.thrown
    case Some(e) => step.state.Fail(ReasonOf(e))
    case None => step.state
  }

  function Payload(ev: Event, s: State, status: Status, reason: Option<string>, physicalResourceId: string): CallbackResponse {
    CallbackResponse(status, reason, physicalResourceId, ev.stackId, ev.requestId,
                     ev.logicalResourceId, s.noEcho, s.data)
  }

  /** The unguarded FAILED report. Building the body reads the guarded
      `physicalResourceId` getter, which may throw before any PUT. */
  function ReportFailure(ev: Event, s: State, ext: Externals, sent: seq<CallbackResponse>): Execution {
    match s.PhysicalResourceId()
    case Abrupt(e) => Execution(s, sent, Some(e))
    case Normal(id) =>
      var body := Payload(ev, s, Failed, Some(s.reason.GetOr(UnknownError)), id);
      Execution(s, sent + [body], Outcome(ext.failedReply))
  }

  /** The reporting rule: a SUCCESS report unless the status is FAILED; if
      building or sending it throws, `fail` with that reason and fall
      through to the FAILED report. */
  function Report(ev: Event, s: State, ext: Externals): (x: Execution)
    ensures ReportingRule(ev, x)
  {
    if s.status != Some(Failed) then
      match s.PhysicalResourceId()
      case Abrupt(e) => ReportFailure(ev, s.Fail(ReasonOf(e)), ext, [])
      case Normal(id) =>
        var body := Payload(ev, s, Success, s.reason, id);
        match Outcome(ext.successReply)
        case None => Execution(s, [body], None)
        case Some(e) => ReportFailure(ev, s.Fail(ReasonOf(e)), ext, [body])
    else
      ReportFailure(ev, s, ext, [])
  }

  /** `execute(event, context)` on `instance`, the handler's fields as the
      call finds them: `Initial` for a freshly constructed handler, or what
      an earlier invocation left, since `getHandler` reuses one instance. */
  function Execute(h: ResourceHandler, ev: Event, ext: Externals, instance: State): (x: Execution)
    ensures ReportingRule(ev, x)
  {
    Report(ev, Catch(TryBlock(h, ev, Begin(ev, ext.hash, instance))), ext)
  }

  /** Whether a body carries the event's identifiers. */
  predicate ForEvent(ev: Event, body: CallbackResponse) {
    && body.stackId == ev.stackId
    && body.requestId == ev.requestId
    && body.logicalResourceId == ev.logicalResourceId
  }

  /** The reporting rule, stated independently of how `execute` reaches
      it: at most two PUTs; a SUCCESS body only ever first; a second PUT
      only after a SUCCESS one, and then FAILED; after a delivered SUCCESS
      nothing else happens; a FAILED body's reason is the final reason or
      `unknown error`; an escaping error, and every outcome other than a
      delivered SUCCESS, leaves the handler FAILED; every body carries the
      event's identifiers. */
  ghost predicate ReportingRule(ev: Event, x: Execution) {
    && |x.sent| <= 2
    && (forall i :: 0 <= i < |x.sent| ==> ForEvent(ev, x.sent[i]))
    && (forall i :: 0 <= i < |x.sent| && x.sent[i].status == Success ==> i == 0)
    && (|x.sent| == 2 ==> x.sent[0].status == Success && x.sent[1].status == Failed)
    && (forall i :: 0 <= i < |x.sent| && x.sent[i].status == Failed ==>
          i == |x.sent| - 1 && x.sent[i].reason == Some(x.state.reason.GetOr(UnknownError)))
    && (x.state.status == Some(Failed) <==> !(|x.sent| == 1 && x.sent[0].status == Success && x.error.None?))
    && (|x.sent| == 1 && x.sent[0].status == Success ==> x.error.None?)
  }
}
