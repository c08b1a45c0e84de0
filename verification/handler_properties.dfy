/** What `execute` guarantees: how the physical id is chosen, which hook
    runs, how every failure ends up in `status` and `reason`, and which
    callback bodies are sent in which order. */
module HandlerProperties {
  import opened Js
  import opened PhysicalId
  import opened ResourceProps
  import opened SendResponse
  import opened HandlerState
  import opened Handler

  /** The state just before the hook runs, once the properties decoded to
      `props`. */
  function BeforeHook(ev: Event, hash: Hash, instance: State, props: Value): State {
    Prepare(ev, Begin(ev, hash, instance)).(properties := props)
  }

  /** The step right after the hook for the event's request type. */
  function AfterHook(h: ResourceHandler, ev: Event, hash: Hash, instance: State, props: Value): Step {
    ExecuteOverride(h.hooks, ev, BeforeHook(ev, hash, instance, props))
  }

  predicate KeepsPhysicalId(run: HookRun) {
    forall i :: 0 <= i < |run.actions| ==> !SetsPhysicalResourceId(run.actions[i])
  }

  // ---------------------------------------------------------------------
  // Choice of the physical id

  /** On Create the physical id is derived from the stack id and the
      logical id; it is never empty, ends with the hash tag, and fits in
      1024 characters whenever the tag does. */
  lemma CreateDerivesPhysicalId(ev: Event, hash: Hash, instance: State)
    requires ev.request.CreateRequest?
    ensures var id := Begin(ev, hash, instance).physicalResourceId;
            var tag := HashTag(hash, ev.stackId, ev.logicalResourceId, DefaultHashLength);
            && id.Some?
            && Normal(id.value) == MakePhysicalResourceId(hash, ev.stackId, ev.logicalResourceId)
            && EndsWith(id.value, tag)
            && id.value != ""
            && (|tag| <= DefaultMaxLength ==> |id.value| <= DefaultMaxLength)
  {
  }

  /** On Update and Delete the physical id is the event's, verbatim. */
  lemma UpdateAndDeleteKeepPhysicalId(ev: Event, hash: Hash, instance: State)
    requires !ev.request.CreateRequest?
    ensures Begin(ev, hash, instance).physicalResourceId == Some(ev.request.physicalResourceId)
  {
  }

  /** The try block only moves the physical id through a hook's setter. */
  lemma TryBlockKeepsPhysicalId(h: ResourceHandler, ev: Event, s: State)
    requires KeepsPhysicalId(HookFor(h.hooks, ev.request))
    ensures Catch(TryBlock(h, ev, s)).physicalResourceId == s.physicalResourceId
  {
    match Validate(h.decodeProps, ev.resourceProperties)
    case Abrupt(_) =>
    case Normal(props) =>
      var s1 := Prepare(ev, s).(properties := props);
      var before := if ev.request.UpdateRequest? then s1.(oldProperties := ev.request.oldResourceProperties) else s1;
      HookKeepsPhysicalResourceId(before, HookFor(h.hooks, ev.request).actions);
  }

  /** Unless the hook reassigns it, every body reports the physical id
      chosen before the try block. */
  lemma SentPhysicalIdIsInitial(h: ResourceHandler, ev: Event, ext: Externals, instance: State)
    requires KeepsPhysicalId(HookFor(h.hooks, ev.request))
    ensures var x := Execute(h, ev, ext, instance);
            forall i :: 0 <= i < |x.sent| ==> x.sent[i].physicalResourceId == InitialPhysicalId(ev, ext.hash)
  {
    TryBlockKeepsPhysicalId(h, ev, Begin(ev, ext.hash, instance));
  }

  // ---------------------------------------------------------------------
  // Dispatch

  /** A Create runs `createResource` only: the other hooks do not matter. */
  lemma CreateRunsOnlyCreateResource(h: ResourceHandler, ev: Event, ext: Externals, instance: State,
                                     update: Option<HookRun>, delete: Option<HookRun>)
    requires ev.request.CreateRequest?
    ensures Execute(h.(hooks := h.hooks.(updateResource := update, deleteResource := delete)), ev, ext, instance)
            == Execute(h, ev, ext, instance)
  {
  }

  /** An Update runs `updateResource` only. */
  lemma UpdateRunsOnlyUpdateResource(h: ResourceHandler, ev: Event, ext: Externals, instance: State,
                                     create: HookRun, delete: Option<HookRun>)
    requires ev.request.UpdateRequest?
    ensures Execute(h.(hooks := h.hooks.(createResource := create, deleteResource := delete)), ev, ext, instance)
            == Execute(h, ev, ext, instance)
  {
  }

  /** A Delete runs `deleteResource` only. */
  lemma DeleteRunsOnlyDeleteResource(h: ResourceHandler, ev: Event, ext: Externals, instance: State,
                                     create: HookRun, update: Option<HookRun>)
    requires ev.request.DeleteRequest?
    ensures Execute(h.(hooks := h.hooks.(createResource := create, updateResource := update)), ev, ext, instance)
            == Execute(h, ev, ext, instance)
  {
  }

  /** `oldProperties` is assigned, unvalidated, on an Update whose
      properties decode, and never for Create or Delete, which keep what
      the instance held: `undefined` on a fresh handler. */
  lemma OldPropertiesOnlyOnUpdate(h: ResourceHandler, ev: Event, ext: Externals, instance: State)
    ensures var s := Execute(h, ev, ext, instance).state;
            && (ev.request.UpdateRequest? && h.decodeProps(ev.resourceProperties).Ok? ==>
                  s.oldProperties == ev.request.oldResourceProperties)
            && (!ev.request.UpdateRequest? ==> s.oldProperties == instance.oldProperties)
            && (!ev.request.UpdateRequest? && instance == Initial ==> s.oldProperties == Undefined)
  {
  }

  // ---------------------------------------------------------------------
  // Failure capture

  /** The catch block: the handler is FAILED exactly when something threw
      or was already FAILED, and a throw's reason is what it carried. */
  lemma CatchRecordsFailure(step: Step)
    ensures Catch(step).status == Some(Failed) <==> step.thrown.Some? || step.state.status == Some(Failed)
    ensures step.thrown.Some? ==> Catch(step).reason == Some(ReasonOf(step.thrown.value))
    ensures step.thrown.None? ==> Catch(step) == step.state
  {
  }

  /** Rejected properties: no hook runs, the handler fails with the
      `property validation failed [...]` message, and only a FAILED body
      is sent (none at all if the physical id is empty). */
  lemma PropertyRejectionReported(h: ResourceHandler, ev: Event, ext: Externals, instance: State)
    requires h.decodeProps(ev.resourceProperties).Err?
    ensures var x := Execute(h, ev, ext, instance);
            var m := FailureMessage(DefaultKind, h.decodeProps(ev.resourceProperties).errors);
            var id := InitialPhysicalId(ev, ext.hash);
            && x.state.status == Some(Failed)
            && x.state.reason == Some(m)
            && (id != "" ==> |x.sent| == 1 && x.sent[0].status == Failed && x.sent[0].reason == Some(m)
                             && x.error == Outcome(ext.failedReply))
            && (id == "" ==> x.sent == [] && x.error == Some(NotSet("physicalResourceId")))
  {
  }

  /** A hook that throws: the handler fails with the thrown reason, and
      no SUCCESS body is ever built. When the physical id is still set
      after the catch, exactly one body goes out, FAILED, with that reason;
      otherwise none does and the getter's error escapes. */
  lemma HookThrowReported(h: ResourceHandler, ev: Event, ext: Externals, instance: State, e: Thrown)
    requires h.decodeProps(ev.resourceProperties).Ok?
    requires HookFor(h.hooks, ev.request).thrown == Some(e)
    ensures var x := Execute(h, ev, ext, instance);
            var caught := Catch(TryBlock(h, ev, Begin(ev, ext.hash, instance)));
            && x.state.status == Some(Failed)
            && x.state.reason == Some(ReasonOf(e))
            && (caught.PhysicalResourceId().Normal? ==>
                  && |x.sent| == 1
                  && x.sent[0].status == Failed
                  && x.sent[0].reason == Some(ReasonOf(e))
                  && x.error == Outcome(ext.failedReply))
            && (caught.PhysicalResourceId().Abrupt? ==>
                  x.sent == [] && x.error == Some(NotSet("physicalResourceId")))
  {
  }

  /** The example of a Create hook throwing `Error("boom")` with a
      non-empty logical id: one FAILED body with reason `boom`. */
  lemma BoomReportedOnce(h: ResourceHandler, ev: Event, ext: Externals, instance: State)
    requires ev.request.CreateRequest?
    requires h.decodeProps(ev.resourceProperties).Ok?
    requires h.hooks.createResource == HookRun([], Some(Error("boom")))
    ensures var x := Execute(h, ev, ext, instance);
            && |x.sent| == 1
            && x.sent[0].status == Failed
            && x.sent[0].reason == Some("boom")
  {
    CreateDerivesPhysicalId(ev, ext.hash, instance);
    TryBlockKeepsPhysicalId(h, ev, Begin(ev, ext.hash, instance));
    HookThrowReported(h, ev, ext, instance, Error("boom"));
  }

  /** A hook that calls `fail` last and returns normally (with no attribute
      decoder) is reported FAILED with its reason, without a SUCCESS
      attempt. */
  lemma HookFailReported(h: ResourceHandler, ev: Event, ext: Externals, instance: State, why: string)
    requires h.decodeProps(ev.resourceProperties).Ok?
    requires h.decodeAttributes.None?
    requires var run := HookFor(h.hooks, ev.request);
             run.thrown.None? && run.actions != [] && run.actions[|run.actions| - 1] == CallFail(why)
    requires KeepsPhysicalId(HookFor(h.hooks, ev.request))
    requires InitialPhysicalId(ev, ext.hash) != ""
    ensures var x := Execute(h, ev, ext, instance);
            && x.state.status == Some(Failed)
            && |x.sent| == 1
            && x.sent[0].status == Failed
            && x.sent[0].reason == Some(why)
            && x.error == Outcome(ext.failedReply)
  {
    var props := h.decodeProps(ev.resourceProperties).value;
    var s1 := BeforeHook(ev, ext.hash, instance, props);
    var before := if ev.request.UpdateRequest? then s1.(oldProperties := ev.request.oldResourceProperties) else s1;
    HookEndingInFail(before, HookFor(h.hooks, ev.request).actions, why);
    TryBlockKeepsPhysicalId(h, ev, Begin(ev, ext.hash, instance));
  }

  /** Attribute validation runs only with an attribute decoder and truthy
      `data`; otherwise `data` is left as the hook left it. */
  lemma AttributesCheckedOnlyWhenPresent(dec: Option<Decoder<Value>>, s: State)
    ensures !(dec.Some? && Truthy(s.data)) ==> ValidateAttributes(dec, s) == Step(s, None)
    ensures dec.Some? && Truthy(s.data) && dec.value(s.data).Ok? ==>
              ValidateAttributes(dec, s) == Step(s.(data := dec.value(s.data).value), None)
    ensures dec.Some? && Truthy(s.data) && dec.value(s.data).Err? ==>
              ValidateAttributes(dec, s)
              == Step(s, Some(Error(FailureMessage(AttributeKind, dec.value(s.data).errors))))
  {
  }

  /** Rejected attributes: the handler fails with the `attribute
      validation failed [...]` message and reports only FAILED. */
  lemma AttributeRejectionReported(h: ResourceHandler, ev: Event, ext: Externals, instance: State)
    requires h.decodeProps(ev.resourceProperties).Ok?
    requires var after := AfterHook(h, ev, ext.hash, instance, h.decodeProps(ev.resourceProperties).value);
             && after.thrown.None?
             && h.decodeAttributes.Some?
             && Truthy(after.state.data)
             && h.decodeAttributes.value(after.state.data).Err?
    ensures var after := AfterHook(h, ev, ext.hash, instance, h.decodeProps(ev.resourceProperties).value);
            var m := FailureMessage(AttributeKind, h.decodeAttributes.value(after.state.data).errors);
            var x := Execute(h, ev, ext, instance);
            && x.state.status == Some(Failed)
            && x.state.reason == Some(m)
            && (forall i :: 0 <= i < |x.sent| ==> x.sent[i].status == Failed && x.sent[i].reason == Some(m))
  {
  }

  // ---------------------------------------------------------------------
  // Reporting

  /** A delivered SUCCESS body ends the invocation: one PUT, nothing
      escapes, the state is left as it was. */
  lemma DeliveredSuccessEndsExecution(ev: Event, s: State, ext: Externals)
    requires s.status != Some(Failed)
    requires s.PhysicalResourceId().Normal?
    requires Outcome(ext.successReply).None?
    ensures var x := Report(ev, s, ext);
            && x.state == s
            && x.sent == [CallbackResponse(Success, s.reason, s.physicalResourceId.value, ev.stackId,
                                           ev.requestId, ev.logicalResourceId, s.noEcho, s.data)]
            && x.error.None?
  {
  }

  /** A SUCCESS body that cannot be sent: the send error's reason replaces
      any earlier reason, one FAILED body follows, and whatever happens to
      it escapes to the host. */
  lemma FailedSuccessSendFallsBack(ev: Event, s: State, ext: Externals, e: Thrown)
    requires s.status != Some(Failed)
    requires s.PhysicalResourceId().Normal?
    requires Outcome(ext.successReply) == Some(e)
    ensures var x := Report(ev, s, ext);
            && x.state == s.Fail(ReasonOf(e))
            && |x.sent| == 2
            && x.sent[0].status == Success
            && x.sent[1].status == Failed
            && x.sent[1].reason == Some(ReasonOf(e))
            && x.error == Outcome(ext.failedReply)
  {
  }

  /** An already FAILED handler never attempts SUCCESS: the reply to a
      SUCCESS PUT is never consulted, and at most the FAILED body goes out,
      with `unknown error` standing in for a missing reason. */
  lemma FailedStateSkipsSuccess(ev: Event, s: State, ext: Externals, anyReply: HttpReply)
    requires s.status == Some(Failed)
    ensures Report(ev, s, ext.(successReply := anyReply)) == Report(ev, s, ext)
    ensures var x := Report(ev, s, ext);
            && x.state == s
            && (s.PhysicalResourceId().Normal? ==>
                  |x.sent| == 1 && x.sent[0].status == Failed
                  && x.sent[0].reason == Some(s.reason.GetOr(UnknownError))
                  && x.error == Outcome(ext.failedReply))
            && (s.PhysicalResourceId().Abrupt? ==>
                  x.sent == [] && x.error == Some(NotSet("physicalResourceId")))
  {
  }

  /** An empty or unset physical id makes both bodies impossible to build:
      nothing is sent and the getter's error escapes. */
  lemma UnsetPhysicalIdSendsNothing(ev: Event, s: State, ext: Externals)
    requires s.PhysicalResourceId().Abrupt?
    ensures var x := Report(ev, s, ext);
            && x.sent == []
            && x.error == Some(NotSet("physicalResourceId"))
            && x.state.status == Some(Failed)
  {
  }

  /** For instance an Update whose event carries an empty physical id and
      whose hook does not set one: no callback at all. */
  lemma EmptyUpdatePhysicalIdSendsNothing(h: ResourceHandler, ev: Event, ext: Externals, instance: State)
    requires ev.request.UpdateRequest? && ev.request.physicalResourceId == ""
    requires KeepsPhysicalId(HookFor(h.hooks, ev.request))
    ensures var x := Execute(h, ev, ext, instance);
            x.sent == [] && x.error == Some(NotSet("physicalResourceId"))
  {
    TryBlockKeepsPhysicalId(h, ev, Begin(ev, ext.hash, instance));
    UnsetPhysicalIdSendsNothing(ev, Catch(TryBlock(h, ev, Begin(ev, ext.hash, instance))), ext);
  }

  // ---------------------------------------------------------------------
  // Reuse of one handler instance

  predicate KeepsStatus(run: HookRun) {
    forall i :: 0 <= i < |run.actions| ==> !TouchesStatus(run.actions[i])
  }

  /** `execute` never resets `status`: on an instance an earlier invocation
      left FAILED, a hook that does not touch the status cannot get a
      SUCCESS body sent, whatever else happens. */
  lemma StaleFailureCarriesOver(h: ResourceHandler, ev: Event, ext: Externals, instance: State)
    requires instance.status == Some(Failed)
    requires KeepsStatus(HookFor(h.hooks, ev.request))
    ensures var x := Execute(h, ev, ext, instance);
            && x.state.status == Some(Failed)
            && forall i :: 0 <= i < |x.sent| ==> x.sent[i].status == Failed
  {
    var begun := Begin(ev, ext.hash, instance);
    match Validate(h.decodeProps, ev.resourceProperties)
    case Abrupt(_) =>
    case Normal(props) =>
      var s1 := Prepare(ev, begun).(properties := props);
      var before := if ev.request.UpdateRequest? then s1.(oldProperties := ev.request.oldResourceProperties) else s1;
      HookKeepsStatus(before, HookFor(h.hooks, ev.request).actions);
  }

  /** The concrete case: after an invocation that failed with `boom`, a
      Create whose properties decode and whose hook returns without doing
      anything is still reported FAILED with reason `boom`, provided no
      attribute validation runs on the `data` left behind (there is no
      attribute decoder, or that `data` is falsy). */
  lemma StaleFailureReportedOnNextCreate(h: ResourceHandler, ev: Event, ext: Externals, earlier: State)
    requires ev.request.CreateRequest?
    requires h.decodeProps(ev.resourceProperties).Ok?
    requires h.decodeAttributes.None? || !Truthy(earlier.data)
    requires h.hooks.createResource == HookRun([], None)
    ensures var x := Execute(h, ev, ext, earlier.Fail("boom"));
            && |x.sent| == 1
            && x.sent[0].status == Failed
            && x.sent[0].reason == Some("boom")
  {
    var instance := earlier.Fail("boom");
    CreateDerivesPhysicalId(ev, ext.hash, instance);
  }

  /** The path the library exists for: a Create on a handler that has not
      failed, whose properties decode and whose hook returns without
      touching the state, sends exactly one SUCCESS body carrying the
      derived physical id; once that PUT is delivered nothing escapes. No
      attribute validation may run on leftover `data`, which holds on every
      fresh handler (`data` starts `undefined`). */
  lemma CreateSucceeds(h: ResourceHandler, ev: Event, ext: Externals, instance: State)
    requires ev.request.CreateRequest?
    requires instance.status != Some(Failed)
    requires h.decodeProps(ev.resourceProperties).Ok?
    requires h.decodeAttributes.None? || !Truthy(instance.data)
    requires h.hooks.createResource == HookRun([], None)
    requires Outcome(ext.successReply).None?
    ensures var x := Execute(h, ev, ext, instance);
            && x.error.None?
            && x.state.status == instance.status
            && |x.sent| == 1
            && x.sent[0].status == Success
            && x.sent[0].reason == instance.reason
            && Normal(x.sent[0].physicalResourceId)
               == MakePhysicalResourceId(ext.hash, ev.stackId, ev.logicalResourceId)
  {
    CreateDerivesPhysicalId(ev, ext.hash, instance);
  }

  predicate KeepsStackArn(run: HookRun) {
    forall i :: 0 <= i < |run.actions| ==> !run.actions[i].SetStackArn?
  }

  /** Whatever an earlier invocation left in the instance, `execute` puts
      the event's request id and logical id in place, stores the decoded
      properties, and, unless the hook reassigns it, the event's stack id
      as the stack ARN. */
  lemma TryBlockRefreshesEventFields(h: ResourceHandler, ev: Event, ext: Externals, instance: State)
    ensures var s := Execute(h, ev, ext, instance).state;
            && s.requestId == Some(ev.requestId)
            && s.logicalResourceId == Some(ev.logicalResourceId)
            && (h.decodeProps(ev.resourceProperties).Ok? ==>
                  s.properties == h.decodeProps(ev.resourceProperties).value)
            && (KeepsStackArn(HookFor(h.hooks, ev.request)) ==> s.stackArn == Some(ev.stackId))
  {
    var step := TryBlock(h, ev, Begin(ev, ext.hash, instance));
    var caught := Catch(step);
    ReportKeepsFields(ev, caught, ext);
    assert caught.(status := step.state.status, reason := step.state.reason) == step.state;
    match Validate(h.decodeProps, ev.resourceProperties)
    case Abrupt(_) =>
    case Normal(props) =>
      var s1 := BeforeHook(ev, ext.hash, instance, props);
      var before := if ev.request.UpdateRequest? then s1.(oldProperties := ev.request.oldResourceProperties) else s1;
      var run := HookFor(h.hooks, ev.request);
      if KeepsStackArn(run) {
        HookKeepsStackArn(before, run.actions);
      }
  }

  /** Reporting changes at most `status` and `reason`, and those only
      through `fail`. */
  lemma ReportKeepsFields(ev: Event, s: State, ext: Externals)
    ensures Report(ev, s, ext).state.(status := s.status, reason := s.reason) == s
    ensures var t := Report(ev, s, ext).state;
            t == s || (t.reason.Some? && t == s.Fail(t.reason.value))
  {
  }

  lemma {:induction false} HookKeepsStackArn(s: State, actions: seq<Action>)
    requires forall i :: 0 <= i < |actions| ==> !actions[i].SetStackArn?
    ensures ApplyAll(s, actions).stackArn == s.stackArn
    decreases |actions|
  {
    if actions != [] {
      assert !actions[0].SetStackArn?;
      HookKeepsStackArn(Apply(s, actions[0]), actions[1..]);
    }
  }
}
