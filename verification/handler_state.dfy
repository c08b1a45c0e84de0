/** The per-invocation state of a custom resource handler: its fields, the
    guarded getters that refuse to hand out an unset (falsy) field, the
    setters, `fail`, and the edits a subclass hook can make through the
    members visible to it. */
module HandlerState {
  import opened Js

  datatype Status = Success | Failed

  /** Every backing field of the handler. String fields are `None` until
      assigned; untyped fields are `Undefined` until assigned. */
  datatype State = State(
    logicalResourceId: Option<string>,
    oldProperties: Value,
    physicalResourceId: Option<string>,
    requestId: Option<string>,
    stackId: Option<string>,
    stackArn: Option<string>,
    properties: Value,
    data: Value,
    noEcho: bool,
    reason: Option<string>,
    status: Option<Status>)
  {
    // Getters. Each throws when its backing field is falsy, so an empty
    // string counts as unset. The `stackId` and `stackArn` getters report
    // `physicalResourceId` as the missing field.

    function LogicalResourceId(): Completion<string> {
      Guard(logicalResourceId, "logicalResourceId")
    }

    function OldProperties(): Completion<Value> {
      GuardValue(oldProperties, "oldProperties")
    }

    function PhysicalResourceId(): Completion<string> {
      Guard(physicalResourceId, "physicalResourceId")
    }

    function RequestId(): Completion<string> {
      Guard(requestId, "requestId")
    }

    function StackId(): Completion<string> {
      Guard(stackId, "physicalResourceId")
    }

    function StackArn(): Completion<string> {
      Guard(stackArn, "physicalResourceId")
    }

    function Properties(): Completion<Value> {
      GuardValue(properties, "properties")
    }

    // Setters.

    function WithPhysicalResourceId(id: string): State {
      this.(physicalResourceId := Some(id))
    }

    /** Stores the stack ARN and the stack id derived from it. */
    function WithStackArn(arn: string): (s: State)
      ensures s.stackArn == Some(arn)
      ensures s.stackId == StackIdOf(arn)
      ensures s.(stackArn := stackArn, stackId := stackId) == this
    {
      this.(stackArn := Some(arn), stackId := StackIdOf(arn))
    }

    /** `fail(reason)`: marks the invocation failed with a reason and
        touches nothing else. */
    function Fail(why: string): (s: State)
      ensures s.status == Some(Failed) && s.reason == Some(why)
      ensures s.(status := status, reason := reason) == this
    {
      this.(status := Some(Failed), reason := Some(why))
    }
  }

  /** A freshly constructed handler: nothing assigned, `noEcho` `false`. */
  const Initial: State := State(None, Undefined, None, None, None, None, Undefined, Undefined, false, None, None)

  function NotSet(name: string): Thrown {
    Error(name + " has not been set")
  }

  /** A guarded read of a string field. */
  function Guard(field: Option<string>, name: string): (r: Completion<string>)
    ensures r.Normal? <==> field.Some? && field.value != ""
    ensures r.Normal? ==> r.value == field.value
    ensures r.Abrupt? ==> r.error == NotSet(name)
  {
    if field.None? || field.value == "" then Abrupt(NotSet(name)) else Normal(field.value)
  }

  /** A guarded read of an untyped field. */
  function GuardValue(field: Value, name: string): (r: Completion<Value>)
    ensures r.Normal? <==> Truthy(field)
    ensures r.Normal? ==> r.value == field
    ensures r.Abrupt? ==> r.error == NotSet(name)
  {
    if !Truthy(field) then Abrupt(NotSet(name)) else Normal(field)
  }

  /** `arn.split(':', 6)[5]`: the sixth colon-separated segment, or
      `undefined` when there are fewer than six. */
  function StackIdOf(arn: string): (r: Option<string>)
    ensures r.Some? <==> |Split(arn, ':')| >= 6
    ensures r.Some? ==> r.value == Split(arn, ':')[5] && ':' !in r.value
  {
    At(SplitLimit(arn, ':', 6), 5)
  }

  /** Setting a string field and reading it back gives the value, unless
      the value is empty, which reads as unset. */
  lemma PhysicalResourceIdRoundTrip(s: State, id: string)
    ensures var r := s.WithPhysicalResourceId(id).PhysicalResourceId();
            (id != "" ==> r == Normal(id)) && (id == "" ==> r == Abrupt(NotSet("physicalResourceId")))
  {
  }

  /** Reading back the stack id after setting the stack ARN: the sixth
      segment when there is a non-empty one, otherwise the getter throws
      (naming `physicalResourceId`). */
  lemma StackIdAfterSettingArn(s: State, arn: string)
    ensures var r := s.WithStackArn(arn).StackId();
            var parts := Split(arn, ':');
            && (|parts| >= 6 && parts[5] != "" ==> r == Normal(parts[5]))
            && (|parts| < 6 || parts[5] == "" ==> r == Abrupt(NotSet("physicalResourceId")))
  {
  }

  /** The stack id of an ARN made of colon-free segments is the sixth
      segment: it stops at the next colon. */
  lemma {:induction false} StackIdOfSegments(parts: seq<string>)
    requires |parts| >= 6
    requires forall i :: 0 <= i < |parts| ==> ':' !in parts[i]
    ensures StackIdOf(Join(parts, ':')) == Some(parts[5])
  {
    SplitJoin(parts, ':');
  }

  /** The stack id of a CloudFormation stack ARN is its `stack/<name>/<id>`
      segment. */
  lemma StackIdOfExampleArn()
    ensures StackIdOf(Join(["arn", "aws", "cloudformation", "us-east-1", "123456789012",
                            "stack/MyStack/abc-123"], ':'))
            == Some("stack/MyStack/abc-123")
  {
    var parts := ["arn", "aws", "cloudformation", "us-east-1", "123456789012", "stack/MyStack/abc-123"];
    StackIdOfSegments(parts);
  }

  /** What a subclass hook can do to the handler through its protected
      members: the `physicalResourceId` and `stackArn` setters, the `data`,
      `noEcho`, `reason` and `status` fields, and `fail`. */
  datatype Action =
    | SetPhysicalResourceId(id: string)
    | SetStackArn(arn: string)
    | SetData(data: Value)
    | SetNoEcho(noEcho: bool)
    | SetReason(reason: Option<string>)
    | SetStatus(status: Option<Status>)
    | CallFail(why: string)

  function Apply(s: State, a: Action): State {
    match a
    case SetPhysicalResourceId(id) => s.WithPhysicalResourceId(id)
    case SetStackArn(arn) => s.WithStackArn(arn)
    case SetData(d) => s.(data := d)
    case SetNoEcho(b) => s.(noEcho := b)
    case SetReason(r) => s.(reason := r)
    case SetStatus(st) => s.(status := st)
    case CallFail(why) => s.Fail(why)
  }

  /** The actions applied in order. */
  function ApplyAll(s: State, actions: seq<Action>): State
    decreases |actions|
  {
    if actions == [] then s else ApplyAll(Apply(s, actions[0]), actions[1..])
  }

  /** The fields a hook cannot reach: those with private setters, and the
      request id. */
  predicate SamePrivate(a: State, b: State) {
    && a.logicalResourceId == b.logicalResourceId
    && a.oldProperties == b.oldProperties
    && a.properties == b.properties
    && a.requestId == b.requestId
  }

  /** No sequence of hook actions changes a private field. */
  lemma {:induction false} HookKeepsPrivate(s: State, actions: seq<Action>)
    ensures SamePrivate(ApplyAll(s, actions), s)
    decreases |actions|
  {
    if actions != [] {
      HookKeepsPrivate(Apply(s, actions[0]), actions[1..]);
    }
  }

  predicate SetsPhysicalResourceId(a: Action) {
    a.SetPhysicalResourceId?
  }

  /** A hook that never calls the `physicalResourceId` setter leaves the id
      as it was. */
  lemma {:induction false} HookKeepsPhysicalResourceId(s: State, actions: seq<Action>)
    requires forall i :: 0 <= i < |actions| ==> !SetsPhysicalResourceId(actions[i])
    ensures ApplyAll(s, actions).physicalResourceId == s.physicalResourceId
    decreases |actions|
  {
    if actions != [] {
      assert !SetsPhysicalResourceId(actions[0]);
      HookKeepsPhysicalResourceId(Apply(s, actions[0]), actions[1..]);
    }
  }

  /** Whether an action can change `status`. */
  predicate TouchesStatus(a: Action) {
    a.SetStatus? || a.CallFail?
  }

  /** A hook that neither assigns `status` nor calls `fail` leaves the
      status as it was. */
  lemma {:induction false} HookKeepsStatus(s: State, actions: seq<Action>)
    requires forall i :: 0 <= i < |actions| ==> !TouchesStatus(actions[i])
    ensures ApplyAll(s, actions).status == s.status
    decreases |actions|
  {
    if actions != [] {
      assert !TouchesStatus(actions[0]);
      HookKeepsStatus(Apply(s, actions[0]), actions[1..]);
    }
  }

  /** A hook whose last action is `fail(why)` leaves the handler failed with
      that reason. */
  lemma {:induction false} HookEndingInFail(s: State, actions: seq<Action>, why: string)
    requires actions != [] && actions[|actions| - 1] == CallFail(why)
    ensures ApplyAll(s, actions).status == Some(Failed)
    ensures ApplyAll(s, actions).reason == Some(why)
    decreases |actions|
  {
    if |actions| > 1 {
      HookEndingInFail(Apply(s, actions[0]), actions[1..], why);
    }
  }
}
