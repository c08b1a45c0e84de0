# cfn-custom-resource in Dafny

A model of the runtime core of `cfn-custom-resource`, a TypeScript library
for writing AWS CloudFormation custom resources. CloudFormation invokes a
handler with a lifecycle event (Create, Update or Delete). The handler runs
the subclass's provisioning hook and then reports SUCCESS or FAILED with a
PUT to the event's pre-signed callback URL. The model covers three parts:

- **Physical resource id derivation** (`makePhysicalResourceId`). A readable
  part is built as `custom:` plus the logical id with every character
  outside `[A-Za-z0-9_-]` stripped. A hash tag is built as `-` plus the
  first `hashLength` characters of a hash over the *unfiltered*
  `(stackId, logicalId)`. The readable part is cut down so that the tag
  survives. `String.prototype.slice` is modelled exactly, including a
  negative end counting back from the end of the string.
- **Property and attribute validation** (`resourceProps`). A decoder either
  accepts a value or returns a list of `(field, text)` complaints. A
  rejection throws `<kind> validation failed [field: text, ...]`.
- **The handler's `execute`**. It chooses the physical id, then runs the try
  block: the `stackArn` setter, the logical id, property validation, the
  hook for the request type, and attribute validation. Any throw becomes
  `fail(reason)`. Reporting then follows one rule: one SUCCESS attempt
  unless the status is already FAILED, and if that attempt is skipped or
  cannot be built or sent, one unguarded FAILED attempt.

`execute` is a pure function `Handler.Execute(handler, event, externals, instance)`.
`instance` holds the handler's fields as the call finds them. It is
`HandlerState.Initial` for a freshly constructed handler. Otherwise it is
what an earlier invocation left, because the function `getHandler` returns
keeps calling `execute` on the same object. `Execute` returns the final
handler state, the callback bodies whose PUT was attempted (in order), and
the error that escapes to the host, if any.

What the model cannot compute is supplied as input:
- the content hash is a function parameter (`PhysicalId.Hash`);
- decoders are function parameters (`ResourceProps.Decoder`);
- each hook run is given as input: `Handler.HookRun` lists the edits the hook
  made through the protected members, then says whether it returned or
  threw;
- each callback PUT is a `SendResponse.HttpReply`: a status code, a
  transport error, or a premature close. It is classified by the 2xx
  window of `sendResponse`.

A hook is modelled as data, not as a function of the state. This loses no
generality: `execute` is deterministic, so the inputs, the instance
included, fix the state the hook sees.

Modules:
- `Js`: JavaScript semantics the code relies on. This covers values and
  truthiness, thrown values and `err?.message ?? `${err}``, `slice`, and
  `split`/`join`.
- `PhysicalId`: the physical id derivation.
- `ResourceProps`: property and attribute validation.
- `SendResponse`: how a callback PUT is classified as delivered or thrown.
- `HandlerState`: the handler's fields, the guarded getters, the setters,
  `fail`, and the actions a hook can take.
- `Handler`: `executeOverride`, the try/catch, and reporting.
- `HandlerProperties`: what `execute` guarantees.

The guarded getters (`State.LogicalResourceId()`, `State.PhysicalResourceId()`
and the rest) are instances of `HandlerState.Guard` and
`HandlerState.GuardValue`. Each throws when its backing field is falsy, so
an empty string reads as unset. The `stackId` and `stackArn` getters name
`physicalResourceId` in their error message, as the code does.

Determinism of the id derivation needs no lemma: `MakePhysicalResourceId`
is a Dafny function, so equal arguments give equal results.

### Behaviour of the code worth knowing

- **No callback with an empty physical id.** CloudFormation waits for one
  response per request. In the code, every callback body reads the guarded
  `physicalResourceId` getter. If the physical id is empty, building the
  SUCCESS body throws, and building the FAILED body then throws again. No
  PUT happens at all and the getter's error escapes. This occurs on an
  Update or Delete whose event carries an empty id, or when a hook sets
  `""`. See `HandlerProperties.UnsetPhysicalIdSendsNothing` and
  `HandlerProperties.EmptyUpdatePhysicalIdSendsNothing`.
- **Length bound.** The bound `|id| <= maxLength` holds only when
  `maxLength >= |tag|`. Below that, `slice` gets a negative end and
  shortens the readable part from the end instead of dropping it. With
  `maxLength` 3 the id for `MyResource` is 20 characters long
  (`PhysicalId.TagLongerThanMaxLength`,
  `PhysicalId.TagLongerThanMaxLengthExample`).
- **OldResourceProperties.** The code stores them with an unchecked cast,
  on Update only, and never runs a decoder over them
  (`HandlerProperties.OldPropertiesOnlyOnUpdate`).
- **State carries over between invocations.** Before the try block,
  `execute` sets only the request id and the physical id. The try block
  then sets the stack ARN, the stack id, the logical id and the decoded
  properties (`HandlerProperties.TryBlockRefreshesEventFields`). Nothing
  resets `status`, `reason`, `data`, `noEcho` or `oldProperties`. On an
  instance that an earlier invocation left FAILED, a later invocation whose
  hook touches neither `status` nor `fail` ends FAILED and sends no SUCCESS
  body. For example, a Create whose hook returns without edits is reported
  with the old reason, provided no attribute validation runs on the leftover
  `data` (`HandlerProperties.StaleFailureCarriesOver`,
  `HandlerProperties.StaleFailureReportedOnNextCreate`).
- **stackArn setter.** The setter cannot throw when given a string, so the
  model treats it as total.

### Parts of `execute` without a row of their own

The following functions are the steps `Handler.Execute` is composed of.
Each is specified through the lemmas named beside it:
- `Handler.InitialPhysicalId` and `Handler.Begin` (lines 111-120):
  `CreateDerivesPhysicalId` and `UpdateAndDeleteKeepPhysicalId`;
- `Handler.TryBlock` (lines 122-138): `TryBlockKeepsPhysicalId`,
  `PropertyRejectionReported` and `HookThrowReported`;
- `Handler.Catch` (lines 139-142): `CatchRecordsFailure`;
- `Handler.ValidateAttributes` (lines 132-138):
  `AttributesCheckedOnlyWhenPresent`;
- `Handler.Prepare` (lines 123-124): `TryBlockRefreshesEventFields`;
- `Handler.HookFor` (the `switch` at lines 179-192):
  `CreateRunsOnlyCreateResource`, `UpdateRunsOnlyUpdateResource` and
  `DeleteRunsOnlyDeleteResource`;
- `Handler.Payload` (the bodies at lines 146-155 and 163-172): the
  `ForEvent` clause of `Handler.ReportingRule` and
  `DeliveredSuccessEndsExecution`;
- `Handler.ReportFailure` (lines 163-172): the `Handler.Report` contract,
  `FailedStateSkipsSuccess` and `UnsetPhysicalIdSendsNothing`;
- `PhysicalId.Name` and `PhysicalId.HashTag` (`makePhysicalResourceId.ts`
  lines 15-17): `HashTagShape`, `MyResourceName` and the `Filter` lemmas;
- `ResourceProps.FailureMessage` (`resourceProps.ts` line 12): the
  `Validate` contract and `RejectionNamesEveryField`;
- `HandlerState.State.WithPhysicalResourceId` and the `State` getters
  (lines 19-85): `Guard`, `GuardValue`, `PhysicalResourceIdRoundTrip` and
  `StackIdAfterSettingArn`.

Line numbers without a file are in `src/runtime/CustomResourceHandlerBase.ts`.
The `HandlerProperties` lemmas are in that module.

## Model

| member | source | states |
|---|---|---|
| `Js.Slice` | src/runtime/makePhysicalResourceId.ts:17-20 | `slice(0, end)` is a prefix of the string; its length is `min(end, len)` for `end >= 0` and `max(len + end, 0)` for a negative `end` |
| `Js.Split` | src/runtime/CustomResourceHandlerBase.ts:76 | splitting on `:` always yields at least one part, and no part contains a colon |
| `Js.JoinSplit` | src/runtime/CustomResourceHandlerBase.ts:76 | joining the parts of a split with the separator gives back the original string |
| `Js.SplitJoin` | src/runtime/CustomResourceHandlerBase.ts:76 | splitting a join of separator-free parts gives back exactly those parts |
| `Js.SplitNoSep` | src/runtime/CustomResourceHandlerBase.ts:76 | a string without a colon splits into itself alone |
| `Js.SplitLimit` | src/runtime/CustomResourceHandlerBase.ts:76 | `split(sep, limit)` is a prefix of the full split with exactly `min(limit, number of parts)` parts: the whole split when it has fewer than `limit` parts |
| `PhysicalId.Filter` | src/runtime/makePhysicalResourceId.ts:16 | the filtered logical id contains only `[A-Za-z0-9_-]` and is no longer than the input |
| `PhysicalId.FilterAppend` | src/runtime/makePhysicalResourceId.ts:16 | filtering distributes over concatenation, so characters keep their relative order |
| `PhysicalId.FilterSingle` | src/runtime/makePhysicalResourceId.ts:16 | one character is kept exactly when it is in `[A-Za-z0-9_-]` |
| `PhysicalId.FilterKeepsAllowed` | src/runtime/makePhysicalResourceId.ts:16 | a logical id made only of allowed characters passes through unchanged |
| `PhysicalId.FilterIdempotent` | src/runtime/makePhysicalResourceId.ts:16 | filtering twice gives the same result as filtering once |
| `PhysicalId.MakePhysicalResourceId` | src/runtime/makePhysicalResourceId.ts:5-21 | throws `can't have maxLength < 0` exactly when `maxLength < 0`; otherwise ends with the full hash tag, and is at most `maxLength` long whenever the tag fits |
| `PhysicalId.HashTagShape` | src/runtime/makePhysicalResourceId.ts:17 | the hash tag is `-` followed by the first `min(hashLength, len(hash))` hash characters, so its length is `1 + min(hashLength, len(hash))` |
| `PhysicalId.TruncatedToFit` | src/runtime/makePhysicalResourceId.ts:15-20 | when the tag fits, the id is the longest prefix of `custom:` + filtered id that leaves room, then the tag; its length is `min(maxLength, len(name) + len(tag))` |
| `PhysicalId.NoTruncation` | src/runtime/makePhysicalResourceId.ts:15-20 | when the whole readable part fits beside the tag, the id is `custom:` + filtered id + tag |
| `PhysicalId.TagLongerThanMaxLength` | src/runtime/makePhysicalResourceId.ts:19-20 | when `0 <= maxLength` is shorter than the tag, the readable part loses only the overshoot from its end, and the id is longer than `maxLength` |
| `PhysicalId.TagLongerThanMaxLengthExample` | src/runtime/makePhysicalResourceId.ts:19-20 | with `maxLength` 3, ten hash characters and logical id `MyResource`, the id is `custom:My-0123456789`, 20 characters long |
| `PhysicalId.MyResourceName` | src/runtime/makePhysicalResourceId.ts:15-16 | the readable part for logical id `MyResource` is `custom:MyResource` |
| `PhysicalId.FilterCollisionSeparatedByTag` | src/runtime/makePhysicalResourceId.ts:15-20 | with the default limits and hashes of at least ten characters, two logical ids that filter to the same readable part still get different ids when the hashes of the unfiltered ids give different tags |
| `PhysicalId.DefaultIdForMyResource` | src/runtime/makePhysicalResourceId.ts:5-20 | with the default limits 1024 and 10, the id for `MyResource` is `custom:MyResource-` followed by the first ten hash characters |
| `ResourceProps.GetErrorMessage` | src/runtime/resourceProps.ts:18-20 | no complaints render as the empty string; one complaint renders as `field: text` |
| `ResourceProps.GetErrorMessageAppend` | src/runtime/resourceProps.ts:18-20 | the details for a concatenation of complaint lists are the two renderings joined by `, `, in input order |
| `ResourceProps.RenderedErrorInMessage` | src/runtime/resourceProps.ts:18-20 | every complaint appears whole, as `field: text`, in the details |
| `ResourceProps.FieldInMessage` | src/runtime/resourceProps.ts:19 | every complaint's field name appears in the details |
| `ResourceProps.Validate` | src/runtime/resourceProps.ts:3-16 | an accepting decoder yields exactly its value and no throw; a rejecting one throws `<kind> validation failed [<details>]` and yields no value |
| `ResourceProps.RejectionNamesEveryField` | src/runtime/resourceProps.ts:8-14 | the thrown message names every field in the decoder's complaint list |
| `ResourceProps.DefaultKindIsProperty` | src/runtime/resourceProps.ts:6-12 | without an explicit kind, the message starts `property validation failed [` |
| `SendResponse.Decimal` | src/internal/sendResponse.ts:6 | the status code is written as decimal digits that denote exactly that number, with no leading zero (0 is written `0`) |
| `SendResponse.Outcome` | src/internal/sendResponse.ts:35-51 | a PUT is delivered exactly when it ends with a 2xx status (a missing status counts as 0); otherwise it throws a status error, the transport error, or `the response was closed prematurely` |
| `SendResponse.Status500Rejected` | src/internal/sendResponse.ts:47-48 | a 500 reply throws an error whose status code is 500 |
| `HandlerState.Guard` | src/runtime/CustomResourceHandlerBase.ts:40-46 | a guarded string getter returns the field exactly when it is set and non-empty; otherwise it throws `<name> has not been set` |
| `HandlerState.GuardValue` | src/runtime/CustomResourceHandlerBase.ts:79-85 | a guarded value getter returns the field exactly when it is truthy; otherwise it throws `<name> has not been set` |
| `HandlerState.StackIdOf` | src/runtime/CustomResourceHandlerBase.ts:74-77 | the stack id is defined exactly when the ARN has at least six colon-separated segments; it is then the sixth one and contains no colon |
| `HandlerState.State.WithStackArn` | src/runtime/CustomResourceHandlerBase.ts:74-77 | the `stackArn` setter stores the ARN and the stack id derived from it, and changes nothing else |
| `HandlerState.State.Fail` | src/runtime/CustomResourceHandlerBase.ts:195-198 | `fail` sets status FAILED and the given reason, and changes no other field |
| `HandlerState.PhysicalResourceIdRoundTrip` | src/runtime/CustomResourceHandlerBase.ts:40-49 | reading the physical id after setting it gives the value back, unless the value is empty, which reads as unset |
| `HandlerState.StackIdAfterSettingArn` | src/runtime/CustomResourceHandlerBase.ts:59-77 | after setting the ARN, the stack id getter returns the sixth segment if it exists and is non-empty; otherwise it throws `physicalResourceId has not been set` |
| `HandlerState.StackIdOfSegments` | src/runtime/CustomResourceHandlerBase.ts:76 | for an ARN made of colon-free segments, the stack id is the sixth segment, whatever follows it |
| `HandlerState.StackIdOfExampleArn` | src/runtime/CustomResourceHandlerBase.ts:76 | the stack id of `arn:aws:cloudformation:us-east-1:123456789012:stack/MyStack/abc-123` is `stack/MyStack/abc-123` |
| `HandlerState.HookKeepsPrivate` | src/runtime/CustomResourceHandlerBase.ts:18-38 | no hook action changes the logical id, the properties, the old properties or the request id, because those have private setters or none |
| `HandlerState.HookKeepsPhysicalResourceId` | src/runtime/CustomResourceHandlerBase.ts:47-49 | a hook that never calls the protected `physicalResourceId` setter leaves the id unchanged |
| `HandlerState.HookKeepsStatus` | src/runtime/CustomResourceHandlerBase.ts:90-93 | a hook that neither assigns `status` nor calls `fail` leaves the status unchanged |
| `HandlerState.HookEndingInFail` | src/runtime/CustomResourceHandlerBase.ts:195-198 | a hook whose last action is `fail(why)` leaves the handler FAILED with reason `why` |
| `Handler.Report` | src/runtime/CustomResourceHandlerBase.ts:144-172 | reporting obeys the rule: at most two PUTs; SUCCESS only first; a second PUT only after SUCCESS and always FAILED; FAILED bodies carry the final reason or `unknown error`; FAILED state exactly unless a SUCCESS was delivered; every body carries the event's ids |
| `Handler.ExecuteOverride` | src/runtime/CustomResourceHandlerBase.ts:175-193 | dispatch throws exactly what the hook for the request type throws; the properties, logical id and request id survive the hook; `oldProperties` becomes the event's `OldResourceProperties` on an Update and is untouched otherwise |
| `Handler.Execute` | src/runtime/CustomResourceHandlerBase.ts:107-173 | every invocation, on a fresh or a reused instance, obeys the same reporting rule |
| `HandlerProperties.CreateDerivesPhysicalId` | src/runtime/CustomResourceHandlerBase.ts:113-117 | on Create the physical id is `makePhysicalResourceId(StackId, LogicalResourceId)`: non-empty, ending in the hash tag, and at most 1024 characters when the tag fits |
| `HandlerProperties.UpdateAndDeleteKeepPhysicalId` | src/runtime/CustomResourceHandlerBase.ts:118-120 | on Update and Delete the physical id is copied verbatim from the event |
| `HandlerProperties.TryBlockKeepsPhysicalId` | src/runtime/CustomResourceHandlerBase.ts:122-142 | the try block and catch change the physical id only through the hook's setter |
| `HandlerProperties.SentPhysicalIdIsInitial` | src/runtime/CustomResourceHandlerBase.ts:113-172 | unless the hook reassigns it, every body sent carries the physical id chosen before the try block |
| `HandlerProperties.CreateRunsOnlyCreateResource` | src/runtime/CustomResourceHandlerBase.ts:179-182 | on Create, the outcome does not depend on `updateResource` or `deleteResource` |
| `HandlerProperties.UpdateRunsOnlyUpdateResource` | src/runtime/CustomResourceHandlerBase.ts:188-191 | on Update, the outcome does not depend on `createResource` or `deleteResource` |
| `HandlerProperties.DeleteRunsOnlyDeleteResource` | src/runtime/CustomResourceHandlerBase.ts:184-186 | on Delete, the outcome does not depend on `createResource` or `updateResource` |
| `HandlerProperties.OldPropertiesOnlyOnUpdate` | src/runtime/CustomResourceHandlerBase.ts:188-189 | `oldProperties` is the event's `OldResourceProperties`, unvalidated, after an Update whose properties decode; Create and Delete keep the instance's value, `undefined` on a fresh handler |
| `HandlerProperties.CatchRecordsFailure` | src/runtime/CustomResourceHandlerBase.ts:139-142 | after the catch, the handler is FAILED exactly when something threw or it was already FAILED; a throw's reason is recorded |
| `HandlerProperties.PropertyRejectionReported` | src/runtime/CustomResourceHandlerBase.ts:125-142 | rejected properties leave the handler FAILED with `property validation failed [...]` as reason. One FAILED body with that reason is sent, or none if the physical id is empty |
| `HandlerProperties.HookThrowReported` | src/runtime/CustomResourceHandlerBase.ts:130-172 | if the hook throws, the handler is FAILED with the thrown reason. If the physical id is still set after the catch, exactly one body goes out, FAILED, with that reason, and the FAILED send's error escapes; otherwise nothing goes out and the getter's error escapes |
| `HandlerProperties.BoomReportedOnce` | src/runtime/CustomResourceHandlerBase.ts:113-172 | a Create hook throwing `Error("boom")` produces exactly one callback, FAILED, with reason `boom` |
| `HandlerProperties.HookFailReported` | src/runtime/CustomResourceHandlerBase.ts:144-172 | a hook that calls `fail(why)` last and returns, with a non-empty physical id it leaves alone, gets no SUCCESS attempt and exactly one FAILED body with reason `why` |
| `HandlerProperties.AttributesCheckedOnlyWhenPresent` | src/runtime/CustomResourceHandlerBase.ts:132-138 | attribute validation runs only with an attribute decoder and truthy `data`. An accepted value replaces `data`; a rejection throws `attribute validation failed [...]` |
| `HandlerProperties.AttributeRejectionReported` | src/runtime/CustomResourceHandlerBase.ts:132-142 | rejected attributes leave the handler FAILED with the attribute message, and every body sent is FAILED with that reason |
| `HandlerProperties.DeliveredSuccessEndsExecution` | src/runtime/CustomResourceHandlerBase.ts:144-156 | a delivered SUCCESS body is the only PUT, nothing escapes, and the state is left as it was |
| `HandlerProperties.FailedSuccessSendFallsBack` | src/runtime/CustomResourceHandlerBase.ts:157-172 | if the SUCCESS send fails, its reason overwrites the earlier one and one FAILED body follows; the outcome of that second PUT escapes |
| `HandlerProperties.FailedStateSkipsSuccess` | src/runtime/CustomResourceHandlerBase.ts:163-172 | a handler already FAILED never consults the SUCCESS reply. When the physical id is set it sends one FAILED body whose reason defaults to `unknown error`; otherwise it sends nothing and the getter's error escapes |
| `HandlerProperties.UnsetPhysicalIdSendsNothing` | src/runtime/CustomResourceHandlerBase.ts:144-172 | with an empty or unset physical id no body can be built: nothing is sent and `physicalResourceId has not been set` escapes |
| `HandlerProperties.EmptyUpdatePhysicalIdSendsNothing` | src/runtime/CustomResourceHandlerBase.ts:118-172 | an Update with an empty physical id, whose hook does not set one, sends no callback at all |
| `HandlerProperties.ReportKeepsFields` | src/runtime/CustomResourceHandlerBase.ts:144-172 | reporting changes no field of the handler other than `status` and `reason`, and those only through `fail`: the final state is the entry state or the entry state after `fail` with the final reason |
| `HandlerProperties.TryBlockRefreshesEventFields` | src/runtime/CustomResourceHandlerBase.ts:111-128 | whatever the instance held, `execute` leaves the event's request id and logical id in place. The decoded properties are stored whenever they decode. The event's stack id becomes the stack ARN unless the hook reassigns it |
| `HandlerProperties.StaleFailureCarriesOver` | src/runtime/CustomResourceHandlerBase.ts:107-172 | `execute` does not reset `status`: on an instance left FAILED, with a hook that touches neither `status` nor `fail`, the invocation ends FAILED and every body sent is FAILED |
| `HandlerProperties.StaleFailureReportedOnNextCreate` | src/runtime/CustomResourceHandlerBase.ts:107-172 | after an invocation failed with `boom`, a Create whose properties decode and whose hook returns without doing anything sends one body, FAILED, with reason `boom`, when there is no attribute decoder or the leftover `data` is falsy |
| `HandlerProperties.CreateSucceeds` | src/runtime/CustomResourceHandlerBase.ts:107-156 | a Create on a handler that has not failed, with decodable properties, a hook that returns without edits, and either no attribute decoder or falsy leftover `data` (always so on a fresh handler), sends exactly one SUCCESS body with the derived physical id; once that PUT is delivered nothing escapes and the status is unchanged |

## Left out

- The HTTPS exchange in `src/internal/sendResponse.ts`: the request, the socket events, the JSON body and `Content-Length`. Each PUT's result is an input (`HttpReply`); only its classification is modelled.
- `src/runtime/backoff.ts`: floating-point delay, `Math.random` and `setTimeout`. Nothing in the modelled code calls it.
- `src/internal/writeLog.ts` and every `console.log`: logging only, with no effect on control flow.
- The hash in `src/internal/hash.ts` is not part of this model. It is a function parameter.
- The `@fmtk/decoders` combinators, and the rest of `DecodingAssertError` beyond its message. Decoders are function parameters.
- Promises and `async`, and the Lambda `Context`. The flow is sequential, so inputs supplied in call order are enough. `getHandler` only binds `execute` to one instance; that reuse is modelled by the `instance` argument of `Handler.Execute`.
- A subclass overriding `executeOverride` itself: the model uses the base dispatch.
- A hook reading the guarded getters. A getter that throws inside a hook shows up as that hook's `thrown` outcome.
- Character encoding: JavaScript's `length` and `slice` count UTF-16 code units, while a Dafny `char` is a whole Unicode scalar value. The two differ only for characters outside the Basic Multilingual Plane, which `[A-Za-z0-9_-]` filters out. So the difference reaches the id only through the characters `hash` returns, and the model treats those as whole characters.
- Two error paths of the try/catch are not modelled. The first is a thrown value whose stringification itself throws, such as a Symbol or an object without a prototype. Then `${err}` throws inside the catch block and `execute` rejects without sending anything; `Js.Thrown` has no such case. The second is a decoder that throws instead of returning a result; `ResourceProps.Decoder` is total.
- Non-integer numbers, including `NaN`. `Value.Num` and the `maxLength`/`hashLength` arguments are integers.
- `Js.Slice`: its contract speaks only of slices from position 0, the only form the modelled code uses.
- `HandlerProperties.HookFailReported`: stated only for a handler without an attribute decoder. With one, a later attribute rejection would replace the reason.
