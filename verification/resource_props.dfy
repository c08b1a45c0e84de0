/** Validation of untyped input through a decoder: the decoded value on
    success, otherwise a thrown error whose message lists every complaint. */
module ResourceProps {
  import opened Js

  /** One complaint of a decoder: the offending field and what is wrong. */
  datatype DecoderError = DecoderError(field: string, text: string)

  /** What a decoder returns. */
  datatype DecodeResult<+T> = Ok(value: T) | Err(errors: seq<DecoderError>)

  /** A schema decoder. Its combinators are not part of this model, so a
      decoder is any total function from an untyped value. */
  type Decoder<!T> = Value -> DecodeResult<T>

  const DefaultKind: string := "property"

  /** One complaint rendered as `field: text`. */
  function Render(e: DecoderError): string {
    e.field + ": " + e.text
  }

  /** The rendered complaints joined with `, `, in the decoder's order. */
  function GetErrorMessage(errors: seq<DecoderError>): (m: string)
    ensures errors == [] ==> m == ""
    ensures |errors| == 1 ==> m == Render(errors[0])
    decreases |errors|
  {
    if |errors| == 0 then ""
    else if |errors| == 1 then Render(errors[0])
    else Render(errors[0]) + ", " + GetErrorMessage(errors[1..])
  }

  /** The message of the error thrown for a rejected value. */
  function FailureMessage(kind: string, errors: seq<DecoderError>): string {
    kind + " validation failed [" + GetErrorMessage(errors) + "]"
  }

  /** Runs the decoder on `value`: its value when it accepts, a thrown
      error when it rejects. */
  function Validate<T>(decoder: Decoder<T>, value: Value, kind: string := DefaultKind): (r: Completion<T>)
    ensures decoder(value).Ok? <==> r.Normal?
    ensures decoder(value).Ok? ==> r.value == decoder(value).value
    ensures decoder(value).Err? ==> r.error == Error(FailureMessage(kind, decoder(value).errors))
  {
    match decoder(value)
    case Ok(v) => Normal(v)
    case Err(errors) => Abrupt(Error(FailureMessage(kind, errors)))
  }

  /** Rendering keeps the order of the complaints: the message for a
      concatenation is the two messages joined by `, `. */
  lemma {:induction false} GetErrorMessageAppend(a: seq<DecoderError>, b: seq<DecoderError>)
    requires a != [] && b != []
    ensures GetErrorMessage(a + b) == GetErrorMessage(a) + ", " + GetErrorMessage(b)
    decreases |a|
  {
    if |a| == 1 {
      assert (a + b)[1..] == b;
    } else {
      assert (a + b)[1..] == a[1..] + b;
      GetErrorMessageAppend(a[1..], b);
    }
  }

  /** Every complaint appears in the message, rendered whole. */
  lemma {:induction false} RenderedErrorInMessage(errors: seq<DecoderError>, i: nat)
    requires i < |errors|
    ensures Contains(GetErrorMessage(errors), Render(errors[i]))
    decreases |errors|
  {
    var m := GetErrorMessage(errors);
    var head := Render(errors[0]);
    if i == 0 {
      assert m[0..|head|] == head;
      assert OccursAt(m, head, 0);
    } else {
      var rest := GetErrorMessage(errors[1..]);
      RenderedErrorInMessage(errors[1..], i - 1);
      var x := Render(errors[i]);
      assert errors[1..][i - 1] == errors[i];
      var k :| OccursAt(rest, x, k);
      var off := |head| + 2;
      assert m == head + ", " + rest;
      assert m[off + k..off + k + |x|] == rest[k..k + |x|];
      assert OccursAt(m, x, off + k);
    }
  }

  /** Every field named in a complaint appears in the message. */
  lemma FieldInMessage(errors: seq<DecoderError>, i: nat)
    requires i < |errors|
    ensures Contains(GetErrorMessage(errors), errors[i].field)
  {
    var m := GetErrorMessage(errors);
    var x := Render(errors[i]);
    var f := errors[i].field;
    RenderedErrorInMessage(errors, i);
    var k :| OccursAt(m, x, k);
    assert x[..|f|] == f;
    assert m[k..k + |f|] == x[..|f|];
    assert OccursAt(m, f, k);
  }

  /** A rejected value raises an error whose message names every field the
      decoder complained about. */
  lemma RejectionNamesEveryField<T>(decoder: Decoder<T>, value: Value, kind: string, i: nat)
    requires decoder(value).Err?
    requires i < |decoder(value).errors|
    ensures var r := Validate(decoder, value, kind);
            r.Abrupt? && Contains(ReasonOf(r.error), decoder(value).errors[i].field)
  {
    var errors := decoder(value).errors;
    var details := GetErrorMessage(errors);
    var m := FailureMessage(kind, errors);
    var f := errors[i].field;
    FieldInMessage(errors, i);
    var k :| OccursAt(details, f, k);
    var off := |kind| + |" validation failed ["|;
    assert m[off..off + |details|] == details;
    assert m[off + k..off + k + |f|] == details[k..k + |f|];
    assert OccursAt(m, f, off + k);
  }

  /** Without an explicit kind the message starts `property validation
      failed [`. */
  lemma DefaultKindIsProperty<T>(decoder: Decoder<T>, value: Value)
    requires decoder(value).Err?
    ensures var r := Validate(decoder, value);
            r.Abrupt? && "property validation failed [" <= ReasonOf(r.error)
  {
    var m := FailureMessage(DefaultKind, decoder(value).errors);
    var head := DefaultKind + " validation failed [";
    assert head == "property validation failed [";
    assert m == head + (GetErrorMessage(decoder(value).errors) + "]");
    assert ReasonOf(Error(m)) == m;
  }
}
