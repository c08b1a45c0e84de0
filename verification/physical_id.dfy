/** Derivation of the physical resource id a Create request reports:
    a readable part built from the logical id, cut short so that a tag taken
    from a hash of (stack id, logical id) always survives in full. */
module PhysicalId {
  import opened Js

  const AutoPhysicalResourceIdPrefix: string := "custom:"
  const DefaultMaxLength: int := 1024
  const DefaultHashLength: int := 10
  const NegativeMaxLengthMessage: string := "can't have maxLength < 0"

  /** The content hash of the pair `[stackId, logicalId]`. Its definition is
      not part of this model, so callers supply it. */
  type Hash = (string, string) -> string

  /** The characters `[a-zA-Z0-9-_]` that survive in the readable part. */
  predicate Allowed(c: char) {
    ('a' <= c <= 'z') || ('A' <= c <= 'Z') || ('0' <= c <= '9') || c == '-' || c == '_'
  }

  /** `s.replace(/[^a-zA-Z0-9-_]/g, '')`. */
  function Filter(s: string): (r: string)
    ensures |r| <= |s|
    ensures forall i :: 0 <= i < |r| ==> Allowed(r[i])
    decreases |s|
  {
    if |s| == 0 then []
    else (if Allowed(s[0]) then [s[0]] else []) + Filter(s[1..])
  }

  /** The readable part before truncation. */
  function Name(logicalId: string): string {
    AutoPhysicalResourceIdPrefix + Filter(logicalId)
  }

  /** `'-' + hash([stackId, logicalId]).slice(0, hashLength)`; the hash is of
      the logical id as given, not of its filtered form. */
  function HashTag(hash: Hash, stackId: string, logicalId: string, hashLength: int): string {
    "-" + Slice(hash(stackId, logicalId), 0, hashLength)
  }

  /** The physical resource id for a logical resource of a stack, or the
      error thrown for a negative `maxLength`. */
  function MakePhysicalResourceId(
    hash: Hash,
    stackId: string,
    logicalId: string,
    maxLength: int := DefaultMaxLength,
    hashLength: int := DefaultHashLength
  ): (r: Completion<string>)
    ensures r.Abrupt? <==> maxLength < 0
    ensures r.Abrupt? ==> r.error == Error(NegativeMaxLengthMessage)
    ensures r.Normal? ==> EndsWith(r.value, HashTag(hash, stackId, logicalId, hashLength))
    ensures r.Normal? && maxLength >= |HashTag(hash, stackId, logicalId, hashLength)|
            ==> |r.value| <= maxLength
  {
    if maxLength < 0 then
      Abrupt(Error(NegativeMaxLengthMessage))
    else
      var name := Name(logicalId);
      var hashtag := HashTag(hash, stackId, logicalId, hashLength);
      var taglessLength := maxLength - |hashtag|;
      Normal(Slice(name, 0, taglessLength) + hashtag)
  }

  /** The hash tag is a dash and then the first `hashLength` characters of
      the hash, or all of them when the hash is shorter. */
  lemma HashTagShape(hash: Hash, stackId: string, logicalId: string, hashLength: int)
    requires hashLength >= 0
    ensures var tag := HashTag(hash, stackId, logicalId, hashLength);
            var h := hash(stackId, logicalId);
            |tag| == 1 + Min(hashLength, |h|) && tag == "-" + h[..Min(hashLength, |h|)]
  {
  }

  /** When the hash tag fits in `maxLength`, the id is a prefix of the
      readable part, as long as the room left allows, followed by the tag. */
  lemma TruncatedToFit(hash: Hash, stackId: string, logicalId: string, maxLength: int, hashLength: int)
    requires maxLength >= |HashTag(hash, stackId, logicalId, hashLength)|
    ensures var r := MakePhysicalResourceId(hash, stackId, logicalId, maxLength, hashLength);
            var tag := HashTag(hash, stackId, logicalId, hashLength);
            var keep := Min(maxLength - |tag|, |Name(logicalId)|);
            && r.Normal?
            && r.value == Name(logicalId)[..keep] + tag
            && |r.value| == Min(maxLength, |Name(logicalId)| + |tag|)
  {
  }

  /** When the readable part fits beside the tag nothing is cut. */
  lemma NoTruncation(hash: Hash, stackId: string, logicalId: string, maxLength: int, hashLength: int)
    requires |Name(logicalId)| <= maxLength - |HashTag(hash, stackId, logicalId, hashLength)|
    ensures MakePhysicalResourceId(hash, stackId, logicalId, maxLength, hashLength)
            == Normal(AutoPhysicalResourceIdPrefix + Filter(logicalId)
                      + HashTag(hash, stackId, logicalId, hashLength))
  {
    TruncatedToFit(hash, stackId, logicalId, maxLength, hashLength);
    assert Name(logicalId)[..|Name(logicalId)|] == Name(logicalId);
  }

  /** When `0 <= maxLength` but the tag alone is longer, `slice` receives a
      negative end and counts it back from the end of the readable part:
      the part is shortened by the overshoot rather than dropped, and the id
      is longer than `maxLength`. */
  lemma TagLongerThanMaxLength(hash: Hash, stackId: string, logicalId: string, maxLength: int, hashLength: int)
    requires 0 <= maxLength < |HashTag(hash, stackId, logicalId, hashLength)|
    ensures var r := MakePhysicalResourceId(hash, stackId, logicalId, maxLength, hashLength);
            var tag := HashTag(hash, stackId, logicalId, hashLength);
            var overshoot := |tag| - maxLength;
            && r.Normal?
            && r.value == Name(logicalId)[..Max(|Name(logicalId)| - overshoot, 0)] + tag
            && |r.value| > maxLength
  {
  }

  /** A concrete instance of the overshoot: with `maxLength` 3 and a hash
      of ten characters, the id keeps nine readable characters and is
      twenty characters long. */
  lemma TagLongerThanMaxLengthExample(hash: Hash)
    requires hash("stack", "MyResource") == "0123456789"
    ensures var r := MakePhysicalResourceId(hash, "stack", "MyResource", 3, 10);
            r == Normal("custom:My-0123456789") && |r.value| == 20
  {
    OvershootFor(hash, "stack", "MyResource", "0123456789");
  }

  lemma OvershootFor(hash: Hash, stackId: string, logicalId: string, h: string)
    requires logicalId == "MyResource" && h == "0123456789"
    requires hash(stackId, logicalId) == h
    ensures MakePhysicalResourceId(hash, stackId, logicalId, 3, 10) == Normal("custom:My-0123456789")
  {
    var tag := HashTag(hash, stackId, logicalId, 10);
    HashTagShape(hash, stackId, logicalId, 10);
    assert tag == "-" + h && |tag| == 11;
    MyResourceName(logicalId);
    assert |Name(logicalId)| == 17;
    assert Name(logicalId)[..9] == "custom:My";
    TagLongerThanMaxLength(hash, stackId, logicalId, 3, 10);
    assert MakePhysicalResourceId(hash, stackId, logicalId, 3, 10).value == Name(logicalId)[..9] + tag;
    assert "custom:My" + ("-" + h) == "custom:My-0123456789";
  }

  /** The readable part of the logical id `MyResource`. */
  lemma MyResourceName(id: string)
    requires id == "MyResource"
    ensures Name(id) == "custom:MyResource"
  {
    assert |id| == 10;
    forall i | 0 <= i < |id| ensures Allowed(id[i]) {
      assert 'A' <= id[i] <= 'z';
      assert !('Z' < id[i] < 'a');
    }
    FilterKeepsAllowed(id);
    assert AutoPhysicalResourceIdPrefix + id == "custom:MyResource";
  }

  /** Filtering works character by character: it distributes over
      concatenation, and keeps one character exactly when it is allowed.
      Together these say that the allowed characters are kept in order and
      every other one is dropped. */
  lemma {:induction false} FilterAppend(a: string, b: string)
    ensures Filter(a + b) == Filter(a) + Filter(b)
    decreases |a|
  {
    if |a| > 0 {
      assert (a + b)[1..] == a[1..] + b;
      FilterAppend(a[1..], b);
    } else {
      assert a + b == b;
    }
  }

  lemma FilterSingle(c: char)
    ensures Filter([c]) == (if Allowed(c) then [c] else [])
  {
    assert [c][1..] == [];
  }

  /** A string of allowed characters passes through unchanged. */
  lemma {:induction false} FilterKeepsAllowed(s: string)
    requires forall i :: 0 <= i < |s| ==> Allowed(s[i])
    ensures Filter(s) == s
    decreases |s|
  {
    if |s| > 0 {
      FilterKeepsAllowed(s[1..]);
      assert s == [s[0]] + s[1..];
    }
  }

  /** Filtering twice is the same as filtering once. */
  lemma FilterIdempotent(s: string)
    ensures Filter(Filter(s)) == Filter(s)
  {
    FilterKeepsAllowed(Filter(s));
  }

  /** Two logical ids that filter to the same readable part still get
      different ids when their hash tags differ: the tag is computed from
      the unfiltered id. */
  lemma FilterCollisionSeparatedByTag(hash: Hash, stackId: string, a: string, b: string)
    requires Filter(a) == Filter(b)
    requires |hash(stackId, a)| >= DefaultHashLength && |hash(stackId, b)| >= DefaultHashLength
    requires HashTag(hash, stackId, a, DefaultHashLength) != HashTag(hash, stackId, b, DefaultHashLength)
    ensures MakePhysicalResourceId(hash, stackId, a) != MakePhysicalResourceId(hash, stackId, b)
  {
    var hashtagA := HashTag(hash, stackId, a, DefaultHashLength);
    var hashtagB := HashTag(hash, stackId, b, DefaultHashLength);
    HashTagShape(hash, stackId, a, DefaultHashLength);
    HashTagShape(hash, stackId, b, DefaultHashLength);
    var ra := MakePhysicalResourceId(hash, stackId, a);
    var rb := MakePhysicalResourceId(hash, stackId, b);
    TruncatedToFit(hash, stackId, a, DefaultMaxLength, DefaultHashLength);
    TruncatedToFit(hash, stackId, b, DefaultMaxLength, DefaultHashLength);
    var keep := Min(DefaultMaxLength - |hashtagA|, |Name(a)|);
    assert ra.value[keep..] == hashtagA;
    assert rb.value[keep..] == hashtagB;
  }

  /** With the default limits, the id for `MyResource` starts with
      `custom:MyResource` and ends with a dash and ten hash characters. */
  lemma DefaultIdForMyResource(hash: Hash, stackId: string, logicalId: string)
    requires logicalId == "MyResource"
    requires |hash(stackId, logicalId)| >= 10
    ensures var r := MakePhysicalResourceId(hash, stackId, logicalId);
            && r.Normal?
            && "custom:MyResource" <= r.value
            && r.value == "custom:MyResource-" + hash(stackId, logicalId)[..10]
  {
    var h := hash(stackId, logicalId);
    MyResourceName(logicalId);
    HashTagShape(hash, stackId, logicalId, DefaultHashLength);
    var tag := HashTag(hash, stackId, logicalId, DefaultHashLength);
    assert tag == "-" + h[..10];
    NoTruncation(hash, stackId, logicalId, DefaultMaxLength, DefaultHashLength);
    var r := MakePhysicalResourceId(hash, stackId, logicalId);
    assert r.value == "custom:MyResource" + tag;
    assert r.value == "custom:MyResource-" + h[..10];
  }
}
