/** The parts of JavaScript's runtime semantics that the handler relies on:
    untyped values and their truthiness, thrown values and how a catch block
    turns them into a reason string, `String.prototype.slice`, and
    `String.prototype.split` on a one-character separator. */
module Js {

  datatype Option<+T> = None | Some(value: T) {
    function GetOr(default: T): T {
      match this
      case Some(v) => v
      case None => default
    }
  }

  /** An untyped value as it arrives from the event JSON or as a subclass
      stores it in `data`. Numbers are modelled as integers. */
  datatype Value =
    | Undefined
    | Null
    | Bool(b: bool)
    | Num(n: int)
    | Str(s: string)
    | Arr(elems: seq<Value>)
    | Obj(fields: map<string, Value>)

  /** JavaScript truthiness: `undefined`, `null`, `false`, `0` and `""` are
      falsy; every array and object is truthy, even an empty one. */
  predicate Truthy(v: Value) {
    match v
    case Undefined => false
    case Null => false
    case Bool(b) => b
    case Num(n) => n != 0
    case Str(s) => s != ""
    case Arr(_) => true
    case Obj(_) => true
  }

  /** A thrown value. `Error` and `StatusError` are Error objects (the latter
      is a SendResponseError, which also carries an HTTP status code);
      `NonError` is anything else that can be thrown, kept as its
      template-literal stringification. */
  datatype Thrown =
    | Error(message: string)
    | StatusError(statusCode: int, message: string)
    | NonError(text: string)

  /** `err?.message ?? `${err}``: the message of an Error object, otherwise
      the stringified value. */
  function ReasonOf(e: Thrown): string {
    match e
    case Error(m) => m
    case StatusError(_, m) => m
    case NonError(t) => t
  }

  /** Either a normal value or a throw. */
  datatype Completion<+T> = Normal(value: T) | Abrupt(error: Thrown)

  function Min(a: int, b: int): int { if a <= b then a else b }
  function Max(a: int, b: int): int { if a <= b then b else a }

  /** How `slice` turns a relative position into an index of a string of
      length `len`: negative positions count back from the end and stop at
      0, non-negative ones stop at `len`. */
  function RelativeIndex(len: nat, k: int): (r: nat)
    ensures r <= len
    ensures k >= 0 ==> r == Min(k, len)
    ensures k < 0 ==> r == Max(len + k, 0)
  {
    if k < 0 then (if len + k < 0 then 0 else len + k)
    else if k < len then k else len
  }

  /** `s.slice(start, end)` with integer arguments (ECMA-262,
      String.prototype.slice). */
  function Slice(s: string, start: int, end: int): (r: string)
    ensures |r| <= |s|
    ensures start == 0 ==> r <= s
    ensures start == 0 && end >= 0 ==> |r| == Min(end, |s|)
    ensures start == 0 && end < 0 ==> |r| == Max(|s| + end, 0)
  {
    var from := RelativeIndex(|s|, start);
    var to := RelativeIndex(|s|, end);
    if from >= to then []
    else
      s[from..to]
  }

  predicate EndsWith(s: string, suffix: string) {
    |suffix| <= |s| && s[|s| - |suffix|..] == suffix
  }

  /** `x` occurs in `s` starting at position `i`. */
  predicate OccursAt(s: string, x: string, i: int) {
    0 <= i <= |s| - |x| && s[i..i + |x|] == x
  }

  /** `x` occurs as a contiguous run of characters inside `s`. */
  ghost predicate Contains(s: string, x: string) {
    exists i :: OccursAt(s, x, i)
  }

  /** `s.split(sep)` for a one-character separator: the maximal runs of
      characters between separators, in order. There is always at least
      one part (`"".split(":")` is `[""]`). */
  function Split(s: string, sep: char): (parts: seq<string>)
    ensures |parts| >= 1
    ensures forall i :: 0 <= i < |parts| ==> sep !in parts[i]
    decreases |s|
  {
    if |s| == 0 then [""]
    else
      var rest := Split(s[1..], sep);
      if s[0] == sep then [""] + rest
      else [[s[0]] + rest[0]] + rest[1..]
  }

  /** `parts.join(sep)`. */
  function Join(parts: seq<string>, sep: char): (s: string)
    requires |parts| >= 1
    ensures |s| >= |parts| - 1
    decreases |parts|
  {
    if |parts| == 1 then parts[0]
    else parts[0] + [sep] + Join(parts[1..], sep)
  }

  /** Joining the parts of a split gives back the original string. */
  lemma {:induction false} JoinSplit(s: string, sep: char)
    ensures Join(Split(s, sep), sep) == s
    decreases |s|
  {
    if |s| > 0 {
      var rest := Split(s[1..], sep);
      JoinSplit(s[1..], sep);
      if s[0] == sep {
        assert s == [sep] + s[1..];
      } else if |rest| == 1 {
        assert s == [s[0]] + s[1..];
      } else {
        assert rest == [rest[0]] + rest[1..];
        assert Join(rest, sep) == rest[0] + [sep] + Join(rest[1..], sep);
        assert s == [s[0]] + s[1..];
      }
    }
  }

  /** Splitting a join of separator-free parts gives back the parts. */
  lemma {:induction false} SplitJoin(parts: seq<string>, sep: char)
    requires |parts| >= 1
    requires forall i :: 0 <= i < |parts| ==> sep !in parts[i]
    ensures Split(Join(parts, sep), sep) == parts
    decreases |parts|, |parts[0]|
  {
    if |parts| == 1 {
      SplitNoSep(parts[0], sep);
    } else if |parts[0]| == 0 {
      var tail := parts[1..];
      assert forall i :: 0 <= i < |tail| ==> sep !in tail[i] by {
        forall i | 0 <= i < |tail| ensures sep !in tail[i] { assert tail[i] == parts[i + 1]; }
      }
      SplitJoin(tail, sep);
      assert Join(parts, sep) == [sep] + Join(tail, sep);
      SplitSep(Join(tail, sep), sep);
      assert parts == [""] + tail;
    } else {
      var c := parts[0][0];
      var shorter := [parts[0][1..]] + parts[1..];
      assert forall i :: 0 <= i < |shorter| ==> sep !in shorter[i] by {
        forall i | 0 <= i < |shorter| ensures sep !in shorter[i] {
          if i == 0 {
            assert forall d | d in parts[0][1..] :: d in parts[0];
          } else {
            assert shorter[i] == parts[i];
          }
        }
      }
      SplitJoin(shorter, sep);
      assert c in parts[0];
      assert Join(shorter, sep) == parts[0][1..] + [sep] + Join(parts[1..], sep);
      assert Join(parts, sep) == [c] + Join(shorter, sep);
      SplitOther(c, Join(shorter, sep), sep);
      assert parts[0] == [c] + parts[0][1..];
      assert shorter[1..] == parts[1..];
    }
  }

  /** One unfolding of `Split` at a leading separator. */
  lemma SplitSep(s: string, sep: char)
    ensures Split([sep] + s, sep) == [""] + Split(s, sep)
  {
    assert ([sep] + s)[1..] == s;
  }

  /** One unfolding of `Split` at a leading non-separator. */
  lemma SplitOther(c: char, s: string, sep: char)
    requires c != sep
    ensures Split([c] + s, sep) == [[c] + Split(s, sep)[0]] + Split(s, sep)[1..]
  {
    assert ([c] + s)[1..] == s;
  }

  /** A string without the separator splits into itself. */
  lemma {:induction false} SplitNoSep(s: string, sep: char)
    requires sep !in s
    ensures Split(s, sep) == [s]
    decreases |s|
  {
    if |s| > 0 {
      assert sep !in s[1..] by {
        forall c | c in s[1..] ensures c != sep { assert c in s; }
      }
      SplitNoSep(s[1..], sep);
      assert s == [s[0]] + s[1..];
    }
  }

  /** `s.split(sep, limit)`: the full split cut to its first `limit` parts. */
  function SplitLimit(s: string, sep: char, limit: nat): (parts: seq<string>)
    ensures parts <= Split(s, sep)
    ensures |parts| == Min(limit, |Split(s, sep)|)
  {
    var all := Split(s, sep);
    if |all| <= limit then all else all[..limit]
  }

  /** Array indexing, where a position past the end reads `undefined`. */
  function At<T>(xs: seq<T>, i: nat): Option<T> {
    if i < |xs| then Some(xs[i]) else None
  }
}
