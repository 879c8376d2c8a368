/**
 The small part of Python's value model that the components rely on: the
 values a field or a remote envelope can hold, the truth test `bool(v)`,
 `dict.get` with a default, and `str.replace`.
 */
module Py {

  /** A Python value. Floats and other object types are not modelled. */
  datatype Value =
    | Null
    | Bool(b: bool)
    | Int(i: int)
    | Str(s: string)
    | List(items: seq<Value>)
    | Dict(entries: map<string, Value>)

  /** Python's truth test: `None`, `False`, `0` and empty containers are falsy. */
  predicate Truthy(v: Value) {
    match v
    case Null => false
    case Bool(b) => b
    case Int(i) => i != 0
    case Str(s) => |s| > 0
    case List(items) => |items| > 0
    case Dict(entries) => |entries| > 0
  }

  /** `bool(v)`: always a boolean, and it leaves booleans as they are. */
  function ToBool(v: Value): (r: Value)
    ensures r.Bool?
    ensures v.Bool? ==> r == v
    ensures v.Str? ==> (r.b <==> v.s != "")
    ensures v.Int? ==> (r.b <==> v.i != 0)
  {
    Bool(Truthy(v))
  }

  /** The test `v is None or v == ""`: only `None` and the empty string pass it. */
  predicate IsBlank(v: Value)
    ensures IsBlank(v) ==> !Truthy(v)
    ensures v.Bool? || v.Int? || v.List? || v.Dict? ==> !IsBlank(v)
    ensures v.Str? ==> (IsBlank(v) <==> |v.s| == 0)
  {
    v == Null || v == Str("")
  }

  /** `d.get(k, default)`. */
  function Get(d: map<string, Value>, k: string, default: Value): Value {
    if k in d then d[k] else default
  }

  /** `pat` occurs in `s` starting at index `i`. */
  predicate OccursAt(s: string, pat: string, i: int) {
    0 <= i && i + |pat| <= |s| && s[i..i + |pat|] == pat
  }

  predicate Occurs(s: string, pat: string) {
    exists i | 0 <= i <= |s| :: OccursAt(s, pat, i)
  }

  /**
   `s.replace(pat, repl)` for a non-empty `pat`: scans left to right and replaces
   every non-overlapping occurrence, wherever it stands in `s`.
   */
  function Replace(s: string, pat: string, repl: string): (r: string)
    requires |pat| > 0
    ensures repl == "" ==> |r| <= |s|
    ensures |repl| == |pat| ==> |r| == |s|
    decreases |s|
  {
    if |s| < |pat| then s
    else if s[..|pat|] == pat then repl + Replace(s[|pat|..], pat, repl)
    else [s[0]] + Replace(s[1..], pat, repl)
  }

  /** A string in which the pattern does not occur is left unchanged. */
  lemma {:induction false} ReplaceWithoutOccurrence(s: string, pat: string, repl: string)
    requires |pat| > 0
    requires !Occurs(s, pat)
    ensures Replace(s, pat, repl) == s
    decreases |s|
  {
    if |s| < |pat| {
    } else {
      assert !OccursAt(s, pat, 0);
      assert s[..|pat|] != pat;
      var t := s[1..];
      forall i | OccursAt(t, pat, i)
        ensures false
      {
        assert s[i + 1..i + 1 + |pat|] == t[i..i + |pat|];
        assert OccursAt(s, pat, i + 1);
      }
      ReplaceWithoutOccurrence(t, pat, repl);
      assert s == [s[0]] + t;
    }
  }

  /** A pattern longer than the string cannot occur in it. */
  lemma LongPatternAbsent(s: string, pat: string)
    requires |pat| > |s|
    ensures !Occurs(s, pat)
  {
  }

  /** Replacing by "" deletes a leading occurrence of the pattern, and only that one when the rest does not contain it. */
  lemma {:induction false} ReplaceStripsPrefix(pat: string, t: string)
    requires |pat| > 0
    requires !Occurs(t, pat)
    ensures Replace(pat + t, pat, "") == t
  {
    var s := pat + t;
    assert s[..|pat|] == pat;
    assert s[|pat|..] == t;
    ReplaceWithoutOccurrence(t, pat, "");
  }
}
