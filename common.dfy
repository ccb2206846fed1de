/** Values and string operations shared by every part of the storefront model:
    an Option type, the JSON values a route reads from a request body with
    JavaScript truthiness, ASCII case folding, and the string and sequence
    helpers (`startsWith`, `includes`, `split(' ')`, `join(' ')`, `filter`)
    that the TypeScript code calls. */
module Common {

  datatype Option<+T> = None | Some(value: T)

  /** A value read out of a parsed JSON request body. `Undefined` is a key the
      body does not have. Numbers are reals; NaN is not modelled. */
  datatype JsonValue = Undefined | Null | Bool(b: bool) | Num(n: real) | Str(s: string)

  /** JavaScript truthiness of a JSON value (`!v` is its negation). */
  predicate Truthy(v: JsonValue) {
    match v
    case Undefined => false
    case Null => false
    case Bool(b) => b
    case Num(n) => n != 0.0
    case Str(s) => s != ""
  }

  /** `map.get(key)` read for truthiness, as `if (!token)` reads a cookie
      and `if (status)` a query parameter: a missing entry and an empty one
      are both absent. */
  function Filled(m: map<string, string>, key: string): (v: Option<string>)
    ensures v.Some? <==> key in m && m[key] != ""
    ensures v.Some? ==> v.value == m[key]
  {
    if key in m && m[key] != "" then Some(m[key]) else None
  }

  /** Destructuring `const { key } = body`. */
  function Field(body: map<string, JsonValue>, key: string): (v: JsonValue)
    ensures key !in body ==> v == Undefined
    ensures key in body ==> v == body[key]
  {
    if key in body then body[key] else Undefined
  }

  /** `v || fallback` on JSON values. */
  function OrElse(v: JsonValue, fallback: JsonValue): (r: JsonValue)
    ensures Truthy(v) ==> r == v
    ensures !Truthy(v) ==> r == fallback
  {
    if Truthy(v) then v else fallback
  }

  // ---------------------------------------------------------------------------
  // ASCII case folding (`toLowerCase` restricted to 'A'..'Z')

  function LowerChar(c: char): char {
    if 'A' <= c <= 'Z' then (c as int + 32) as char else c
  }

  function Lower(s: string): (r: string)
    ensures |r| == |s|
    ensures forall i :: 0 <= i < |s| ==> r[i] == LowerChar(s[i])
  {
    if s == [] then [] else [LowerChar(s[0])] + Lower(s[1..])
  }

  lemma {:induction false} LowerIdempotent(s: string)
    ensures Lower(Lower(s)) == Lower(s)
  {
    var l := Lower(s);
    assert |Lower(l)| == |l|;
    forall i | 0 <= i < |l| ensures Lower(l)[i] == l[i] {
      assert l[i] == LowerChar(s[i]);
    }
  }

  // ---------------------------------------------------------------------------
  // Prefixes and substrings

  /** `s.startsWith(p)` */
  predicate StartsWith(s: string, p: string) {
    |p| <= |s| && s[..|p|] == p
  }

  /** `s.includes(sub)`: `sub` occurs in `s` at some position. */
  predicate Includes(s: string, sub: string)
    decreases |s|
  {
    StartsWith(s, sub) || (s != [] && Includes(s[1..], sub))
  }

  /** Every string includes the empty string, so an empty search term keeps everything. */
  lemma IncludesEmpty(s: string)
    ensures Includes(s, "")
  {
    assert StartsWith(s, "");
  }

  /** A string never includes a longer one. */
  lemma {:induction false} IncludesShorter(s: string, sub: string)
    requires |s| < |sub|
    ensures !Includes(s, sub)
    decreases |s|
  {
    if s != [] { IncludesShorter(s[1..], sub); }
  }

  /** `s` does not include `sub` when it does not start with it and no later
      position where `sub` would still fit holds `sub`'s first character. */
  lemma {:induction false} NotIncludes(s: string, sub: string)
    requires |sub| > 0 && !StartsWith(s, sub)
    requires forall i :: 1 <= i <= |s| - |sub| ==> s[i] != sub[0]
    ensures !Includes(s, sub)
    decreases |s|
  {
    if s != [] {
      var t := s[1..];
      if |t| < |sub| {
        IncludesShorter(t, sub);
      } else {
        assert t[0] == s[1];
        forall i | 1 <= i <= |t| - |sub| ensures t[i] != sub[0] {
          assert t[i] == s[i + 1];
        }
        NotIncludes(t, sub);
      }
    }
  }

  // ---------------------------------------------------------------------------
  // `split(' ')` and `join(' ')`

  /** `s.split(' ')`: the pieces between single spaces; never empty. */
  function Split(s: string): (parts: seq<string>)
    ensures |parts| >= 1
    ensures forall k :: 0 <= k < |parts| ==> ' ' !in parts[k]
  {
    if s == [] then [[]]
    else if s[0] == ' ' then [[]] + Split(s[1..])
    else
      var rest := Split(s[1..]);
      [[s[0]] + rest[0]] + rest[1..]
  }

  /** `parts.join(' ')` */
  function Join(parts: seq<string>): string {
    if |parts| == 0 then ""
    else if |parts| == 1 then parts[0]
    else parts[0] + " " + Join(parts[1..])
  }

  /** Splitting on spaces and joining with spaces gives back the string. */
  lemma {:induction false} JoinSplit(s: string)
    ensures Join(Split(s)) == s
  {
    if s == [] {
    } else if s[0] == ' ' {
      JoinSplit(s[1..]);
      var rest := Split(s[1..]);
      assert Split(s) == [[]] + rest;
      assert ([[]] + rest)[1..] == rest;
    } else {
      JoinSplit(s[1..]);
      var rest := Split(s[1..]);
      assert Split(s) == [[s[0]] + rest[0]] + rest[1..];
      if |rest| == 1 {
      } else {
        assert Join(rest) == rest[0] + " " + Join(rest[1..]);
        assert ([[s[0]] + rest[0]] + rest[1..])[1..] == rest[1..];
      }
    }
  }

  /** The first piece of a split is the text before the first space, and the
      remaining pieces joined back are the text after it. */
  lemma {:induction false} SplitHead(s: string)
    ensures ' ' in s ==> s == Split(s)[0] + " " + Join(Split(s)[1..])
    ensures ' ' !in s ==> Split(s) == [s]
  {
    if s == [] {
    } else if s[0] == ' ' {
      JoinSplit(s[1..]);
      assert Split(s)[1..] == Split(s[1..]);
      assert s == [' '] + s[1..];
    } else {
      SplitHead(s[1..]);
      var rest := Split(s[1..]);
      assert Split(s)[1..] == rest[1..];
      assert s == [s[0]] + s[1..];
    }
  }

  /** A space splits off exactly the word before it. */
  lemma {:induction false} SplitAfterWord(a: string, b: string)
    requires ' ' !in a
    ensures Split(a + " " + b) == [a] + Split(b)
  {
    if a == [] {
      assert a + " " + b == [' '] + b;
    } else {
      SplitAfterWord(a[1..], b);
      assert (a + " " + b)[1..] == a[1..] + " " + b;
      assert [a[0]] + a[1..] == a;
    }
  }

  /** A string with a space splits into at least two pieces. */
  lemma {:induction false} SplitAtSpace(s: string)
    requires ' ' in s
    ensures |Split(s)| >= 2
  {
    if s[0] != ' ' {
      SplitAtSpace(s[1..]);
    }
  }

  // ---------------------------------------------------------------------------
  // `filter`

  /** `s.filter(keep)` */
  function Filter<T>(s: seq<T>, keep: T -> bool): (r: seq<T>)
    ensures |r| <= |s|
  {
    if s == [] then []
    else if keep(s[0]) then [s[0]] + Filter(s[1..], keep)
    else Filter(s[1..], keep)
  }

  /** The filtered sequence holds exactly the elements of `s` that pass. */
  lemma {:induction false} FilterMembers<T(!new)>(s: seq<T>, keep: T -> bool)
    ensures forall x :: x in Filter(s, keep) <==> x in s && keep(x)
  {
    if s != [] { FilterMembers(s[1..], keep); }
  }

  /** `sub` is `s` with some elements left out, order preserved. */
  predicate IsSubsequence<T(==)>(sub: seq<T>, s: seq<T>)
    decreases |s|
  {
    if sub == [] then true
    else if s == [] then false
    else if sub[0] == s[0] then IsSubsequence(sub[1..], s[1..])
    else IsSubsequence(sub, s[1..])
  }

  lemma {:induction false} FilterIsSubsequence<T>(s: seq<T>, keep: T -> bool)
    ensures IsSubsequence(Filter(s, keep), s)
  {
    if s != [] {
      FilterIsSubsequence(s[1..], keep);
      if keep(s[0]) {
        assert Filter(s, keep) == [s[0]] + Filter(s[1..], keep);
        assert Filter(s, keep)[1..] == Filter(s[1..], keep);
      } else {
        SubsequenceOfTail(Filter(s[1..], keep), s);
      }
    }
  }

  lemma {:induction false} SubsequenceOfTail<T>(sub: seq<T>, s: seq<T>)
    requires s != [] && IsSubsequence(sub, s[1..])
    ensures IsSubsequence(sub, s)
    decreases |s|, 0
  {
    if sub != [] && sub[0] == s[0] {
      SubsequenceDropHead(sub, s[1..]);
    }
  }

  lemma {:induction false} SubsequenceDropHead<T>(sub: seq<T>, s: seq<T>)
    requires sub != [] && IsSubsequence(sub, s)
    ensures IsSubsequence(sub[1..], s)
    decreases |s|, 1
  {
    if sub[0] != s[0] {
      SubsequenceDropHead(sub, s[1..]);
    }
    SubsequenceOfTail(sub[1..], s);
  }

  /** Filters with the same verdict on every element give the same result. */
  lemma {:induction false} FilterCongruent<T>(s: seq<T>, p: T -> bool, q: T -> bool)
    requires forall x :: x in s ==> p(x) == q(x)
    ensures Filter(s, p) == Filter(s, q)
  {
    if s != [] { FilterCongruent(s[1..], p, q); }
  }

  /** A filter that keeps every element returns the sequence itself. */
  lemma {:induction false} FilterAll<T>(s: seq<T>, keep: T -> bool)
    requires forall x :: x in s ==> keep(x)
    ensures Filter(s, keep) == s
  {
    if s != [] { FilterAll(s[1..], keep); }
  }

  /** A filter that keeps nothing returns the empty sequence. */
  lemma {:induction false} FilterNone<T>(s: seq<T>, keep: T -> bool)
    requires forall i :: 0 <= i < |s| ==> !keep(s[i])
    ensures Filter(s, keep) == []
  {
    if s != [] { FilterNone(s[1..], keep); }
  }

  /** Filtering a sequence with a given first element. */
  lemma FilterCons<T>(x: T, s: seq<T>, keep: T -> bool)
    ensures Filter([x] + s, keep) == if keep(x) then [x] + Filter(s, keep) else Filter(s, keep)
  {
    assert ([x] + s)[0] == x && ([x] + s)[1..] == s;
  }

  /** One more element in front of the first part keeps the two sides of
      `FilterAppend` equal. */
  lemma FilterAppendStep<T>(x: T, t: seq<T>, b: seq<T>, keep: T -> bool)
    requires Filter(t + b, keep) == Filter(t, keep) + Filter(b, keep)
    ensures Filter([x] + (t + b), keep) == Filter([x] + t, keep) + Filter(b, keep)
  {
    FilterCons(x, t + b, keep);
    FilterCons(x, t, keep);
    if keep(x) {
      calc {
        Filter([x] + (t + b), keep);
        [x] + Filter(t + b, keep);
        [x] + (Filter(t, keep) + Filter(b, keep));
        ([x] + Filter(t, keep)) + Filter(b, keep);
        Filter([x] + t, keep) + Filter(b, keep);
      }
    }
  }

  /** Filtering distributes over concatenation. */
  lemma {:induction false} FilterAppend<T>(a: seq<T>, b: seq<T>, keep: T -> bool)
    ensures Filter(a + b, keep) == Filter(a, keep) + Filter(b, keep)
  {
    if a == [] {
      assert a + b == b;
    } else {
      FilterAppend(a[1..], b, keep);
      FilterAppendStep(a[0], a[1..], b, keep);
      assert a == [a[0]] + a[1..] && a + b == [a[0]] + (a[1..] + b);
    }
  }

  /** `s.map(f)` */
  function Map<T, U>(s: seq<T>, f: T -> U): (r: seq<U>)
    ensures |r| == |s|
    ensures forall i :: 0 <= i < |s| ==> r[i] == f(s[i])
  {
    if s == [] then [] else [f(s[0])] + Map(s[1..], f)
  }
}
