/** The slug both admin create routes derive from a name
    (app/api/admin/products/route.ts and app/api/admin/categories/route.ts):
    `name.toLowerCase().replace(/[^a-z0-9]+/g, '-').replace(/^-+|-+$/g, '')`. */
module Slug {
  import opened Common

  /** `[a-z0-9]` */
  predicate IsAlnum(c: char) {
    'a' <= c <= 'z' || '0' <= c <= '9'
  }

  predicate SlugChar(c: char) {
    IsAlnum(c) || c == '-'
  }

  predicate NotHyphen(c: char) {
    c != '-'
  }

  predicate AllSlugChars(s: string) {
    forall i :: 0 <= i < |s| ==> SlugChar(s[i])
  }

  /** No two adjacent hyphens. */
  predicate NoDoubleHyphen(s: string) {
    forall i :: 0 <= i < |s| - 1 && s[i] == '-' ==> s[i + 1] != '-'
  }

  /** What a slug looks like: letters, digits and single hyphens between them. */
  predicate IsSlug(s: string) {
    && AllSlugChars(s)
    && NoDoubleHyphen(s)
    && (s != [] ==> s[0] != '-' && s[|s| - 1] != '-')
  }

  // ---------------------------------------------------------------------------
  // `.replace(/[^a-z0-9]+/g, '-')`

  /** The rest of `s` after its leading run of characters outside `[a-z0-9]`. */
  function DropNonAlnum(s: string): (r: string)
    ensures |r| <= |s| && r == s[|s| - |r|..]
    ensures r != [] ==> IsAlnum(r[0])
    ensures forall i :: 0 <= i < |s| - |r| ==> !IsAlnum(s[i])
  {
    if s != [] && !IsAlnum(s[0]) then
      var r := DropNonAlnum(s[1..]);
      assert s[1..][|s| - 1 - |r|..] == s[|s| - |r|..];
      assert forall i :: 1 <= i < |s| - |r| ==> s[i] == s[1..][i - 1];
      r
    else s
  }

  /** Every maximal run of characters outside `[a-z0-9]` becomes one hyphen. */
  function CollapseRuns(s: string): (r: string)
    ensures |r| <= |s|
    ensures AllSlugChars(r)
    ensures NoDoubleHyphen(r)
    ensures r != [] && r[0] == '-' <==> s != [] && !IsAlnum(s[0])
    ensures r == [] <==> s == []
    decreases |s|
  {
    if s == [] then []
    else if IsAlnum(s[0]) then [s[0]] + CollapseRuns(s[1..])
    else "-" + CollapseRuns(DropNonAlnum(s[1..]))
  }

  // ---------------------------------------------------------------------------
  // `.replace(/^-+|-+$/g, '')`

  /** `s` without its leading hyphens. */
  function TrimStart(s: string): (r: string)
    ensures |r| <= |s| && r == s[|s| - |r|..]
    ensures r != [] ==> r[0] != '-'
    ensures forall i :: 0 <= i < |s| - |r| ==> s[i] == '-'
  {
    if s != [] && s[0] == '-' then TrimStart(s[1..]) else s
  }

  /** `s` without its trailing hyphens. */
  function TrimEnd(s: string): (r: string)
    ensures |r| <= |s| && r == s[..|r|]
    ensures r != [] ==> r[|r| - 1] != '-'
    ensures forall i :: |r| <= i < |s| ==> s[i] == '-'
  {
    if s != [] && s[|s| - 1] == '-' then TrimEnd(s[..|s| - 1]) else s
  }

  function TrimHyphens(s: string): string {
    TrimEnd(TrimStart(s))
  }

  /** The slug of a name. */
  function Slugify(name: string): string {
    TrimHyphens(CollapseRuns(Lower(name)))
  }

  // ---------------------------------------------------------------------------
  // Shape

  /** A substring of a string of slug characters without double hyphens is
      one too. */
  lemma SliceShape(s: string, i: int, j: int)
    requires 0 <= i <= j <= |s| && AllSlugChars(s) && NoDoubleHyphen(s)
    ensures AllSlugChars(s[i..j]) && NoDoubleHyphen(s[i..j])
  {
    var t := s[i..j];
    assert forall k :: 0 <= k < |t| ==> t[k] == s[i + k];
  }

  /** Every slug has only `a-z`, `0-9` and `-`, no leading or trailing `-`
      and never two adjacent `-`. */
  lemma SlugifyIsSlug(name: string)
    ensures IsSlug(Slugify(name))
  {
    var c := CollapseRuns(Lower(name));
    var a := TrimStart(c);
    var r := TrimEnd(a);
    SliceShape(c, |c| - |a|, |c|);
    SliceShape(a, 0, |r|);
    if r != [] {
      assert r[0] == a[0];
    }
  }

  // ---------------------------------------------------------------------------
  // Content: the letters and digits of the name survive, in order

  lemma {:induction false} DropNonAlnumKeepsAlnums(s: string)
    ensures Filter(DropNonAlnum(s), IsAlnum) == Filter(s, IsAlnum)
  {
    if s != [] && !IsAlnum(s[0]) { DropNonAlnumKeepsAlnums(s[1..]); }
  }

  lemma {:induction false} CollapseKeepsAlnums(s: string)
    ensures Filter(CollapseRuns(s), IsAlnum) == Filter(s, IsAlnum)
    decreases |s|
  {
    if s == [] {
    } else if IsAlnum(s[0]) {
      CollapseKeepsAlnums(s[1..]);
      assert ([s[0]] + CollapseRuns(s[1..]))[1..] == CollapseRuns(s[1..]);
    } else {
      var d := DropNonAlnum(s[1..]);
      CollapseKeepsAlnums(d);
      DropNonAlnumKeepsAlnums(s[1..]);
      assert ("-" + CollapseRuns(d))[1..] == CollapseRuns(d);
    }
  }

  /** Trimming the front drops hyphens only. */
  lemma TrimStartKeepsAlnums(s: string)
    ensures Filter(TrimStart(s), IsAlnum) == Filter(s, IsAlnum)
  {
    var a := TrimStart(s);
    var front := s[..|s| - |a|];
    assert s == front + a;
    assert forall i :: 0 <= i < |front| ==> front[i] == '-';
    FilterNone(front, IsAlnum);
    FilterAppend(front, a, IsAlnum);
  }

  /** Trimming the back drops hyphens only. */
  lemma TrimEndKeepsAlnums(a: string)
    ensures Filter(TrimEnd(a), IsAlnum) == Filter(a, IsAlnum)
  {
    var r := TrimEnd(a);
    var back := a[|r|..];
    assert a == r + back;
    assert forall i :: 0 <= i < |back| ==> back[i] == a[|r| + i] == '-';
    FilterNone(back, IsAlnum);
    FilterAppend(r, back, IsAlnum);
  }

  /** Trimming drops hyphens only. */
  lemma TrimKeepsAlnums(s: string)
    ensures Filter(TrimHyphens(s), IsAlnum) == Filter(s, IsAlnum)
  {
    TrimStartKeepsAlnums(s);
    TrimEndKeepsAlnums(TrimStart(s));
  }

  /** Removing the hyphens from a slug gives exactly the lower-case letters and
      digits of the name, in their order. */
  lemma SlugifyKeepsAlnums(name: string)
    ensures Filter(Slugify(name), NotHyphen) == Filter(Lower(name), IsAlnum)
  {
    var c := CollapseRuns(Lower(name));
    var s := Slugify(name);
    SlugifyIsSlug(name);
    forall x | x in s ensures NotHyphen(x) == IsAlnum(x) {
      var i :| 0 <= i < |s| && s[i] == x;
      assert SlugChar(s[i]);
    }
    FilterCongruent(s, NotHyphen, IsAlnum);
    TrimKeepsAlnums(c);
    CollapseKeepsAlnums(Lower(name));
  }

  /** A name without an ASCII letter or digit has the empty slug. */
  lemma SlugifyEmpty(name: string)
    requires forall i :: 0 <= i < |name| ==> !IsAlnum(LowerChar(name[i]))
    ensures Slugify(name) == ""
  {
    var s := Slugify(name);
    var l := Lower(name);
    assert forall i :: 0 <= i < |l| ==> !IsAlnum(l[i]);
    FilterNone(l, IsAlnum);
    SlugifyKeepsAlnums(name);
    AllHyphens(s);
    SlugifyIsSlug(name);
  }

  lemma AllHyphens(s: string)
    requires Filter(s, NotHyphen) == []
    ensures forall i :: 0 <= i < |s| ==> s[i] == '-'
  {
    FilterMembers(s, NotHyphen);
    forall i | 0 <= i < |s| ensures s[i] == '-' {
      assert s[i] in s;
    }
  }

  // ---------------------------------------------------------------------------
  // Idempotence

  /** Slug characters, no double hyphen, no hyphen at the end: the strings
      the run replacement leaves alone. */
  predicate CollapseStable(s: string) {
    && AllSlugChars(s)
    && NoDoubleHyphen(s)
    && (s != [] ==> s[|s| - 1] != '-')
  }

  lemma CollapseStableTail(s: string)
    requires s != [] && CollapseStable(s)
    ensures CollapseStable(s[1..])
  {
    SliceShape(s, 1, |s|);
  }

  /** A string of slug characters without double hyphens that does not end
      with a hyphen is left as it is by the run replacement. */
  lemma {:induction false} CollapseFixpoint(s: string)
    requires CollapseStable(s)
    ensures CollapseRuns(s) == s
  {
    if s != [] {
      var t := s[1..];
      CollapseStableTail(s);
      CollapseFixpoint(t);
      assert s == [s[0]] + t;
      if !IsAlnum(s[0]) {
        assert s[0] == '-' && |s| >= 2 && s[1] != '-';
        assert t[0] == s[1] && SlugChar(t[0]);
        assert DropNonAlnum(t) == t;
      }
    }
  }

  lemma LowerOfSlug(s: string)
    requires forall i :: 0 <= i < |s| ==> SlugChar(s[i])
    ensures Lower(s) == s
  {
  }

  /** A slug is its own slug. */
  lemma SlugFixpoint(s: string)
    requires IsSlug(s)
    ensures Slugify(s) == s
  {
    LowerOfSlug(s);
    assert CollapseStable(s);
    CollapseFixpoint(s);
  }

  /** Slugging is idempotent. */
  lemma SlugifyIdempotent(name: string)
    ensures Slugify(Slugify(name)) == Slugify(name)
  {
    SlugifyIsSlug(name);
    SlugFixpoint(Slugify(name));
  }
}
