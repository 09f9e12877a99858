/**
 * The handful of Python `str` operations the request handler relies on:
 * `isspace`, `strip`, `startswith`, `join`, `split` on a one-character
 * separator, and the slice `s[:n]`. Python strings are sequences of code
 * points, modelled as `seq<char>`.
 */
module PyStr {

  /** `c.isspace()`: the characters Python classifies as whitespace. */
  predicate IsSpace(c: char) {
    ('\t' <= c <= '\r') || ('\U{1c}' <= c <= '\U{1f}') || c == ' '
    || c == '\U{85}' || c == '\U{a0}' || c == '\U{1680}'
    || ('\U{2000}' <= c <= '\U{200a}') || c == '\U{2028}' || c == '\U{2029}'
    || c == '\U{202f}' || c == '\U{205f}' || c == '\U{3000}'
  }

  /** On ASCII, `isspace` holds for exactly the six C whitespace characters and the four separators `\x1c`-`\x1f`. */
  lemma AsciiSpaces(c: char)
    requires c < '\U{80}'
    ensures IsSpace(c) <==> c in " \t\n\r\U{b}\U{c}\U{1c}\U{1d}\U{1e}\U{1f}"
  {
  }

  predicate AllSpace(s: string) {
    forall k :: 0 <= k < |s| ==> IsSpace(s[k])
  }

  /** Every character of `s[lo..hi]` is whitespace. */
  predicate SpaceBetween(s: string, lo: nat, hi: nat)
    requires lo <= hi <= |s|
  {
    forall k :: lo <= k < hi ==> IsSpace(s[k])
  }

  /** Where the leading whitespace run that starts at `i` ends. */
  function FirstNonSpace(s: string, i: nat): (r: nat)
    requires i <= |s|
    ensures i <= r <= |s| && SpaceBetween(s, i, r)
    ensures r == |s| || !IsSpace(s[r])
    decreases |s| - i
  {
    if i < |s| && IsSpace(s[i]) then FirstNonSpace(s, i + 1) else i
  }

  /** Where the trailing whitespace run that ends at `j` starts, scanning no lower than `lo`. */
  function EndOfNonSpace(s: string, lo: nat, j: nat): (r: nat)
    requires lo <= j <= |s|
    ensures lo <= r <= j && SpaceBetween(s, r, j)
    ensures r == lo || !IsSpace(s[r - 1])
    decreases j
  {
    if j > lo && IsSpace(s[j - 1]) then EndOfNonSpace(s, lo, j - 1) else j
  }

  /** `s.strip()`: a contiguous piece of `s` with only whitespace cut from either end. */
  function Strip(s: string): (r: string)
    ensures exists i, j :: 0 <= i <= j <= |s| && r == s[i..j] && SpaceBetween(s, 0, i) && SpaceBetween(s, j, |s|)
    ensures r == [] || (!IsSpace(r[0]) && !IsSpace(r[|r| - 1]))
  {
    var i := FirstNonSpace(s, 0);
    var j := EndOfNonSpace(s, i, |s|);
    s[i..j]
  }

  /** Stripping leaves nothing exactly when the string is all whitespace. */
  lemma StripEmptyIff(s: string)
    ensures Strip(s) == [] <==> AllSpace(s)
  {
    var i := FirstNonSpace(s, 0);
    var j := EndOfNonSpace(s, i, |s|);
    if j == i {
      assert SpaceBetween(s, 0, i) && SpaceBetween(s, i, |s|);
    } else {
      assert Strip(s)[0] == s[i];
    }
  }

  /** Stripping twice is stripping once. */
  lemma StripIdempotent(s: string)
    ensures Strip(Strip(s)) == Strip(s)
  {
    var r := Strip(s);
    if r != [] {
      StripUntrimmed(r);
    }
  }

  /** A string with no whitespace at either end is its own strip. */
  lemma StripUntrimmed(s: string)
    requires s != [] && !IsSpace(s[0]) && !IsSpace(s[|s| - 1])
    ensures Strip(s) == s
  {
  }

  /** `s.startswith(p)`. */
  predicate StartsWith(s: string, p: string) {
    |p| <= |s| && s[..|p|] == p
  }

  /** `s` starts with `p` exactly when it is `p` followed by something. */
  lemma StartsWithIff(s: string, p: string)
    ensures StartsWith(s, p) <==> exists rest :: s == p + rest
  {
    if StartsWith(s, p) {
      assert s == p + s[|p|..];
    }
    forall rest | s == p + rest
      ensures StartsWith(s, p)
    {
      StartsWithAppend(p, rest);
    }
  }

  lemma StartsWithAppend(p: string, rest: string)
    ensures StartsWith(p + rest, p)
  {
    assert (p + rest)[..|p|] == p;
  }

  /** `s[:n]` for a non-negative `n`. */
  function Take(s: string, n: nat): (r: string)
    ensures |r| == (if |s| < n then |s| else n)
    ensures StartsWith(s, r)
  {
    if |s| <= n then s else s[..n]
  }

  /** `sep.join(parts)`. */
  function Join(sep: string, parts: seq<string>): string
    decreases |parts|
  {
    if |parts| == 0 then ""
    else if |parts| == 1 then parts[0]
    else parts[0] + sep + Join(sep, parts[1..])
  }

  function SumLengths(parts: seq<string>): nat
    decreases |parts|
  {
    if |parts| == 0 then 0 else |parts[0]| + SumLengths(parts[1..])
  }

  /** A join is as long as its parts plus one separator between each adjacent pair. */
  lemma {:induction false} JoinLength(sep: string, parts: seq<string>)
    ensures |parts| == 0 ==> Join(sep, parts) == ""
    ensures |parts| > 0 ==> |Join(sep, parts)| == SumLengths(parts) + (|parts| - 1) * |sep|
    decreases |parts|
  {
    if |parts| > 1 {
      JoinLength(sep, parts[1..]);
    }
  }

  /** Growing the first part by one leading character grows the join by that character. */
  lemma JoinConsFirst(sep: string, c: char, parts: seq<string>)
    requires |parts| > 0
    ensures Join(sep, [[c] + parts[0]] + parts[1..]) == [c] + Join(sep, parts)
  {
    var grown := [[c] + parts[0]] + parts[1..];
    assert grown[1..] == parts[1..];
  }

  /**
   * `s.split(sep)` for a one-character separator: the pieces between the
   * separators, always at least one, none containing the separator, and
   * joined back with the separator they give `s` again.
   */
  function Split(s: string, sep: char): (parts: seq<string>)
    ensures |parts| >= 1
    ensures sep in s ==> |parts| >= 2
    ensures forall k :: 0 <= k < |parts| ==> sep !in parts[k]
    ensures Join([sep], parts) == s
    decreases |s|
  {
    if |s| == 0 then [""]
    else if s[0] == sep then
      var rest := Split(s[1..], sep);
      assert s == [sep] + s[1..];
      [""] + rest
    else
      var rest := Split(s[1..], sep);
      JoinConsFirst([sep], s[0], rest);
      assert s == [s[0]] + s[1..];
      assert sep in s ==> sep in s[1..];
      [[s[0]] + rest[0]] + rest[1..]
  }

  /** The first piece of a split is the longest prefix free of the separator. */
  lemma {:induction false} SplitFirst(p: string, t: string, sep: char)
    requires sep !in p
    ensures Split(p + t, sep)[0] == p + Split(t, sep)[0]
    ensures |Split(p + t, sep)| == |Split(t, sep)|
    ensures Split(p + t, sep)[1..] == Split(t, sep)[1..]
    decreases |p|
  {
    if |p| > 0 {
      var s := p + t;
      assert s[0] == p[0] && s[0] != sep;
      assert s[1..] == p[1..] + t;
      SplitFirst(p[1..], t, sep);
      var rest := Split(s[1..], sep);
      assert Split(s, sep) == [[s[0]] + rest[0]] + rest[1..];
      assert p == [p[0]] + p[1..];
    } else {
      assert p + t == t;
    }
  }

  /** The pieces after a leading `prefix + sep` are the pieces of what follows it. */
  lemma SplitAfterSeparator(p: string, t: string, sep: char)
    requires sep !in p
    ensures |Split(p + [sep] + t, sep)| == |Split(t, sep)| + 1
    ensures Split(p + [sep] + t, sep)[0] == p
    ensures Split(p + [sep] + t, sep)[1..] == Split(t, sep)
  {
    var u := [sep] + t;
    assert p + [sep] + t == p + u;
    assert u[0] == sep && u[1..] == t;
    assert Split(u, sep) == [""] + Split(t, sep);
    SplitFirst(p, u, sep);
    assert p + "" == p;
  }

  /** The first piece of a split is followed by the separator or by the end. */
  lemma SplitFirstPiece(s: string, sep: char)
    ensures |Split(s, sep)[0]| <= |s|
    ensures s == Split(s, sep)[0] + s[|Split(s, sep)[0]|..]
    ensures |Split(s, sep)[0]| == |s| || s[|Split(s, sep)[0]|] == sep
  {
    var pieces := Split(s, sep);
    if |pieces| > 1 {
      assert Join([sep], pieces) == pieces[0] + [sep] + Join([sep], pieces[1..]);
      assert s == pieces[0] + ([sep] + Join([sep], pieces[1..]));
    } else {
      assert s == pieces[0] + [];
    }
  }

  /** Splitting undoes joining when no part holds the separator. */
  lemma {:induction false} SplitJoin(parts: seq<string>, sep: char)
    requires |parts| >= 1
    requires forall k :: 0 <= k < |parts| ==> sep !in parts[k]
    ensures Split(Join([sep], parts), sep) == parts
    decreases |parts|
  {
    if |parts| == 1 {
      SplitFirst(parts[0], "", sep);
      assert parts[0] + "" == parts[0];
    } else {
      SplitJoin(parts[1..], sep);
      SplitAfterSeparator(parts[0], Join([sep], parts[1..]), sep);
      assert parts == [parts[0]] + parts[1..];
    }
  }
}
