/**
 * The few pieces of Python's `str` that the interview code relies on:
 * `str.isspace`, `str.strip` and `sep.join(parts)`.
 */
module Text {

  /** Python's `str.isspace` for a single character. */
  predicate IsSpace(c: char) {
    || ('\U{9}' <= c <= '\U{D}')
    || ('\U{1C}' <= c <= '\U{20}')
    || c == '\U{85}' || c == '\U{A0}' || c == '\U{1680}'
    || ('\U{2000}' <= c <= '\U{200A}')
    || c == '\U{2028}' || c == '\U{2029}' || c == '\U{202F}' || c == '\U{205F}' || c == '\U{3000}'
  }

  predicate AllSpace(s: string) {
    forall i :: 0 <= i < |s| ==> IsSpace(s[i])
  }

  /** How many whitespace characters open `s`. */
  function LeadingSpaces(s: string): (n: nat)
    ensures n <= |s| && AllSpace(s[..n])
    ensures n == |s| || !IsSpace(s[n])
  {
    if s != [] && IsSpace(s[0]) then 1 + LeadingSpaces(s[1..]) else 0
  }

  /** How many whitespace characters close `s`. */
  function TrailingSpaces(s: string): (n: nat)
    ensures n <= |s| && AllSpace(s[|s| - n..])
    ensures n == |s| || !IsSpace(s[|s| - n - 1])
  {
    if s != [] && IsSpace(s[|s| - 1]) then 1 + TrailingSpaces(s[..|s| - 1]) else 0
  }

  /** Python's `s.strip()`: the slice left once both runs of whitespace are cut off. */
  function Strip(s: string): (r: string)
    ensures r == [] || (!IsSpace(r[0]) && !IsSpace(r[|r| - 1]))
  {
    var a := s[LeadingSpaces(s)..];
    a[..|a| - TrailingSpaces(a)]
  }

  /** Only whitespace is cut: the result is the middle of `s`, between a leading and a trailing run of whitespace. */
  lemma StripKeepsMiddle(s: string)
    ensures var n := LeadingSpaces(s);
            var r := Strip(s);
            && n + |r| <= |s|
            && r == s[n..n + |r|]
            && AllSpace(s[..n])
            && AllSpace(s[n + |r|..])
  {
    var n := LeadingSpaces(s);
    var a := s[n..];
    var m := |a| - TrailingSpaces(a);
    assert AllSpace(a[m..]);
    CutSuffix(s, n, m);
    assert Strip(s) == a[..m];
  }

  /** Cutting a whitespace run off the end of `s[n..]` leaves a slice of `s` followed by that run. */
  lemma CutSuffix(s: string, n: nat, m: nat)
    requires n <= |s| && m <= |s| - n && AllSpace(s[n..][m..])
    ensures s[n..][..m] == s[n..n + m] && AllSpace(s[n + m..])
  {
    assert s[n..][m..] == s[n + m..];
  }

  /** Stripping twice is stripping once. */
  lemma StripIdempotent(s: string)
    ensures Strip(Strip(s)) == Strip(s)
  {
    var r := Strip(s);
    assert LeadingSpaces(r) == 0;
    assert r[0..] == r;
    assert TrailingSpaces(r) == 0;
  }

  /** A string strips to nothing exactly when it is all whitespace. */
  lemma StripEmptyIff(s: string)
    ensures Strip(s) == [] <==> AllSpace(s)
  {
    var n := LeadingSpaces(s);
    var a := s[n..];
    if Strip(s) == [] {
      assert AllSpace(a[|a| - TrailingSpaces(a)..]);
      assert a == [];
      assert s[..|s|] == s;
    } else {
      assert !IsSpace(Strip(s)[0]);
      assert Strip(s)[0] == a[0] == s[n];
    }
  }

  /** The combined length of the parts. */
  function TotalLength(parts: seq<string>): nat {
    if parts == [] then 0 else TotalLength(parts[..|parts| - 1]) + |parts[|parts| - 1]|
  }

  /** Python's `sep.join(parts)`. */
  function Join(sep: string, parts: seq<string>): (r: string)
    ensures parts == [] ==> r == []
    ensures |parts| == 1 ==> r == parts[0]
    ensures parts != [] ==> |r| == TotalLength(parts) + (|parts| - 1) * |sep|
  {
    if parts == [] then []
    else if |parts| == 1 then parts[0]
    else Join(sep, parts[..|parts| - 1]) + sep + parts[|parts| - 1]
  }

  /** Joining non-empty parts yields the empty string only for no parts at all. */
  lemma {:induction false} JoinEmptyIff(sep: string, parts: seq<string>)
    requires forall i :: 0 <= i < |parts| ==> parts[i] != []
    ensures Join(sep, parts) == [] <==> parts == []
  {
    if |parts| > 1 {
      assert |Join(sep, parts)| >= |parts[|parts| - 1]| > 0;
    }
  }

  /** The first part opens the joined string. */
  lemma {:induction false} JoinStartsWithFirst(sep: string, parts: seq<string>)
    requires parts != []
    ensures |parts[0]| <= |Join(sep, parts)| && Join(sep, parts)[..|parts[0]|] == parts[0]
  {
    if |parts| > 1 {
      var init := parts[..|parts| - 1];
      JoinStartsWithFirst(sep, init);
      assert init[0] == parts[0];
      var j := Join(sep, init);
      assert Join(sep, parts) == j + (sep + parts[|parts| - 1]);
      assert (j + (sep + parts[|parts| - 1]))[..|parts[0]|] == j[..|parts[0]|];
    }
  }

  /** Concatenation of a sequence of strings (the `+=` accumulations of the source). */
  function Concat(ss: seq<string>): string
  {
    if ss == [] then [] else Concat(ss[..|ss| - 1]) + ss[|ss| - 1]
  }
}
