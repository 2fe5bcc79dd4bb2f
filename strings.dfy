/**
 * The .NET string operations the importer relies on: `String.Split(char)`,
 * `Char.IsWhiteSpace`, `String.Trim()`, `String.IsNullOrWhiteSpace` and
 * `String.Contains(_, StringComparison.OrdinalIgnoreCase)`.
 */
module Strings {

  /** The characters `Char.IsWhiteSpace` accepts: the Unicode separators plus the C0/C1 controls it lists. */
  predicate IsWhiteSpace(c: char)
  {
    ('\U{0009}' <= c <= '\U{000D}') || c == ' ' || c == '\U{0085}' || c == '\U{00A0}'
    || c == '\U{1680}' || ('\U{2000}' <= c <= '\U{200A}') || c == '\U{2028}' || c == '\U{2029}'
    || c == '\U{202F}' || c == '\U{205F}' || c == '\U{3000}'
  }

  predicate AllWhiteSpace(s: string)
  {
    forall k :: 0 <= k < |s| ==> IsWhiteSpace(s[k])
  }

  /** `String.IsNullOrWhiteSpace` on a non-null string. */
  predicate IsNullOrWhiteSpace(s: string)
  {
    AllWhiteSpace(s)
  }

  /** `String.Join(c, parts)`: the parts with one separator between neighbours. */
  function Join(parts: seq<string>, c: char): string
    requires |parts| >= 1
  {
    if |parts| == 1 then parts[0] else parts[0] + [c] + Join(parts[1..], c)
  }

  /**
   * `String.Split(c)`: every occurrence of `c` ends a field, empty fields are
   * kept, and the empty string splits into one empty field.
   */
  function Split(s: string, c: char): (r: seq<string>)
    ensures |r| >= 1
    ensures forall k :: 0 <= k < |r| ==> c !in r[k]
    ensures Join(r, c) == s
  {
    if |s| == 0 then [""]
    else if s[0] == c then
      var rest := Split(s[1..], c);
      assert s == [c] + s[1..];
      [""] + rest
    else
      var rest := Split(s[1..], c);
      var r := [[s[0]] + rest[0]] + rest[1..];
      assert r[1..] == rest[1..];
      assert s == [s[0]] + s[1..];
      r
  }

  /** Splitting is the unique way of cutting `s` into separator-free fields that join back to `s`. */
  lemma {:induction false} SplitUnique(s: string, c: char, parts: seq<string>)
    requires |parts| >= 1
    requires forall k :: 0 <= k < |parts| ==> c !in parts[k]
    requires Join(parts, c) == s
    ensures parts == Split(s, c)
    decreases |parts|
  {
    if |parts| == 1 {
      SplitNoSeparator(s, c);
    } else {
      var tail := Join(parts[1..], c);
      assert s == parts[0] + [c] + tail;
      SplitUnique(tail, c, parts[1..]);
      SplitPrefix(parts[0], c, tail);
      assert parts == [parts[0]] + parts[1..];
    }
  }

  /** A string without the separator is a single field. */
  lemma {:induction false} SplitNoSeparator(s: string, c: char)
    requires c !in s
    ensures Split(s, c) == [s]
  {
    if |s| > 0 {
      assert c !in s[1..] by {
        forall k | 0 <= k < |s[1..]| ensures s[1..][k] != c { assert s[1..][k] == s[k + 1]; }
      }
      SplitNoSeparator(s[1..], c);
    }
  }

  /** A separator-free prefix followed by the separator becomes the first field. */
  lemma {:induction false} SplitPrefix(a: string, c: char, b: string)
    requires c !in a
    ensures Split(a + [c] + b, c) == [a] + Split(b, c)
  {
    if |a| == 0 {
      assert a + [c] + b == [c] + b;
      assert ([c] + b)[1..] == b;
    } else {
      assert (a + [c] + b)[1..] == a[1..] + [c] + b;
      assert c !in a[1..] by {
        forall k | 0 <= k < |a[1..]| ensures a[1..][k] != c { assert a[1..][k] == a[k + 1]; }
      }
      SplitPrefix(a[1..], c, b);
      assert [a[0]] + a[1..] == a;
    }
  }

  /** A string splits into one more field than it has separators. */
  lemma {:induction false} SplitCount(s: string, c: char)
    ensures |Split(s, c)| == multiset(s)[c] + 1
  {
    if |s| > 0 {
      assert s == [s[0]] + s[1..];
      assert multiset(s) == multiset([s[0]]) + multiset(s[1..]);
      SplitCount(s[1..], c);
    }
  }

  /** `String.TrimStart()`: drops the leading white space. */
  function TrimStart(s: string): (r: string)
    ensures |r| <= |s| && r == s[|s| - |r|..]
    ensures AllWhiteSpace(s[..|s| - |r|])
    ensures r == [] || !IsWhiteSpace(r[0])
  {
    if |s| > 0 && IsWhiteSpace(s[0]) then
      var r := TrimStart(s[1..]);
      assert s[..|s| - |r|] == [s[0]] + s[1..][..|s| - 1 - |r|];
      r
    else s
  }

  /** `String.TrimEnd()`: drops the trailing white space. */
  function TrimEnd(s: string): (r: string)
    ensures |r| <= |s| && r == s[..|r|]
    ensures AllWhiteSpace(s[|r|..])
    ensures r == [] || !IsWhiteSpace(r[|r| - 1])
  {
    if |s| > 0 && IsWhiteSpace(s[|s| - 1]) then
      var r := TrimEnd(s[..|s| - 1]);
      assert s[|r|..] == s[..|s| - 1][|r|..] + [s[|s| - 1]];
      r
    else s
  }

  /** `r` is the factor of `s` at `i`, with only white space before and after it. */
  predicate FramedByWhiteSpace(s: string, r: string, i: nat)
  {
    i + |r| <= |s| && r == s[i..i + |r|] && AllWhiteSpace(s[..i]) && AllWhiteSpace(s[i + |r|..])
  }

  /**
   * `String.Trim()`: the part of `s` left between its leading and its trailing
   * white space; it neither starts nor ends with white space.
   */
  function Trim(s: string): (r: string)
    ensures r == [] || (!IsWhiteSpace(r[0]) && !IsWhiteSpace(r[|r| - 1]))
    ensures exists i: nat :: FramedByWhiteSpace(s, r, i)
  {
    var u := TrimStart(s);
    var r := TrimEnd(u);
    var i := |s| - |u|;
    assert r == s[i..i + |r|];
    assert s[..i] == s[..|s| - |u|];
    assert s[i + |r|..] == u[|r|..];
    assert FramedByWhiteSpace(s, r, i);
    r
  }

  /** A line is blank exactly when trimming leaves nothing of it. */
  lemma BlankIffTrimsToEmpty(s: string)
    ensures IsNullOrWhiteSpace(s) <==> Trim(s) == ""
  {
    if Trim(s) == "" {
      var i: nat :| FramedByWhiteSpace(s, "", i);
      forall k | 0 <= k < |s| ensures IsWhiteSpace(s[k]) {
        if k < i { assert s[..i][k] == s[k]; } else { assert s[i..][k - i] == s[k]; }
      }
    }
  }

  /** The case mapping of `StringComparison.OrdinalIgnoreCase`, restricted to ASCII letters. */
  function Upper(c: char): (u: char)
  {
    if 'a' <= c <= 'z' then (c as int - 32) as char else c
  }

  /** `token` occurs in `text` at position `i`, letters compared without regard to case. */
  predicate MatchesAt(text: string, token: string, i: nat)
  {
    i + |token| <= |text| && forall k :: 0 <= k < |token| ==> Upper(text[i + k]) == Upper(token[k])
  }

  /** `text.Contains(token, StringComparison.OrdinalIgnoreCase)`. */
  function ContainsIgnoreCase(text: string, token: string): (b: bool)
    ensures b <==> exists i: nat :: MatchesAt(text, token, i)
  {
    if |text| < |token| then false
    else if MatchesAt(text, token, 0) then true
    else
      var b := ContainsIgnoreCase(text[1..], token);
      ShiftMatch(text, token);
      b
  }

  /** A match in the tail of `text` is a match in `text` one position further on, and back. */
  lemma ShiftMatch(text: string, token: string)
    requires |text| > 0
    ensures (exists i: nat :: MatchesAt(text[1..], token, i))
        <==> (exists i: nat :: i >= 1 && MatchesAt(text, token, i))
  {
    if i: nat :| MatchesAt(text[1..], token, i) {
      forall k | 0 <= k < |token| ensures Upper(text[i + 1 + k]) == Upper(token[k]) {
        assert text[1..][i + k] == text[i + 1 + k];
      }
      assert MatchesAt(text, token, i + 1);
    }
    if i: nat :| i >= 1 && MatchesAt(text, token, i) {
      forall k | 0 <= k < |token| ensures Upper(text[1..][i - 1 + k]) == Upper(token[k]) {
        assert text[1..][i - 1 + k] == text[i + k];
      }
      assert MatchesAt(text[1..], token, i - 1);
    }
  }
}
