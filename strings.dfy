/** String helpers with JavaScript semantics: `trim`, the `\d` class, `startsWith`,
    `indexOf`/`includes` and `replace` with a one-character literal pattern. */
module Strings {
  import opened Wrappers

  /** ECMAScript WhiteSpace and LineTerminator code points: the set `String.prototype.trim` removes. */
  predicate IsWhitespace(c: char) {
    c == ' ' || c == '\t' || c == '\n' || c == '\r' || c == '\U{000B}' || c == '\U{000C}'
    || c == '\U{00A0}' || c == '\U{1680}' || ('\U{2000}' <= c <= '\U{200A}')
    || c == '\U{2028}' || c == '\U{2029}' || c == '\U{202F}' || c == '\U{205F}'
    || c == '\U{3000}' || c == '\U{FEFF}'
  }

  /** The characters a regular-expression `.` does not match. */
  predicate IsLineTerminator(c: char) {
    c == '\n' || c == '\r' || c == '\U{2028}' || c == '\U{2029}'
  }

  /** The `\d` class: ASCII digits only. */
  predicate IsDigit(c: char) {
    '0' <= c <= '9'
  }

  predicate IsDigits(s: string) {
    forall i :: 0 <= i < |s| ==> IsDigit(s[i])
  }

  predicate AllWhitespace(s: string) {
    forall i :: 0 <= i < |s| ==> IsWhitespace(s[i])
  }

  /** Leading whitespace removed. */
  function TrimStart(s: string): (r: string)
    ensures |r| <= |s| && r == s[|s| - |r|..]
    ensures AllWhitespace(s[..|s| - |r|])
    ensures r == [] || !IsWhitespace(r[0])
  {
    if s != [] && IsWhitespace(s[0]) then
      var r := TrimStart(s[1..]);
      assert s[..|s| - |r|] == [s[0]] + s[1..][..|s| - 1 - |r|];
      r
    else
      assert s[..0] == [];
      s
  }

  /** Trailing whitespace removed. */
  function TrimEnd(s: string): (r: string)
    ensures |r| <= |s| && r == s[..|r|]
    ensures AllWhitespace(s[|r|..])
    ensures r == [] || !IsWhitespace(r[|r| - 1])
  {
    if s != [] && IsWhitespace(s[|s| - 1]) then TrimEnd(s[..|s| - 1]) else s
  }

  /** `s.trim()`. */
  function Trim(s: string): string {
    TrimEnd(TrimStart(s))
  }

  /** A trimmed string neither starts nor ends with whitespace, so trimming it again changes
      nothing. */
  lemma TrimIdempotent(s: string)
    ensures Trim(s) == [] || (!IsWhitespace(Trim(s)[0]) && !IsWhitespace(Trim(s)[|Trim(s)| - 1]))
    ensures Trim(Trim(s)) == Trim(s)
  {
    var a := TrimStart(s);
    var t := TrimEnd(a);
    assert t == [] || t[0] == a[0];
  }

  /** `s.trim() === ""`: the source's "blank" test. */
  predicate IsBlank(s: string) {
    Trim(s) == ""
  }

  /** A string is blank exactly when every character in it is whitespace. */
  lemma BlankIff(s: string)
    ensures IsBlank(s) <==> AllWhitespace(s)
  {
    var a := TrimStart(s);
    if !AllWhitespace(s) {
      var i :| 0 <= i < |s| && !IsWhitespace(s[i]);
      assert a[i - (|s| - |a|)] == s[i];
    }
  }

  /** `s.replace(/\D/g, "")`: the digits of `s`, in order. */
  function DigitsOf(s: string): (r: string)
    ensures IsDigits(r) && |r| <= |s|
  {
    if s == [] then []
    else (if IsDigit(s[0]) then [s[0]] else []) + DigitsOf(s[1..])
  }

  lemma {:induction false} DigitsOfAppend(a: string, b: string)
    ensures DigitsOf(a + b) == DigitsOf(a) + DigitsOf(b)
  {
    if a == [] {
      assert a + b == b;
    } else {
      assert (a + b)[1..] == a[1..] + b;
      DigitsOfAppend(a[1..], b);
    }
  }

  /** Stripping non-digits leaves a digit string unchanged. */
  lemma {:induction false} DigitsOfDigits(s: string)
    requires IsDigits(s)
    ensures DigitsOf(s) == s
  {
    if s != [] {
      DigitsOfDigits(s[1..]);
    }
  }

  /** Characters without digits contribute nothing. */
  lemma {:induction false} DigitsOfNone(s: string)
    requires forall i :: 0 <= i < |s| ==> !IsDigit(s[i])
    ensures DigitsOf(s) == ""
  {
    if s != [] {
      DigitsOfNone(s[1..]);
    }
  }

  /** Stripping non-digits is idempotent. */
  lemma DigitsOfIdempotent(s: string)
    ensures DigitsOf(DigitsOf(s)) == DigitsOf(s)
  {
    DigitsOfDigits(DigitsOf(s));
  }

  predicate StartsWith(s: string, p: string) {
    |p| <= |s| && s[..|p|] == p
  }

  /** `s.indexOf(p)`: the first position where `p` occurs, or None (JavaScript's -1). */
  function IndexOf(s: string, p: string): (r: Option<nat>)
    ensures r.Some? ==> r.value + |p| <= |s| && StartsWith(s[r.value..], p)
    ensures r.Some? ==> forall j :: 0 <= j < r.value ==> !StartsWith(s[j..], p)
    ensures r.None? ==> forall j :: 0 <= j <= |s| ==> !StartsWith(s[j..], p)
    decreases |s|
  {
    if StartsWith(s, p) then Some(0)
    else if s == [] then None
    else
      var k := IndexOf(s[1..], p);
      assert forall j :: 1 <= j <= |s| ==> s[j..] == s[1..][j - 1..];
      if k.Some? then Some(k.value + 1) else None
  }

  /** `s.includes(p)`. */
  predicate Contains(s: string, p: string) {
    IndexOf(s, p).Some?
  }

  /** A string contains itself at every position where it occurs. */
  lemma ContainsAt(s: string, p: string, j: nat)
    requires j <= |s| && StartsWith(s[j..], p)
    ensures Contains(s, p)
  {
  }

  /** A prefix is contained. */
  lemma ContainsPrefix(s: string, p: string)
    requires StartsWith(s, p)
    ensures Contains(s, p)
  {
    assert s[0..] == s;
  }

  /** No occurrence can start where the first character of `p` does not stand, nor fit past the end. */
  lemma NotContains(s: string, p: string)
    requires |p| > 0
    requires forall j :: 0 <= j < |s| && s[j] == p[0] ==> !StartsWith(s[j..], p)
    ensures !Contains(s, p)
  {
    assert forall j :: 0 <= j < |s| ==> s[j..][0] == s[j];
  }

  /** A string cannot contain a pattern with a character it lacks. */
  lemma NotContainsChar(s: string, p: string, c: char)
    requires c in p && c !in s
    ensures !Contains(s, p)
  {
  }

  /** An occurrence is either at the start or in the tail. */
  lemma NotContainsTail(s: string, p: string)
    requires s != [] && !StartsWith(s, p) && !Contains(s[1..], p)
    ensures !Contains(s, p)
  {
  }

  /** Nothing longer than `s` occurs in it. */
  lemma NotContainsShort(s: string, p: string)
    requires |s| < |p|
    ensures !Contains(s, p)
  {
  }

  /** `s.replace(c, d)` with one-character string literals: only the first occurrence changes. */
  function ReplaceFirstChar(s: string, c: char, d: char): (r: string)
    ensures |r| == |s|
    ensures c !in s ==> r == s
  {
    if s == [] then []
    else if s[0] == c then [d] + s[1..]
    else [s[0]] + ReplaceFirstChar(s[1..], c, d)
  }

  /** The position of the first `c` in `s`. */
  function FirstIndex(s: string, c: char): (k: nat)
    requires c in s
    ensures k < |s| && s[k] == c && c !in s[..k]
  {
    if s[0] == c then 0 else 1 + FirstIndex(s[1..], c)
  }

  /** When `c` occurs, its first occurrence (and only it) becomes `d`. */
  lemma {:induction false} ReplaceFirstCharAt(s: string, c: char, d: char)
    requires c in s
    ensures var k := FirstIndex(s, c); ReplaceFirstChar(s, c, d) == s[..k] + [d] + s[k + 1..]
  {
    if s[0] == c {
      assert s[..0] == [];
    } else {
      var t := s[1..];
      assert c in t;
      ReplaceFirstCharAt(t, c, d);
      var k := FirstIndex(t, c);
      assert FirstIndex(s, c) == k + 1;
      assert ReplaceFirstChar(s, c, d) == [s[0]] + ReplaceFirstChar(t, c, d);
      assert s[..k + 1] == [s[0]] + t[..k];
      assert s[k + 2..] == t[k + 1..];
    }
  }

  /** `s.replace(/c/g, "")`: every occurrence of `c` removed. */
  function RemoveChar(s: string, c: char): (r: string)
    ensures c !in r && |r| <= |s|
  {
    if s == [] then []
    else (if s[0] == c then [] else [s[0]]) + RemoveChar(s[1..], c)
  }

  lemma {:induction false} RemoveCharAbsent(s: string, c: char)
    requires c !in s
    ensures RemoveChar(s, c) == s
  {
    if s != [] {
      RemoveCharAbsent(s[1..], c);
    }
  }

  /** How many times `c` occurs in `s`. */
  function CountChar(s: string, c: char): nat {
    if s == [] then 0 else (if s[0] == c then 1 else 0) + CountChar(s[1..], c)
  }

  lemma {:induction false} CountCharAbsent(s: string, c: char)
    requires c !in s
    ensures CountChar(s, c) == 0
  {
    if s != [] {
      CountCharAbsent(s[1..], c);
    }
  }

  lemma {:induction false} CountCharAppend(a: string, b: string, c: char)
    ensures CountChar(a + b, c) == CountChar(a, c) + CountChar(b, c)
  {
    if a == [] {
      assert a + b == b;
    } else {
      assert (a + b)[1..] == a[1..] + b;
      CountCharAppend(a[1..], b, c);
    }
  }

  /** `s.slice(0, n)`. */
  function Take(s: string, n: nat): (r: string)
    ensures |r| == if |s| < n then |s| else n
    ensures r == s[..|r|]
  {
    if |s| <= n then s else s[..n]
  }

  /** `s.replace(/c+$/, "")`: every trailing `c` removed, and nothing else. */
  function StripTrailing(s: string, c: char): (r: string)
    ensures |r| <= |s| && r == s[..|r|]
    ensures r == [] || r[|r| - 1] != c
    ensures forall i :: |r| <= i < |s| ==> s[i] == c
  {
    if s != [] && s[|s| - 1] == c then
      var r := StripTrailing(s[..|s| - 1], c);
      assert r == s[..|r|];
      r
    else s
  }

  /** Stripping twice strips nothing more. */
  lemma StripTrailingIdempotent(s: string, c: char)
    ensures StripTrailing(StripTrailing(s, c), c) == StripTrailing(s, c)
  {
  }

  /** `parts.join(sep)`. */
  function Join(parts: seq<string>, sep: string): (r: string)
    ensures parts == [] ==> r == ""
    ensures |parts| == 1 ==> r == parts[0]
  {
    if parts == [] then ""
    else if |parts| == 1 then parts[0]
    else parts[0] + sep + Join(parts[1..], sep)
  }

  /** `lists.flat()`: the lists one after another. */
  function Flatten(lists: seq<seq<string>>): (r: seq<string>)
    ensures |lists| == 1 ==> r == lists[0]
  {
    if lists == [] then [] else lists[0] + Flatten(lists[1..])
  }

  /** Joining two non-empty runs of parts puts one separator between their joins. */
  lemma {:induction false} JoinAppend(a: seq<string>, b: seq<string>, sep: string)
    requires a != [] && b != []
    ensures Join(a + b, sep) == Join(a, sep) + sep + Join(b, sep)
  {
    if |a| == 1 {
      assert (a + b)[1..] == b;
    } else {
      assert (a + b)[1..] == a[1..] + b;
      JoinAppend(a[1..], b, sep);
    }
  }

  /** Flattening distributes over concatenation: the lists keep their order. */
  lemma {:induction false} FlattenAppend(a: seq<seq<string>>, b: seq<seq<string>>)
    ensures Flatten(a + b) == Flatten(a) + Flatten(b)
  {
    if a == [] {
      assert a + b == b;
    } else {
      assert (a + b)[1..] == a[1..] + b;
      FlattenAppend(a[1..], b);
    }
  }

  /** Every string of the flattened lists comes from one of them, and each list's strings
      are all there. */
  lemma {:induction false} FlattenContents(lists: seq<seq<string>>)
    ensures forall x :: x in Flatten(lists) <==> exists i :: 0 <= i < |lists| && x in lists[i]
  {
    if lists != [] {
      FlattenContents(lists[1..]);
      forall x
        ensures x in Flatten(lists) <==> exists i :: 0 <= i < |lists| && x in lists[i]
      {
        if x in lists[0] {
        } else if exists i :: 0 <= i < |lists[1..]| && x in lists[1..][i] {
          var i :| 0 <= i < |lists[1..]| && x in lists[1..][i];
          assert x in lists[i + 1];
        } else {
          if exists i :: 0 <= i < |lists| && x in lists[i] {
            var i :| 0 <= i < |lists| && x in lists[i];
            assert i != 0;
            assert x in lists[1..][i - 1];
          }
        }
      }
    }
  }
}
