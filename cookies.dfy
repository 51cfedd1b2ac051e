/** The anti-forgery token the screens send back in the `X-XSRF-TOKEN` header, read from the
    `document.cookie` string. That string holds the cookies as `name=value` pairs separated by
    "; ", the Cookie header form of section 5.4 of RFC 6265. */
module Cookies {
  import opened Wrappers
  import opened Strings

  /** `s.split(sep)` for a non-empty separator: the pieces between the occurrences of `sep`,
      found from the left. */
  function Split(s: string, sep: string): (r: seq<string>)
    requires sep != []
    ensures |r| >= 1
    ensures !Contains(r[0], sep)
    ensures |r[0]| <= |s| && r[0] == s[..|r[0]|]
    ensures |r| == 1 ==> r[0] == s
    ensures |r| > 1 ==> StartsWith(s[|r[0]|..], sep)
    decreases |s|
  {
    match IndexOf(s, sep)
    case None => [s]
    case Some(k) =>
      PrefixBeforeFirst(s, sep, k);
      [s[..k]] + Split(s[k + |sep|..], sep)
  }

  /** Nothing before the first occurrence of `sep` contains it. */
  lemma PrefixBeforeFirst(s: string, sep: string, k: nat)
    requires sep != [] && IndexOf(s, sep) == Some(k)
    ensures !Contains(s[..k], sep)
  {
    var t := s[..k];
    forall j | 0 <= j <= |t|
      ensures !StartsWith(t[j..], sep)
    {
      if j + |sep| <= k {
        assert t[j..][..|sep|] == s[j..][..|sep|];
      }
    }
  }

  lemma SplitAt(s: string, sep: string, k: nat)
    requires sep != [] && IndexOf(s, sep) == Some(k)
    ensures Split(s, sep) == [s[..k]] + Split(s[k + |sep|..], sep)
  {
  }

  /** Joining the pieces with the separator gives the string back. */
  lemma {:induction false} JoinSplit(s: string, sep: string)
    requires sep != []
    ensures Join(Split(s, sep), sep) == s
    decreases |s|
  {
    var i := IndexOf(s, sep);
    if i.Some? {
      var k := i.value;
      var rest := s[k + |sep|..];
      SplitAt(s, sep, k);
      JoinSplit(rest, sep);
      JoinCons(s[..k], Split(rest, sep), sep);
      Reassemble(s, sep, k);
    }
  }

  lemma JoinCons(a: string, r: seq<string>, sep: string)
    requires |r| >= 1
    ensures Join([a] + r, sep) == a + sep + Join(r, sep)
  {
    assert ([a] + r)[1..] == r;
  }

  /** A string is the part before an occurrence, the occurrence and the part after. */
  lemma Reassemble(s: string, sep: string, k: nat)
    requires k + |sep| <= |s| && StartsWith(s[k..], sep)
    ensures s == s[..k] + sep + s[k + |sep|..]
  {
    assert s[k..][..|sep|] == s[k..k + |sep|];
    assert s == s[..k] + s[k..k + |sep|] + s[k + |sep|..];
  }

  /** A piece free of the separator's first character, followed by the separator, is the
      first piece whatever follows. */
  lemma SplitFirst(a: string, sep: string, b: string)
    requires sep != [] && sep[0] !in a
    ensures Split(a + sep + b, sep) == [a] + Split(b, sep)
  {
    var s := a + sep + b;
    assert s[|a|..][..|sep|] == sep;
    assert forall j :: 0 <= j < |a| ==> s[j..][0] == a[j];
    var k := IndexOf(s, sep).value;
    assert k == |a|;
    assert s[..k] == a;
    assert s[k + |sep|..] == b;
  }

  /** A string free of the separator's first character is a single piece. */
  lemma SplitWhole(a: string, sep: string)
    requires sep != [] && sep[0] !in a
    ensures Split(a, sep) == [a]
  {
    assert forall j :: 0 <= j < |a| ==> a[j..][0] == a[j];
  }

  /** `rows.findIndex(row => row.startsWith(p))`, None for -1. */
  function FindIndex(rows: seq<string>, p: string): (r: Option<nat>)
    ensures r.Some? ==> r.value < |rows| && StartsWith(rows[r.value], p)
    ensures r.Some? ==> forall j :: 0 <= j < r.value ==> !StartsWith(rows[j], p)
    ensures r.None? ==> forall j :: 0 <= j < |rows| ==> !StartsWith(rows[j], p)
  {
    if rows == [] then None
    else if StartsWith(rows[0], p) then Some(0)
    else
      match FindIndex(rows[1..], p)
      case None => None
      case Some(k) => Some(k + 1)
  }

  const XsrfPrefix := "XSRF-TOKEN="

  /** In a cookie that starts with the prefix, the first '=' ends the name. */
  lemma FirstEqualsAt(row: string)
    requires StartsWith(row, XsrfPrefix)
    ensures IndexOf(row, "=") == Some(10)
  {
    assert row[10..][..1] == "=";
    assert forall j :: 0 <= j < 10 ==> row[j] == XsrfPrefix[j];
    assert forall j :: 0 <= j < 10 ==> row[j..][0] == row[j];
  }

  /** `row.split("=")[1]` for the token cookie: the text after the first '=' up to the next
      '=' or the end of the cookie. */
  function TokenOfRow(row: string): (t: string)
    requires StartsWith(row, XsrfPrefix)
    ensures 11 + |t| <= |row| && row[..11 + |t|] == XsrfPrefix + t
    ensures '=' !in t
    ensures |row| == 11 + |t| || row[11 + |t|] == '='
  {
    FirstEqualsAt(row);
    var u := row[11..];
    SplitAt(row, "=", 10);
    var t := Split(u, "=")[0];
    NoCharIn(t, '=');
    TokenBounds(row, t);
    t
  }

  lemma TokenBounds(row: string, t: string)
    requires StartsWith(row, XsrfPrefix) && t == Split(row[11..], "=")[0]
    ensures 11 + |t| <= |row| && row[..11 + |t|] == XsrfPrefix + t
    ensures |row| == 11 + |t| || row[11 + |t|] == '='
  {
    var u := row[11..];
    PrefixOfRest(row, 11, |t|);
    if |Split(u, "=")| > 1 {
      assert u[|t|..][..1] == "=";
      assert row[11 + |t|] == u[|t|..][0];
    }
  }

  lemma PrefixOfRest(s: string, n: nat, m: nat)
    requires n + m <= |s|
    ensures s[..n + m] == s[..n] + s[n..][..m]
  {
  }

  /** A string that does not contain the one-character string `[c]` does not hold `c`. */
  lemma NoCharIn(t: string, c: char)
    requires !Contains(t, [c])
    ensures c !in t
  {
    forall j | 0 <= j < |t|
      ensures t[j] != c
    {
      assert t[j..][..1] == [t[j]];
    }
  }

  /** The token: taken from the first cookie whose text starts with "XSRF-TOKEN=", or None
      when there is no such cookie. */
  function Token(cookie: string): Option<string> {
    var rows := Split(cookie, "; ");
    match FindIndex(rows, XsrfPrefix)
    case None => None
    case Some(i) => Some(TokenOfRow(rows[i]))
  }

  /** The header value: "" when there is no token or it is empty, and otherwise the token
      through `decode` (`decodeURIComponent`, which the model leaves uninterpreted). */
  function Header(cookie: string, decode: string -> string): (r: string)
    ensures Token(cookie).None? ==> r == ""
    ensures Token(cookie) == Some("") ==> r == ""
    ensures Token(cookie).Some? && Token(cookie).value != "" ==> r == decode(Token(cookie).value)
  {
    var t := Token(cookie);
    if t.Some? && t.value != "" then decode(t.value) else ""
  }

  /** The token cookie gives exactly its value, whatever cookies follow it. */
  lemma TokenCookieFirst(t: string, rest: string)
    requires ';' !in t && '=' !in t
    ensures Token(XsrfPrefix + t) == Some(t)
    ensures Token(XsrfPrefix + t + "; " + rest) == Some(t)
  {
    var row := XsrfPrefix + t;
    assert ';' !in row by {
      assert forall j :: 0 <= j < |row| ==> row[j] == if j < 11 then XsrfPrefix[j] else t[j - 11];
    }
    assert row[..11] == XsrfPrefix;
    SplitWhole(row, "; ");
    SplitFirst(row, "; ", rest);
    RowToken(t);
  }

  lemma RowToken(t: string)
    requires '=' !in t
    ensures StartsWith(XsrfPrefix + t, XsrfPrefix) && TokenOfRow(XsrfPrefix + t) == t
  {
    var row := XsrfPrefix + t;
    assert row[..11] == XsrfPrefix;
    var v := TokenOfRow(row);
    assert v == row[11..11 + |v|];
    assert row[11..] == t;
  }

  /** Any other cookie before the token cookie is skipped. */
  lemma OtherCookieSkipped(c: string, cookie: string)
    requires ';' !in c && !StartsWith(c, XsrfPrefix)
    ensures Token(c + "; " + cookie) == Token(cookie)
  {
    SplitFirst(c, "; ", cookie);
    var rows := Split(cookie, "; ");
    assert ([c] + rows)[1..] == rows;
  }
}
