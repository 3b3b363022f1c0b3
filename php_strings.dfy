/**
 * The PHP string built-ins the plugin relies on, on `seq<char>`:
 * empty() on strings, trim(), str_replace() with one search string,
 * preg_split('/\r\n|\r|\n/', ...), implode() and the decimal form of an
 * integer that PHP produces when an int is used as a string.
 */
module PhpStrings {

  //--------------------------------------------------------------------------
  // empty()
  //--------------------------------------------------------------------------

  /** PHP's empty() on a string: true exactly for "" and "0". */
  predicate IsEmpty(s: string) {
    s == "" || s == "0"
  }

  //--------------------------------------------------------------------------
  // trim()
  //--------------------------------------------------------------------------

  /** The characters trim() strips when no list is given: " \t\n\r\0\x0B". */
  predicate IsTrimmable(c: char) {
    c == ' ' || c == '\t' || c == '\n' || c == '\r' || c == '\0' || c == '\U{B}'
  }

  /** A string with nothing left for trim() to strip at either end. */
  predicate IsTrimmed(s: string) {
    s == [] || (!IsTrimmable(s[0]) && !IsTrimmable(s[|s| - 1]))
  }

  /** ltrim(): drops the longest trimmable prefix. */
  function TrimLeft(s: string): (r: string)
    ensures |r| <= |s| && r == s[|s| - |r|..]
    ensures forall k :: 0 <= k < |s| - |r| ==> IsTrimmable(s[k])
    ensures r == [] || !IsTrimmable(r[0])
    decreases |s|
  {
    if s != [] && IsTrimmable(s[0]) then TrimLeft(s[1..]) else s
  }

  /** rtrim(): drops the longest trimmable suffix. */
  function TrimRight(s: string): (r: string)
    ensures |r| <= |s| && r == s[..|r|]
    ensures forall k :: |r| <= k < |s| ==> IsTrimmable(s[k])
    ensures r == [] || !IsTrimmable(r[|r| - 1])
    decreases |s|
  {
    if s != [] && IsTrimmable(s[|s| - 1]) then TrimRight(s[..|s| - 1]) else s
  }

  /** trim(): strips trimmable characters from both ends. */
  function Trim(s: string): (r: string)
    ensures IsTrimmed(r)
  {
    var l := TrimLeft(s);
    var r := TrimRight(l);
    assert r != [] ==> r[0] == l[0];
    r
  }

  /**
   * What trim() removes: the result is the infix of s that starts where
   * ltrim() stops, and every character outside it is trimmable.
   */
  lemma TrimKeepsInfix(s: string)
    ensures var i := |s| - |TrimLeft(s)|;
            var r := Trim(s);
            && i + |r| <= |s| && s[i..i + |r|] == r
            && (forall k :: 0 <= k < i ==> IsTrimmable(s[k]))
            && (forall k :: i + |r| <= k < |s| ==> IsTrimmable(s[k]))
  {
    var l := TrimLeft(s);
    var r := TrimRight(l);
    var i := |s| - |l|;
    assert Trim(s) == r;
    SliceOfSuffix(s, i, |r|);
    forall k | i + |r| <= k < |s|
      ensures IsTrimmable(s[k])
    {
      assert s[k] == s[i..][k - i];
    }
  }

  /** A prefix of a suffix of s is a slice of s. */
  lemma SliceOfSuffix(s: string, i: nat, n: nat)
    requires i + n <= |s|
    ensures s[i..][..n] == s[i..i + n]
  {
  }

  /** trim() of a trimmed text followed by trimmable characters is that text. */
  lemma TrimDropsTrimmableTail(body: string, tail: string)
    requires body != [] && IsTrimmed(body)
    requires forall k :: 0 <= k < |tail| ==> IsTrimmable(tail[k])
    ensures Trim(body + tail) == body
  {
    assert TrimLeft(body + tail) == body + tail;
    TrimRightDropsTail(body, tail);
  }

  lemma {:induction false} TrimRightDropsTail(body: string, tail: string)
    requires body != [] && !IsTrimmable(body[|body| - 1])
    requires forall k :: 0 <= k < |tail| ==> IsTrimmable(tail[k])
    ensures TrimRight(body + tail) == body
    decreases |tail|
  {
    var s := body + tail;
    if tail == [] {
      assert s == body;
    } else {
      var shorter := tail[..|tail| - 1];
      assert s[|s| - 1] == tail[|tail| - 1];
      assert s[..|s| - 1] == body + shorter;
      TrimRightDropsTail(body, shorter);
    }
  }

  /** trim() leaves an already trimmed string alone. */
  lemma TrimTrimmed(s: string)
    requires IsTrimmed(s)
    ensures Trim(s) == s
  {
  }

  //--------------------------------------------------------------------------
  // preg_split('/\r\n|\r|\n/', s) and implode("\n", lines)
  //--------------------------------------------------------------------------

  predicate IsLineBreak(c: char) {
    c == '\r' || c == '\n'
  }

  predicate NoLineBreak(s: string) {
    forall k :: 0 <= k < |s| ==> !IsLineBreak(s[k])
  }

  /**
   * The pieces between line breaks, where "\r\n", "\r" and "\n" each count
   * as one break ("\r\n" is tried first, as in the regular expression's
   * alternation). There is always at least one piece; the pieces carry no
   * line break.
   */
  function SplitLines(s: string): (lines: seq<string>)
    ensures |lines| >= 1
    ensures forall k :: 0 <= k < |lines| ==> NoLineBreak(lines[k])
    decreases |s|
  {
    if s == [] then [""]
    else if s[0] == '\r' && |s| >= 2 && s[1] == '\n' then [""] + SplitLines(s[2..])
    else if IsLineBreak(s[0]) then [""] + SplitLines(s[1..])
    else
      var rest := SplitLines(s[1..]);
      [[s[0]] + rest[0]] + rest[1..]
  }

  /** Trimming cannot introduce a line break. */
  lemma TrimKeepsNoLineBreak(s: string)
    requires NoLineBreak(s)
    ensures NoLineBreak(Trim(s))
  {
    var l := TrimLeft(s);
    forall k | 0 <= k < |l|
      ensures !IsLineBreak(l[k])
    {
      assert l[k] == s[|s| - |l| + k];
    }
    var r := TrimRight(l);
    forall k | 0 <= k < |r|
      ensures !IsLineBreak(r[k])
    {
      assert r[k] == l[k];
    }
  }

  /** implode(sep, parts). */
  function Implode(sep: string, parts: seq<string>): (s: string)
    ensures parts == [] ==> s == []
    ensures |parts| == 1 ==> s == parts[0]
  {
    if parts == [] then []
    else if |parts| == 1 then parts[0]
    else parts[0] + sep + Implode(sep, parts[1..])
  }

  /** Text without line breaks followed by more text splits at the first break of the rest. */
  lemma {:induction false} SplitLinesAfterPlainText(a: string, t: string)
    requires NoLineBreak(a)
    ensures SplitLines(a + t) == [a + SplitLines(t)[0]] + SplitLines(t)[1..]
    decreases |a|
  {
    var lines := SplitLines(t);
    if a != [] {
      var s := a + t;
      assert s[0] == a[0] && !IsLineBreak(s[0]);
      assert s[1..] == a[1..] + t;
      SplitLinesAfterPlainText(a[1..], t);
      var rest := SplitLines(s[1..]);
      assert rest == [a[1..] + lines[0]] + lines[1..];
      assert SplitLines(s) == [[s[0]] + rest[0]] + rest[1..];
      assert rest[1..] == lines[1..];
      assert [a[0]] + (a[1..] + lines[0]) == a + lines[0];
    } else {
      assert a + t == t;
      assert a + lines[0] == lines[0];
      assert lines == [lines[0]] + lines[1..];
    }
  }

  /** The three line breaks the pattern /\r\n|\r|\n/ matches. */
  predicate IsLineSeparator(sep: string) {
    sep == "\n" || sep == "\r" || sep == "\r\n"
  }

  /**
   * A separator in front of text splits off one empty piece. A lone "\r"
   * must not be followed by "\n", since the two would then form "\r\n".
   */
  lemma SplitLinesAtSeparator(sep: string, t: string)
    requires IsLineSeparator(sep)
    requires sep == "\r" ==> t == [] || t[0] != '\n'
    ensures SplitLines(sep + t) == [""] + SplitLines(t)
  {
    var s := sep + t;
    if |sep| == 2 {
      assert s[0] == '\r' && s[1] == '\n' && s[2..] == t;
    } else {
      assert s[0] == sep[0] && s[1..] == t;
      assert |s| >= 2 ==> s[1] == t[0];
    }
  }

  /** The implosion of break-free parts starts with a non-break character or with the separator. */
  lemma ImplodeHead(sep: string, parts: seq<string>)
    requires sep != []
    requires forall k :: 0 <= k < |parts| ==> NoLineBreak(parts[k])
    ensures var s := Implode(sep, parts); s == [] || s[0] == sep[0] || !IsLineBreak(s[0])
  {
    if |parts| > 1 {
      var s := Implode(sep, parts);
      assert s == parts[0] + sep + Implode(sep, parts[1..]);
      if parts[0] != [] {
        assert s[0] == parts[0][0];
      } else {
        assert s[0] == sep[0];
      }
    } else if |parts| == 1 && parts[0] != [] {
      assert !IsLineBreak(parts[0][0]);
    }
  }

  /** A break-free line, a separator, then the rest: the line is the first piece. */
  lemma SplitLinesJoin(first: string, sep: string, rest: string)
    requires NoLineBreak(first) && IsLineSeparator(sep)
    requires rest == [] || rest[0] == sep[0] || !IsLineBreak(rest[0])
    ensures SplitLines(first + sep + rest) == [first] + SplitLines(rest)
  {
    assert first + sep + rest == first + (sep + rest);
    SplitLinesAfterPlainText(first, sep + rest);
    SplitLinesAtSeparator(sep, rest);
    assert first + "" == first;
  }

  /**
   * Round trip: splitting the implosion of break-free lines with any of the
   * three line breaks gives the lines back. A browser submits a textarea's
   * line breaks as "\r\n", so all three separators matter.
   */
  lemma {:induction false} SplitLinesImplode(sep: string, lines: seq<string>)
    requires IsLineSeparator(sep)
    requires |lines| >= 1
    requires forall k :: 0 <= k < |lines| ==> NoLineBreak(lines[k])
    ensures SplitLines(Implode(sep, lines)) == lines
  {
    if |lines| == 1 {
      SplitLinesAfterPlainText(lines[0], "");
      assert lines[0] + "" == lines[0];
    } else {
      var rest := Implode(sep, lines[1..]);
      SplitLinesImplode(sep, lines[1..]);
      ImplodeHead(sep, lines[1..]);
      SplitLinesJoin(lines[0], sep, rest);
      assert [lines[0]] + lines[1..] == lines;
    }
  }

  //--------------------------------------------------------------------------
  // str_replace(search, replace, subject) with one search string
  //--------------------------------------------------------------------------

  /** An occurrence of `pat` starts at index i of s. */
  predicate MatchAt(s: string, i: int, pat: string) {
    0 <= i && i + |pat| <= |s| && s[i..i + |pat|] == pat
  }

  /**
   * str_replace: scan left to right, replace each occurrence of `pat` by
   * `rep` and resume after it; the inserted text is never scanned again.
   */
  function ReplaceAll(s: string, pat: string, rep: string): (r: string)
    requires pat != []
    decreases |s|
  {
    if |s| < |pat| then s
    else if s[..|pat|] == pat then rep + ReplaceAll(s[|pat|..], pat, rep)
    else [s[0]] + ReplaceAll(s[1..], pat, rep)
  }

  /** A prefix in which no occurrence starts is copied unchanged. */
  lemma {:induction false} ReplaceAllSkipsPrefix(a: string, t: string, pat: string, rep: string)
    requires pat != []
    requires forall i :: 0 <= i < |a| ==> !MatchAt(a + t, i, pat)
    ensures ReplaceAll(a + t, pat, rep) == a + ReplaceAll(t, pat, rep)
    decreases |a|
  {
    if a != [] {
      var s := a + t;
      var u := a[1..] + t;
      assert s == [a[0]] + u;
      assert !MatchAt(s, 0, pat);
      forall i | 0 <= i < |a[1..]|
        ensures !MatchAt(u, i, pat)
      {
        assert !MatchAt(s, i + 1, pat);
        MatchAtShift(a[0], u, i, pat);
      }
      ReplaceAllSkipsPrefix(a[1..], t, pat, rep);
      assert s[1..] == u;
      assert [a[0]] + a[1..] == a;
    } else {
      assert a + t == t;
    }
  }

  /** Putting one character in front shifts every occurrence by one. */
  lemma MatchAtShift(c: char, s: string, i: int, pat: string)
    requires 0 <= i
    ensures MatchAt([c] + s, i + 1, pat) <==> MatchAt(s, i, pat)
  {
    if 0 <= i && i + |pat| <= |s| {
      assert ([c] + s)[i + 1..i + 1 + |pat|] == s[i..i + |pat|];
    }
  }

  /** An occurrence at the front is replaced and the scan resumes after it. */
  lemma ReplaceAllAtMatch(t: string, pat: string, rep: string)
    requires pat != []
    ensures ReplaceAll(pat + t, pat, rep) == rep + ReplaceAll(t, pat, rep)
  {
    assert (pat + t)[..|pat|] == pat;
    assert (pat + t)[|pat|..] == t;
  }

  /** A first character that cannot start `pat` stays first. */
  lemma ReplaceAllKeepsHead(s: string, pat: string, rep: string)
    requires pat != [] && s != [] && s[0] != pat[0]
    ensures var r := ReplaceAll(s, pat, rep); r != [] && r[0] == s[0]
  {
    if |s| >= |pat| {
      assert s[..|pat|][0] != pat[0];
    }
  }

  /** A string in which `pat` never occurs is returned unchanged. */
  lemma ReplaceAllNoMatch(s: string, pat: string, rep: string)
    requires pat != []
    requires forall i :: 0 <= i < |s| ==> !MatchAt(s, i, pat)
    ensures ReplaceAll(s, pat, rep) == s
  {
    assert s + [] == s;
    ReplaceAllSkipsPrefix(s, [], pat, rep);
  }

  //--------------------------------------------------------------------------
  // An int used as a string: its decimal form
  //--------------------------------------------------------------------------

  predicate IsDigit(c: char) {
    '0' <= c <= '9'
  }

  function DigitChar(d: nat): (c: char)
    requires d < 10
    ensures IsDigit(c) && c as int - '0' as int == d
  {
    ('0' as int + d) as char
  }

  /** The number a string of decimal digits denotes. */
  function DigitsValue(s: string): nat
    requires forall k :: 0 <= k < |s| ==> IsDigit(s[k])
  {
    if s == [] then 0
    else
      assert IsDigit(s[|s| - 1]);
      DigitsValue(s[..|s| - 1]) * 10 + (s[|s| - 1] as int - '0' as int)
  }

  /** The decimal form of n, without leading zeros. */
  function NatToString(n: nat): (s: string)
    ensures s != [] && forall k :: 0 <= k < |s| ==> IsDigit(s[k])
    ensures DigitsValue(s) == n
  {
    if n < 10 then [DigitChar(n)]
    else
      var s := NatToString(n / 10) + [DigitChar(n % 10)];
      assert s[..|s| - 1] == NatToString(n / 10);
      s
  }

  /** Distinct numbers have distinct decimal forms. */
  lemma NatToStringInjective(m: nat, n: nat)
    requires NatToString(m) == NatToString(n)
    ensures m == n
  {
  }
}
