/** The string operations of the scripts: first-occurrence search, trimming and
    the whitespace class that `trim` and `\s` share.  A string is a sequence of
    Unicode scalar values. */
module Text {
  import opened Prelude

  /** Whitespace and line terminators, as `String.prototype.trim` and `\s` see them. */
  predicate IsSpace(c: char) {
    || '\t' <= c <= '\r'
    || c == ' ' || c == '\U{A0}' || c == '\U{1680}'
    || '\U{2000}' <= c <= '\U{200A}'
    || c == '\U{2028}' || c == '\U{2029}' || c == '\U{202F}' || c == '\U{205F}'
    || c == '\U{3000}' || c == '\U{FEFF}'
  }

  predicate IsDigit(c: char) {
    '0' <= c <= '9'
  }

  function Digit(d: nat): char
    requires d < 10
  {
    ('0' as int + d) as char
  }

  /** A number in decimal. */
  function Show(n: nat): string {
    if n < 10 then [Digit(n)] else Show(n / 10) + [Digit(n % 10)]
  }

  predicate Blank(s: string) {
    forall i :: 0 <= i < |s| ==> IsSpace(s[i])
  }

  /** Neither end is whitespace. */
  predicate Trimmed(s: string) {
    s == "" || (!IsSpace(s[0]) && !IsSpace(s[|s| - 1]))
  }

  function TrimStart(s: string): string {
    if s != "" && IsSpace(s[0]) then TrimStart(s[1..]) else s
  }

  function TrimEnd(s: string): string {
    if s != "" && IsSpace(s[|s| - 1]) then TrimEnd(s[..|s| - 1]) else s
  }

  function Trim(s: string): string {
    TrimEnd(TrimStart(s))
  }

  /** `replace(/\r/g, "")`. */
  function RemoveReturns(s: string): string {
    if s == "" then "" else (if s[0] == '\r' then "" else [s[0]]) + RemoveReturns(s[1..])
  }

  /** The index of the first newline, or the length. */
  function NewlineAt(s: string): (n: nat)
    ensures n <= |s|
  {
    if s == "" || s[0] == '\n' then 0 else 1 + NewlineAt(s[1..])
  }

  lemma {:induction false} TrimStartSpec(s: string)
    ensures |TrimStart(s)| <= |s| && TrimStart(s) == s[|s| - |TrimStart(s)|..]
    ensures Blank(s[..|s| - |TrimStart(s)|])
    ensures TrimStart(s) == "" || !IsSpace(TrimStart(s)[0])
  {
    if s != "" && IsSpace(s[0]) {
      TrimStartSpec(s[1..]);
      var k := |s| - |TrimStart(s)|;
      assert s[..k] == [s[0]] + s[1..][..k - 1];
    }
  }

  lemma {:induction false} TrimEndSpec(s: string)
    ensures TrimEnd(s) <= s
    ensures Blank(s[|TrimEnd(s)|..])
    ensures TrimEnd(s) == "" || !IsSpace(TrimEnd(s)[|TrimEnd(s)| - 1])
  {
    if s != "" && IsSpace(s[|s| - 1]) {
      TrimEndSpec(s[..|s| - 1]);
      var k := |TrimEnd(s)|;
      assert s[k..] == s[..|s| - 1][k..] + [s[|s| - 1]];
    }
  }

  lemma TrimSpec(s: string) returns (a: string, b: string)
    ensures s == a + Trim(s) + b && Blank(a) && Blank(b)
    ensures Trimmed(Trim(s))
  {
    hide TrimStart, TrimEnd, IsSpace;
    var t := TrimStart(s);
    TrimStartSpec(s);
    TrimEndSpec(t);
    a, b := s[..|s| - |t|], t[|Trim(s)|..];
    assert t == Trim(s) + b;
  }

  /** Trimming is characterised by its result: the only trimmed string that
      leaves whitespace on either side. */
  lemma TrimUnique(a: string, m: string, b: string)
    requires Blank(a) && Blank(b) && Trimmed(m)
    requires m == "" ==> a == "" || b == ""
    ensures Trim(a + m + b) == m
  {
    TrimStartSkips(a, m + b);
    assert a + m + b == a + (m + b);
    if m == "" {
      TrimStartSkips(a + b, "");
      assert (a + b) + "" == a + m + b;
    } else {
      assert TrimStart(m + b) == m + b;
      TrimEndSkips(m, b);
      assert TrimEnd(m) == m;
    }
  }

  lemma TrimStartSkips(a: string, s: string)
    requires Blank(a)
    ensures TrimStart(a + s) == TrimStart(s)
  {
    if a == "" {
      assert a + s == s;
    } else {
      assert (a + s)[1..] == a[1..] + s;
      assert IsSpace(a[0]);
      TrimStartSkips(a[1..], s);
    }
  }

  lemma TrimEndSkips(s: string, b: string)
    requires Blank(b)
    ensures TrimEnd(s + b) == TrimEnd(s)
  {
    if b == "" {
      assert s + b == s;
    } else {
      assert (s + b)[..|s + b| - 1] == s + b[..|b| - 1];
      assert IsSpace(b[|b| - 1]);
      TrimEndSkips(s, b[..|b| - 1]);
    }
  }

  lemma TrimOfTrimmed(s: string)
    requires Trimmed(s)
    ensures Trim(s) == s
  {
    TrimUnique("", s, "");
    assert "" + s + "" == s;
  }

  predicate OccursAt(s: string, p: string, i: nat) {
    i + |p| <= |s| && s[i..i + |p|] == p
  }

  /** The index of the first occurrence of `p` in `s`. */
  function Find(s: string, p: string): (result: Option<nat>)
    ensures result.Some? ==> result.value + |p| <= |s|
  {
    if p <= s then Some(0)
    else if s == "" then None
    else
      match Find(s[1..], p)
      case Some(i) => Some(i + 1)
      case None => None
  }

  predicate Contains(s: string, p: string) {
    Find(s, p).Some?
  }

  lemma OccursAtStart(s: string, p: string)
    ensures OccursAt(s, p, 0) <==> p <= s
  {
    if |p| <= |s| {
      assert s[0..0 + |p|] == s[..|p|];
    }
  }

  lemma OccursBehind(a: string, b: string, p: string, j: nat)
    ensures OccursAt(a + b, p, |a| + j) <==> OccursAt(b, p, j)
  {
    if j + |p| <= |b| {
      assert (a + b)[|a| + j..|a| + j + |p|] == b[j..j + |p|];
    }
  }

  lemma OccursInPrefix(a: string, b: string, p: string, j: nat)
    requires j + |p| <= |a|
    ensures OccursAt(a + b, p, j) <==> OccursAt(a, p, j)
  {
    assert (a + b)[j..j + |p|] == a[j..j + |p|];
  }

  lemma {:induction false} FindOccurs(s: string, p: string)
    requires Contains(s, p)
    ensures OccursAt(s, p, Find(s, p).value)
  {
    OccursAtStart(s, p);
    if !(p <= s) {
      FindOccurs(s[1..], p);
      OccursBehind(s[..1], s[1..], p, Find(s[1..], p).value);
      assert s[..1] + s[1..] == s;
    }
  }

  lemma {:induction false} FindFirst(s: string, p: string, i: nat)
    requires OccursAt(s, p, i)
    ensures Contains(s, p) && Find(s, p).value <= i
  {
    OccursAtStart(s, p);
    if !(p <= s) {
      OccursBehind(s[..1], s[1..], p, i - 1);
      assert s[..1] + s[1..] == s;
      FindFirst(s[1..], p, i - 1);
    }
  }

  /** An occurrence inside a prefix is still the first one when text is added behind. */
  lemma FindInPrefix(a: string, b: string, p: string)
    requires Contains(a, p)
    ensures Find(a + b, p) == Find(a, p)
  {
    var i := Find(a, p).value;
    FindOccurs(a, p);
    OccursInPrefix(a, b, p, i);
    FindFirst(a + b, p, i);
    var j := Find(a + b, p).value;
    FindOccurs(a + b, p);
    OccursInPrefix(a, b, p, j);
    FindFirst(a, p, j);
  }

  /** A one-line pattern that is absent from `a` is first found just after the newline. */
  lemma FindAfterNewline(a: string, p: string, rest: string)
    requires p != "" && '\n' !in p && !Contains(a, p)
    ensures Find(a + "\n" + p + rest, p) == Some(|a| + 1)
  {
    var s := a + "\n" + p + rest;
    assert s == (a + "\n") + (p + rest) == a + ("\n" + (p + rest));
    OccursAtStart(p + rest, p);
    OccursBehind(a + "\n", p + rest, p, 0);
    FindFirst(s, p, |a| + 1);
    FindOccurs(s, p);
    var j := Find(s, p).value;
    if j <= |a| {
      NoOccurrenceBefore(a, p, p + rest, j);
    }
  }

  lemma NoOccurrenceBefore(a: string, p: string, rest: string, j: nat)
    requires p != "" && '\n' !in p && !Contains(a, p) && j <= |a|
    ensures !OccursAt(a + ("\n" + rest), p, j)
  {
    var s := a + ("\n" + rest);
    if j + |p| <= |a| {
      OccursInPrefix(a, "\n" + rest, p, j);
      if OccursAt(a, p, j) {
        FindFirst(a, p, j);
      }
    } else {
      assert s[|a|] == '\n' != p[|a| - j];
      assert j + |p| <= |s| ==> s[j..j + |p|][|a| - j] == s[|a|];
    }
  }

  /** A one-line pattern absent from two pieces is absent from their join by a newline. */
  lemma AbsentAcrossNewline(a: string, b: string, p: string)
    requires p != "" && '\n' !in p && !Contains(a, p) && !Contains(b, p)
    ensures !Contains(a + "\n" + b, p)
  {
    var s := a + "\n" + b;
    assert s == (a + "\n") + b == a + ("\n" + b);
    if Contains(s, p) {
      var j := Find(s, p).value;
      FindOccurs(s, p);
      if j <= |a| {
        NoOccurrenceBefore(a, p, b, j);
      } else {
        OccursBehind(a + "\n", b, p, j - |a| - 1);
        FindFirst(b, p, j - |a| - 1);
      }
    }
  }

  lemma AbsentFromEmpty(p: string)
    requires p != ""
    ensures !Contains("", p)
  {
  }

  lemma ContainsInside(a: string, p: string, b: string)
    ensures Contains(a + p + b, p)
  {
    hide Find;
    var s := a + p + b;
    assert s[|a|..|a| + |p|] == p;
    FindFirst(s, p, |a|);
  }

  /** A text holds a pattern with something before and something behind it. */
  ghost predicate Occurs(s: string, p: string) {
    exists a, b :: s == a + p + b
  }

  /** The search finds a pattern exactly where the text is put together around it. */
  lemma ContainsIff(s: string, p: string)
    ensures Contains(s, p) <==> Occurs(s, p)
  {
    hide Find;
    if Contains(s, p) {
      FindOccurs(s, p);
      var i := Find(s, p).value;
      assert s == s[..i] + p + s[i + |p|..];
    }
    if Occurs(s, p) {
      var a, b :| s == a + p + b;
      ContainsInside(a, p, b);
    }
  }

  // ----- lines

  /** The lines, with a newline between two of them. */
  function JoinLines(lines: seq<string>): string {
    if lines == [] then ""
    else if |lines| == 1 then lines[0]
    else lines[0] + "\n" + JoinLines(lines[1..])
  }

  // ----- cutting a string at the first occurrence of a pattern

  datatype Halves = Halves(before: string, after: string)

  /** What stands before and behind the first occurrence of `p`. */
  function Cut(s: string, p: string): (result: Option<Halves>)
    ensures result.Some? <==> Contains(s, p)
    ensures result.Some? ==> |result.value.before| + |p| + |result.value.after| == |s|
  {
    match Find(s, p)
    case None => None
    case Some(i) => Some(Halves(s[..i], s[i + |p|..]))
  }

  lemma CutJoins(s: string, p: string)
    requires Contains(s, p)
    ensures var h := Cut(s, p).value; s == h.before + p + h.after
  {
    FindOccurs(s, p);
  }

  lemma CutAfterNewline(a: string, p: string, rest: string)
    requires p != "" && '\n' !in p && !Contains(a, p)
    ensures Cut(a + "\n" + p + rest, p) == Some(Halves(a + "\n", rest))
  {
    FindAfterNewline(a, p, rest);
    var s := a + "\n" + p + rest;
    assert s[..|a| + 1] == a + "\n";
    assert s[|a| + 1 + |p|..] == rest;
  }

  lemma CutInPrefix(a: string, b: string, p: string)
    requires Contains(a, p)
    ensures Cut(a + b, p) == Some(Halves(Cut(a, p).value.before, Cut(a, p).value.after + b))
  {
    FindInPrefix(a, b, p);
    var i := Find(a, p).value;
    assert (a + b)[..i] == a[..i];
    assert (a + b)[i + |p|..] == a[i + |p|..] + b;
  }

  lemma CutAtStart(p: string, rest: string)
    ensures Cut(p + rest, p) == Some(Halves("", rest))
  {
    assert p <= p + rest;
  }

  // ----- the white space, by code points

  lemma SpacesWritten(c: char)
    ensures IsSpace(c)
       <==> c as int in {9, 10, 11, 12, 13, 32, 160, 5760, 8192, 8193, 8194, 8195, 8196, 8197, 8198, 8199, 8200,
                         8201, 8202, 8232, 8233, 8239, 8287, 12288, 65279}
  {
  }
}
