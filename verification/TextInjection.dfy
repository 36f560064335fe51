/** How text is encoded for the device shell: nine chained replacements. */
module TextInjection {
  function ReplaceChar(s: string, c: char, code: string): string {
    if s == "" then ""
    else (if s[0] == c then code else [s[0]]) + ReplaceChar(s[1..], c, code)
  }

  /** The replacements in their order; the one for the percent sign comes first. */
  function NormalizeText(value: string): string {
    var percent := ReplaceChar(value, '%', "\\%");
    var space := ReplaceChar(percent, ' ', "%s");
    var ampersand := ReplaceChar(space, '&', "\\&");
    var less := ReplaceChar(ampersand, '<', "\\<");
    var greater := ReplaceChar(less, '>', "\\>");
    var opening := ReplaceChar(greater, '(', "\\(");
    var closing := ReplaceChar(opening, ')', "\\)");
    var semicolon := ReplaceChar(closing, ';', "\\;");
    ReplaceChar(semicolon, '|', "\\|")
  }

  predicate Escaped(c: char) {
    c == '%' || c == '&' || c == '<' || c == '>' || c == '(' || c == ')' || c == ';' || c == '|'
  }

  function EncodeChar(c: char): string {
    if c == ' ' then "%s" else if Escaped(c) then ['\\', c] else [c]
  }

  /** The same encoding as one substitution for each character. */
  function Encode(s: string): string {
    if s == "" then "" else EncodeChar(s[0]) + Encode(s[1..])
  }

  // ----- the chain is one substitution

  lemma {:induction false} ReplaceJoin(a: string, b: string, c: char, code: string)
    ensures ReplaceChar(a + b, c, code) == ReplaceChar(a, c, code) + ReplaceChar(b, c, code)
  {
    if a == "" {
      assert a + b == b;
    } else {
      assert (a + b)[1..] == a[1..] + b;
      ReplaceJoin(a[1..], b, c, code);
    }
  }

  lemma NormalizeJoin(a: string, b: string)
    ensures NormalizeText(a + b) == NormalizeText(a) + NormalizeText(b)
  {
    hide ReplaceChar;
    ReplaceJoin(a, b, '%', "\\%");
    var a1, b1 := ReplaceChar(a, '%', "\\%"), ReplaceChar(b, '%', "\\%");
    ReplaceJoin(a1, b1, ' ', "%s");
    var a2, b2 := ReplaceChar(a1, ' ', "%s"), ReplaceChar(b1, ' ', "%s");
    ReplaceJoin(a2, b2, '&', "\\&");
    var a3, b3 := ReplaceChar(a2, '&', "\\&"), ReplaceChar(b2, '&', "\\&");
    ReplaceJoin(a3, b3, '<', "\\<");
    var a4, b4 := ReplaceChar(a3, '<', "\\<"), ReplaceChar(b3, '<', "\\<");
    ReplaceJoin(a4, b4, '>', "\\>");
    var a5, b5 := ReplaceChar(a4, '>', "\\>"), ReplaceChar(b4, '>', "\\>");
    ReplaceJoin(a5, b5, '(', "\\(");
    var a6, b6 := ReplaceChar(a5, '(', "\\("), ReplaceChar(b5, '(', "\\(");
    ReplaceJoin(a6, b6, ')', "\\)");
    var a7, b7 := ReplaceChar(a6, ')', "\\)"), ReplaceChar(b6, ')', "\\)");
    ReplaceJoin(a7, b7, ';', "\\;");
    ReplaceJoin(ReplaceChar(a7, ';', "\\;"), ReplaceChar(b7, ';', "\\;"), '|', "\\|");
  }

  /** The place of a character in the order of the replacements. */
  function Turn(c: char): (n: nat)
    ensures n <= 9
  {
    if c == '%' then 0
    else if c == ' ' then 1
    else if c == '&' then 2
    else if c == '<' then 3
    else if c == '>' then 4
    else if c == '(' then 5
    else if c == ')' then 6
    else if c == ';' then 7
    else if c == '|' then 8
    else 9
  }

  /** What a character has become after the first `n` replacements. */
  function After(c: char, n: nat): string {
    if Turn(c) < n then EncodeChar(c) else [c]
  }

  lemma TurnOf(c: char)
    ensures Turn(c) < 9 <==> EncodeChar(c) != [c]
    ensures Turn(c) < 9 && c != ' ' ==> EncodeChar(c) == ['\\', c]
    ensures Turn(c) < 2 <==> c == '%' || c == ' '
    ensures Turn('s') == 9 && Turn('\\') == 9 && Turn('%') == 0
  {
  }

  lemma TurnIsUnique(c: char, d: char)
    requires Turn(c) == Turn(d) < 9
    ensures c == d
  {
  }

  lemma ReplaceOne(d: char, c: char, code: string)
    ensures ReplaceChar([d], c, code) == if d == c then code else [d]
  {
    assert [d][1..] == "";
  }

  lemma ReplaceNone(d: char, e: char, c: char, code: string)
    requires d != c && e != c
    ensures ReplaceChar([d, e], c, code) == [d, e]
  {
    assert [d, e][1..] == [e];
    ReplaceOne(e, c, code);
  }

  /** One replacement takes each character one step on, and leaves alone what the earlier
      ones have produced. */
  lemma Stage(c: char, d: char)
    requires Turn(d) < 9
    ensures ReplaceChar(After(c, Turn(d)), d, EncodeChar(d)) == After(c, Turn(d) + 1)
  {
    hide ReplaceChar, Turn, EncodeChar;
    TurnOf(c);
    TurnOf(d);
    if Turn(c) < Turn(d) {
      if c == ' ' {
        SpaceCode();
        ReplaceNone('%', 's', d, EncodeChar(d));
      } else {
        ReplaceNone('\\', c, d, EncodeChar(d));
      }
    } else {
      ReplaceOne(c, d, EncodeChar(d));
      if Turn(c) == Turn(d) {
        TurnIsUnique(c, d);
      }
    }
  }

  lemma SpaceCode()
    ensures EncodeChar(' ') == "%s" && Turn(' ') == 1
  {
  }

  lemma Codes()
    ensures EncodeChar('%') == "\\%" && EncodeChar(' ') == "%s" && EncodeChar('&') == "\\&"
    ensures EncodeChar('<') == "\\<" && EncodeChar('>') == "\\>" && EncodeChar('(') == "\\("
    ensures EncodeChar(')') == "\\)" && EncodeChar(';') == "\\;" && EncodeChar('|') == "\\|"
  {
  }

  lemma Turns()
    ensures Turn('%') == 0 && Turn(' ') == 1 && Turn('&') == 2 && Turn('<') == 3 && Turn('>') == 4
    ensures Turn('(') == 5 && Turn(')') == 6 && Turn(';') == 7 && Turn('|') == 8
  {
  }

  lemma NormalizeOne(c: char)
    ensures NormalizeText([c]) == EncodeChar(c)
  {
    hide ReplaceChar, Turn, EncodeChar, After;
    Codes();
    Turns();
    TurnOf(c);
    AfterEnds(c);
    Stage(c, '%');
    Stage(c, ' ');
    Stage(c, '&');
    Stage(c, '<');
    Stage(c, '>');
    Stage(c, '(');
    Stage(c, ')');
    Stage(c, ';');
    Stage(c, '|');
  }

  lemma AfterEnds(c: char)
    ensures After(c, 0) == [c] && After(c, 9) == EncodeChar(c)
  {
    hide Turn, EncodeChar;
    TurnOf(c);
  }

  /** The chain of replacements is one substitution for each character. */
  lemma {:induction false} NormalizeIsEncode(s: string)
    ensures NormalizeText(s) == Encode(s)
  {
    hide EncodeChar;
    if s == "" {
      NormalizeNothing();
    } else {
      NormalizeIsEncode(s[1..]);
      NormalizeJoin([s[0]], s[1..]);
      NormalizeOne(s[0]);
      assert [s[0]] + s[1..] == s;
    }
  }

  lemma NormalizeNothing()
    ensures NormalizeText("") == ""
  {
  }

  // ----- decoding

  function Decode(e: string): string
    decreases |e|
  {
    if e == "" then ""
    else if |e| >= 2 && e[0] == '%' && e[1] == 's' then " " + Decode(e[2..])
    else if |e| >= 2 && e[0] == '\\' && Escaped(e[1]) then [e[1]] + Decode(e[2..])
    else [e[0]] + Decode(e[1..])
  }

  /** Text without a backslash can be read back from its encoding. */
  lemma {:induction false} DecodeEncode(s: string)
    requires '\\' !in s
    ensures Decode(Encode(s)) == s
  {
    if s != "" {
      assert s == [s[0]] + s[1..] && s[0] in s;
      DecodeEncode(s[1..]);
      DecodeFront(s[0], Encode(s[1..]));
    }
  }

  lemma DecodeFront(c: char, rest: string)
    requires c != '\\'
    ensures Decode(EncodeChar(c) + rest) == [c] + Decode(rest)
  {
    var e := EncodeChar(c) + rest;
    assert |EncodeChar(c)| == 2 ==> e[2..] == rest;
    assert |EncodeChar(c)| == 1 ==> e[1..] == rest;
  }

  // ----- exactly when a text can be told from its encoding

  predicate PairAt(s: string, i: nat, a: char, b: char) {
    i + 1 < |s| && s[i] == a && s[i + 1] == b
  }

  /** The text holds a backslash in front of a space, or a percent sign in front of an s. */
  predicate Ambiguous(s: string) {
    exists i: nat :: i < |s| && (PairAt(s, i, '\\', ' ') || PairAt(s, i, '%', 's'))
  }

  lemma {:induction false} EncodeJoin(a: string, b: string)
    ensures Encode(a + b) == Encode(a) + Encode(b)
  {
    hide EncodeChar;
    if a == "" {
      assert a + b == b;
    } else {
      assert (a + b)[1..] == a[1..] + b;
      EncodeJoin(a[1..], b);
      assert EncodeChar(a[0]) + (Encode(a[1..]) + Encode(b)) == EncodeChar(a[0]) + Encode(a[1..]) + Encode(b);
    }
  }

  lemma PairsCollide()
    ensures Encode("\\ ") == "\\%s" == Encode("%s")
  {
    EncodeTwo('\\', ' ');
    EncodeTwo('%', 's');
  }

  lemma EncodeTwo(a: char, b: char)
    ensures Encode([a, b]) == EncodeChar(a) + EncodeChar(b)
  {
    hide EncodeChar;
    assert [a, b][1..] == [b] && [b][1..] == "";
    assert Encode([b]) == EncodeChar(b) + Encode("") == EncodeChar(b);
  }

  /** The text with the pair at `i` replaced by the other pair. */
  function SwapPair(s: string, i: nat): string
    requires i + 1 < |s|
  {
    s[..i] + (if s[i] == '%' then "\\ " else "%s") + s[i + 2..]
  }

  lemma SwapCollides(s: string, i: nat)
    requires PairAt(s, i, '\\', ' ') || PairAt(s, i, '%', 's')
    ensures SwapPair(s, i) != s && Encode(SwapPair(s, i)) == Encode(s)
  {
    hide Encode;
    PairsCollide();
    var other := if s[i] == '%' then "\\ " else "%s";
    var own := s[i..i + 2];
    assert own == if s[i] == '%' then "%s" else "\\ ";
    assert s == s[..i] + own + s[i + 2..];
    EncodeThree(s[..i], own, s[i + 2..]);
    EncodeThree(s[..i], other, s[i + 2..]);
    assert SwapPair(s, i)[i] == other[0] != s[i];
  }

  lemma EncodeThree(a: string, b: string, c: string)
    ensures Encode(a + b + c) == Encode(a) + Encode(b) + Encode(c)
  {
    hide Encode;
    EncodeJoin(a + b, c);
    EncodeJoin(a, b);
  }

  lemma AmbiguousTail(s: string)
    requires s != "" && !Ambiguous(s)
    ensures !Ambiguous(s[1..])
    ensures |s| > 1 ==> !(s[0] == '\\' && s[1] == ' ') && !(s[0] == '%' && s[1] == 's')
  {
    assert !PairAt(s, 0, '\\', ' ') && !PairAt(s, 0, '%', 's');
    forall i: nat | i < |s[1..]|
      ensures !PairAt(s[1..], i, '\\', ' ') && !PairAt(s[1..], i, '%', 's')
    {
      assert !PairAt(s, i + 1, '\\', ' ') && !PairAt(s, i + 1, '%', 's');
    }
  }

  /** What two encodings that start differently and still agree must look like. */
  lemma FrontsAgree(c: char, d: char, a: string, b: string)
    requires EncodeChar(c) + a == EncodeChar(d) + b
    ensures c == d ==> a == b
    ensures
      || c == d
      || (c == '\\' && Escaped(d) && a != "" && a[0] == d)
      || (d == '\\' && Escaped(c) && b != "" && b[0] == c)
  {
    var e, f := EncodeChar(c) + a, EncodeChar(d) + b;
    assert e[|EncodeChar(c)|..] == a && f[|EncodeChar(d)|..] == b;
    assert e[0] == f[0];
    assert |e| >= 2 && |f| >= 2 ==> e[1] == f[1];
  }

  /** An encoding starts with an escaped character only for a space. */
  lemma EncodedStart(s: string)
    requires Encode(s) != "" && Escaped(Encode(s)[0])
    ensures s != "" && s[0] == ' ' && Encode(s)[0] == '%'
  {
    assert Encode(s)[0] == EncodeChar(s[0])[0];
  }

  lemma EncodedS(s: string, rest: string)
    requires Encode(s) == "s" + rest
    ensures s != "" && s[0] == 's'
  {
    assert Encode(s)[0] == EncodeChar(s[0])[0] == 's';
  }

  /** A text that is not ambiguous is the only one with its encoding. */
  lemma {:induction false} EncodeTells(s: string, t: string)
    requires Encode(s) == Encode(t) && !Ambiguous(s)
    ensures s == t
  {
    hide EncodeChar, Ambiguous;
    if s == "" || t == "" {
      EncodeEmpty(s);
      EncodeEmpty(t);
    } else {
      AmbiguousTail(s);
      var a, b := Encode(s[1..]), Encode(t[1..]);
      FrontsAgree(s[0], t[0], a, b);
      if s[0] == t[0] {
        EncodeTells(s[1..], t[1..]);
        assert s == [s[0]] + s[1..] && t == [t[0]] + t[1..];
      } else {
        FrontsDiffer(s, t);
      }
    }
  }

  lemma EncodeEmpty(s: string)
    ensures Encode(s) == "" <==> s == ""
  {
  }

  lemma FrontsDiffer(s: string, t: string)
    requires s != "" && t != "" && Encode(s) == Encode(t)
    requires s[0] != t[0]
    ensures |s| > 1 && ((s[0] == '\\' && s[1] == ' ') || (s[0] == '%' && s[1] == 's'))
  {
    hide Encode, Escaped;
    var a, b := Encode(s[1..]), Encode(t[1..]);
    EncodeFront(s);
    EncodeFront(t);
    FrontsAgree(s[0], t[0], a, b);
    if s[0] == '\\' && Escaped(t[0]) && a != "" && a[0] == t[0] {
      EncodedStart(s[1..]);
    } else {
      EncodedStart(t[1..]);
      EncodeFront(t[1..]);
      PercentBehind(t, s[1..]);
    }
  }

  lemma EncodeFront(s: string)
    requires s != ""
    ensures Encode(s) == EncodeChar(s[0]) + Encode(s[1..])
  {
  }

  lemma PercentBehind(t: string, rest: string)
    requires |t| > 1 && t[0] == '\\' && t[1] == ' ' && Encode(t) == EncodeChar('%') + Encode(rest)
    ensures rest != "" && rest[0] == 's'
  {
    hide Encode;
    EncodeFront(t);
    EncodeFront(t[1..]);
    var tail := Encode(t[1..][1..]);
    assert Encode(t) == "\\%s" + tail;
    assert Encode(rest) == Encode(t)[2..] == "s" + tail;
    EncodedS(rest, tail);
  }

  /** A text can be told from its encoding exactly when it holds neither pair. */
  lemma EncodeIsUniqueIff(s: string)
    ensures (forall t :: Encode(t) == Encode(s) ==> t == s) <==> !Ambiguous(s)
  {
    hide Encode;
    if Ambiguous(s) {
      var i: nat :| i < |s| && (PairAt(s, i, '\\', ' ') || PairAt(s, i, '%', 's'));
      SwapCollides(s, i);
    } else {
      forall t | Encode(t) == Encode(s)
        ensures t == s
      {
        EncodeTells(s, t);
      }
    }
  }

  // ----- what the shell sees

  /** A character that the shell would act on. */
  predicate ShellChar(c: char) {
    c in "&<>();|"
  }

  /** A space never stands in encoded text, and what the shell would act on only behind a backslash. */
  predicate Tame(s: string) {
    forall k :: 0 <= k < |s| ==> TameAt(s, k)
  }

  predicate TameAt(s: string, k: nat)
    requires k < |s|
  {
    s[k] != ' ' && (ShellChar(s[k]) ==> k > 0 && s[k - 1] == '\\')
  }

  lemma TameJoin(a: string, b: string)
    requires Tame(a) && Tame(b)
    ensures Tame(a + b)
  {
    hide ShellChar;
    var s := a + b;
    forall k | 0 <= k < |s|
      ensures TameAt(s, k)
    {
      if k < |a| {
        assert TameAt(a, k);
      } else {
        assert TameAt(b, k - |a|);
      }
    }
  }

  lemma CharIsTame(c: char)
    ensures Tame(EncodeChar(c))
  {
  }

  /** Encoded text holds nothing that the device shell would act on. */
  lemma {:induction false} EncodedIsTame(s: string)
    ensures Tame(Encode(s))
  {
    hide Tame, EncodeChar;
    if s == "" {
      NothingIsTame();
    } else {
      EncodedIsTame(s[1..]);
      CharIsTame(s[0]);
      TameJoin(EncodeChar(s[0]), Encode(s[1..]));
    }
  }

  lemma NothingIsTame()
    ensures Tame("")
  {
  }

  /** The code of each character: `%s` for a space, a backslash in front of the eight others. */
  lemma CodesWritten(c: char)
    ensures Encode([c]) == if c == ' ' then "%s" else if c in "%&<>();|" then "\\" + [c] else [c]
  {
    assert [c][1..] == "";
    assert EncodeChar(c) + "" == EncodeChar(c);
  }
}
