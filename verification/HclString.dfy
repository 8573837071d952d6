/** Escaping of HCL string literals. */
module HclString {
  import opened Strings

  /** `escapeHCLString`: five whole-string replacements, the backslash first. */
  function Escape(s: string): string {
    var s1 := ReplaceAll(s, "\\", "\\\\");
    var s2 := ReplaceAll(s1, "\"", "\\\"");
    var s3 := ReplaceAll(s2, "\n", "\\n");
    var s4 := ReplaceAll(s3, "\r", "\\r");
    ReplaceAll(s4, "\t", "\\t")
  }

  /** What one character becomes. */
  function EscapeChar(c: char): string {
    if c == '\\' then "\\\\"
    else if c == '\"' then "\\\""
    else if c == '\n' then "\\n"
    else if c == '\r' then "\\r"
    else if c == '\t' then "\\t"
    else [c]
  }

  /** The single pass: every character on its own. */
  function EscapeOnce(s: string): string {
    if s == "" then "" else EscapeChar(s[0]) + EscapeOnce(s[1..])
  }

  lemma ReplaceAllStep(s: string, c: char, replacement: string)
    requires s != ""
    ensures ReplaceAll(s, [c], replacement) ==
            (if s[0] == c then replacement else [s[0]]) + ReplaceAll(s[1..], [c], replacement)
  {
    assert s[..1] == [s[0]];
    assert [s[0]][0] == s[0] && [c][0] == c;
  }

  lemma ReplaceAllEmpty(c: char, replacement: string)
    ensures ReplaceAll("", [c], replacement) == ""
  {
  }

  lemma {:induction false} ReplaceAllConcat(a: string, b: string, c: char, replacement: string)
    ensures ReplaceAll(a + b, [c], replacement) == ReplaceAll(a, [c], replacement) + ReplaceAll(b, [c], replacement)
  {
    hide ReplaceAll;
    if a == "" {
      ReplaceAllEmpty(c, replacement);
      assert a + b == b;
    } else {
      ReplaceAllConcat(a[1..], b, c, replacement);
      ReplaceAllStep(a, c, replacement);
      ReplaceAllStep(a + b, c, replacement);
      assert (a + b)[0] == a[0] && (a + b)[1..] == a[1..] + b;
      var x := if a[0] == c then replacement else [a[0]];
      assert x + (ReplaceAll(a[1..], [c], replacement) + ReplaceAll(b, [c], replacement)) ==
             x + ReplaceAll(a[1..], [c], replacement) + ReplaceAll(b, [c], replacement);
    }
  }

  lemma ReplaceAllChar(x: char, c: char, replacement: string)
    ensures ReplaceAll([x], [c], replacement) == if x == c then replacement else [x]
  {
    ReplaceAllStep([x], c, replacement);
    assert [x][1..] == "";
  }

  /** A pass keeps an escape made by an earlier pass. */
  lemma EscapeKept(y: char, c: char, replacement: string)
    requires c != '\\' && c != y
    ensures ReplaceAll(['\\', y], [c], replacement) == ['\\', y]
  {
    ReplaceAllStep(['\\', y], c, replacement);
    assert ['\\', y][1..] == [y];
    ReplaceAllChar(y, c, replacement);
  }

  lemma EscapeOneChar(x: char)
    ensures Escape([x]) == EscapeChar(x)
  {
    hide ReplaceAll;
    ReplaceAllChar(x, '\\', "\\\\");
    ReplaceAllChar(x, '\"', "\\\"");
    ReplaceAllChar(x, '\n', "\\n");
    ReplaceAllChar(x, '\r', "\\r");
    ReplaceAllChar(x, '\t', "\\t");
    EscapeKept('\\', '\"', "\\\"");
    EscapeKept('\\', '\n', "\\n");
    EscapeKept('\\', '\r', "\\r");
    EscapeKept('\\', '\t', "\\t");
    EscapeKept('\"', '\n', "\\n");
    EscapeKept('\"', '\r', "\\r");
    EscapeKept('\"', '\t', "\\t");
    EscapeKept('n', '\r', "\\r");
    EscapeKept('n', '\t', "\\t");
    EscapeKept('r', '\t', "\\t");
  }

  lemma EscapeConcat(a: string, b: string)
    ensures Escape(a + b) == Escape(a) + Escape(b)
  {
    hide ReplaceAll;
    var a1, b1 := ReplaceAll(a, "\\", "\\\\"), ReplaceAll(b, "\\", "\\\\");
    ReplaceAllConcat(a, b, '\\', "\\\\");
    var a2, b2 := ReplaceAll(a1, "\"", "\\\""), ReplaceAll(b1, "\"", "\\\"");
    ReplaceAllConcat(a1, b1, '\"', "\\\"");
    var a3, b3 := ReplaceAll(a2, "\n", "\\n"), ReplaceAll(b2, "\n", "\\n");
    ReplaceAllConcat(a2, b2, '\n', "\\n");
    var a4, b4 := ReplaceAll(a3, "\r", "\\r"), ReplaceAll(b3, "\r", "\\r");
    ReplaceAllConcat(a3, b3, '\r', "\\r");
    ReplaceAllConcat(a4, b4, '\t', "\\t");
  }

  /** The five passes in sequence do what a single pass over the characters does. */
  lemma {:induction false} EscapeIsSinglePass(s: string)
    ensures Escape(s) == EscapeOnce(s)
  {
    if s == "" {
    } else {
      hide Escape;
      assert s == [s[0]] + s[1..];
      EscapeConcat([s[0]], s[1..]);
      EscapeOneChar(s[0]);
      EscapeIsSinglePass(s[1..]);
    }
  }

  datatype Parsed<+T> = Fail | Done(value: T, rest: string)

  /** The character after a backslash. */
  function Unescaped(c: char): Parsed<char> {
    if c == '\\' then Done('\\', "")
    else if c == '\"' then Done('\"', "")
    else if c == 'n' then Done('\n', "")
    else if c == 'r' then Done('\r', "")
    else if c == 't' then Done('\t', "")
    else Fail
  }

  /** Reads a literal up to and including its closing quote; the opening one is already consumed. */
  function ParseString(s: string): (p: Parsed<string>)
    ensures p.Done? ==> |p.rest| < |s|
  {
    if s == "" then Fail
    else if s[0] == '\"' then Done("", s[1..])
    else if s[0] == '\\' then
      if |s| == 1 || Unescaped(s[1]).Fail? then Fail
      else
        var p := ParseString(s[2..]);
        if p.Fail? then Fail else Done([Unescaped(s[1]).value] + p.value, p.rest)
    else
      var p := ParseString(s[1..]);
      if p.Fail? then Fail else Done([s[0]] + p.value, p.rest)
  }

  /** A literal reads back as the string it was made from, whatever the string and what follows. */
  lemma {:induction false} ParseEscaped(s: string, rest: string)
    ensures ParseString(Escape(s) + "\"" + rest) == Done(s, rest)
  {
    EscapeIsSinglePass(s);
    hide Escape;
    ParseEscapedOnce(s, rest);
  }

  lemma {:induction false} ParseEscapedOnce(s: string, rest: string)
    ensures ParseString(EscapeOnce(s) + "\"" + rest) == Done(s, rest)
  {
    if s == "" {
      assert (EscapeOnce(s) + "\"" + rest)[1..] == rest;
    } else {
      ParseEscapedOnce(s[1..], rest);
      var t := EscapeOnce(s[1..]) + "\"" + rest;
      assert EscapeOnce(s) + "\"" + rest == EscapeChar(s[0]) + t;
      ParseChar(s[0], t);
      assert s == [s[0]] + s[1..];
    }
  }

  lemma ParseChar(c: char, t: string)
    requires ParseString(t).Done?
    ensures ParseString(EscapeChar(c) + t) == Done([c] + ParseString(t).value, ParseString(t).rest)
  {
    if c == '\\' { ParseEscape('\\', c, t); }
    else if c == '\"' { ParseEscape('\"', c, t); }
    else if c == '\n' { ParseEscape('n', c, t); }
    else if c == '\r' { ParseEscape('r', c, t); }
    else if c == '\t' { ParseEscape('t', c, t); }
    else { ParsePlain(c, t); }
  }

  lemma ParseEscape(d: char, c: char, t: string)
    requires Unescaped(d) == Done(c, "") && ParseString(t).Done?
    ensures ParseString(['\\', d] + t) == Done([c] + ParseString(t).value, ParseString(t).rest)
  {
    var s := ['\\', d] + t;
    assert s[0] == '\\' && s[1] == d && s[2..] == t;
  }

  lemma ParsePlain(c: char, t: string)
    requires c != '\\' && c != '\"' && ParseString(t).Done?
    ensures ParseString([c] + t) == Done([c] + ParseString(t).value, ParseString(t).rest)
  {
    var s := [c] + t;
    assert s[0] == c && s[1..] == t;
  }

  /** Different strings have different literals. */
  lemma EscapeInjective(s: string, t: string)
    ensures Escape(s) == Escape(t) <==> s == t
  {
    hide Escape;
    ParseEscaped(s, "");
    ParseEscaped(t, "");
  }

  /** How many backslashes stand immediately before position `i`. */
  function BackslashesBefore(s: string, i: nat): nat
    requires i <= |s|
  {
    if i == 0 || s[i - 1] != '\\' then 0 else 1 + BackslashesBefore(s, i - 1)
  }

  /** Every quote inside is escaped, and no line break, carriage return or tab is left raw. */
  ghost predicate SafeInside(e: string) {
    && (forall i | 0 <= i < |e| :: e[i] != '\n' && e[i] != '\r' && e[i] != '\t')
    && forall i | 0 <= i < |e| && e[i] == '\"' :: BackslashesBefore(e, i) % 2 == 1
  }

  /** Appending keeps the count of backslashes before every earlier position. */
  lemma {:induction false} BackslashesPrefix(e: string, f: string, i: nat)
    requires i <= |e|
    ensures BackslashesBefore(e + f, i) == BackslashesBefore(e, i)
  {
    if i == 0 {
    } else {
      BackslashesPrefix(e, f, i - 1);
    }
  }

  /** An escaped string never ends in the middle of an escape. */
  lemma {:induction false} EscapeIsSafe(s: string)
    ensures SafeInside(EscapeOnce(s)) && BackslashesBefore(EscapeOnce(s), |EscapeOnce(s)|) % 2 == 0
  {
    if s == "" {
    } else {
      hide EscapeOnce, SafeInside, BackslashesBefore;
      var init, c := s[..|s| - 1], s[|s| - 1];
      assert s == init + [c];
      EscapeIsSafe(init);
      EscapeOnceAppend(init, c);
      SafeAppend(EscapeOnce(init), c);
    }
  }

  lemma {:induction false} EscapeOnceAppend(s: string, c: char)
    ensures s + [c] != "" && EscapeOnce((s + [c])) == EscapeOnce(s) + EscapeChar(c)
  {
    if s == "" {
      assert EscapeOnce([c]) == EscapeChar(c) + EscapeOnce([c][1..]);
    } else {
      EscapeOnceAppend(s[1..], c);
      assert (s + [c])[1..] == s[1..] + [c];
    }
  }

  lemma SafeAppend(e: string, c: char)
    requires SafeInside(e) && BackslashesBefore(e, |e|) % 2 == 0
    ensures var f := e + EscapeChar(c);
      SafeInside(f) && BackslashesBefore(f, |f|) % 2 == 0
  {
    var x := EscapeChar(c);
    var f := e + x;
    forall i | 0 <= i <= |e| ensures BackslashesBefore(f, i) == BackslashesBefore(e, i) {
      BackslashesPrefix(e, x, i);
    }
    assert f[|e|] == x[0];
    if |x| == 2 {
      assert f[|e| + 1] == x[1];
      assert BackslashesBefore(f, |e| + 1) == 1 + BackslashesBefore(f, |e|);
    }
  }

  /** Inside the quotes no raw control character is left and every quote follows an odd run of backslashes. */
  lemma EscapedLiteralIsSafe(s: string)
    ensures SafeInside(Escape(s))
  {
    EscapeIsSinglePass(s);
    hide Escape;
    EscapeIsSafe(s);
  }

  /** What becomes of a string, character by character. */
  lemma EscapeText(c: char, s: string)
    ensures Escape("") == ""
    ensures Escape([c] + s) ==
            (match c
             case '\\' => ['\\', '\\']
             case '\"' => ['\\', '\"']
             case '\n' => ['\\', 'n']
             case '\r' => ['\\', 'r']
             case '\t' => ['\\', 't']
             case _ => [c]) + Escape(s)
  {
    EscapeIsSinglePass("");
    EscapeIsSinglePass(s);
    EscapeIsSinglePass([c] + s);
    hide Escape;
    assert ([c] + s)[0] == c && ([c] + s)[1..] == s;
  }
}
