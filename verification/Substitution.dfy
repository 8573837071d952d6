/** Templates as segments, and what `replaceAll` does to them with the placeholder of one key. */
module Substitution {
  import opened Strings
  import opened Rewriting
  import opened Template

  predicate BraceFree(s: string) {
    forall i | 0 <= i < |s| :: s[i] != '{' && s[i] != '}'
  }

  /** Text in which no placeholder can start: no two opening braces in a row, and none at the end. */
  predicate Inert(s: string) {
    && (forall i | 0 <= i < |s| - 1 :: s[i] == '{' ==> s[i + 1] != '{')
    && (s != "" ==> s[|s| - 1] != '{')
  }

  /** A template is made of literal text and references. */
  datatype Segment = Literal(text: string) | Reference(key: string)

  predicate Proper(segments: seq<Segment>) {
    forall i | 0 <= i < |segments| ::
      match segments[i] case Literal(text) => Inert(text) case Reference(key) => BraceFree(key)
  }

  function Text(segment: Segment): string {
    match segment
    case Literal(text) => text
    case Reference(key) => Placeholder(key)
  }

  function Texts(segments: seq<Segment>): string {
    if segments == [] then "" else Text(segments[0]) + Texts(segments[1..])
  }

  ghost predicate ProperTemplate(text: string) {
    exists segments :: Proper(segments) && Texts(segments) == text
  }

  /** Keys without braces, and values that are templates themselves: inert text, or text with references. */
  ghost predicate ProperSource(source: map<string, string>) {
    forall k | k in source :: BraceFree(k) && ProperTemplate(source[k])
  }

  /** Some way to cut a template into segments. */
  ghost function Parts(text: string): (segments: seq<Segment>)
    requires ProperTemplate(text)
    ensures Proper(segments) && Texts(segments) == text
  {
    var segments :| Proper(segments) && Texts(segments) == text;
    segments
  }

  /** A reference to one of `keys` becomes the segments of its value, unless the value is that reference. */
  ghost function Fill(segment: Segment, keys: set<string>, source: map<string, string>): seq<Segment>
    requires keys <= source.Keys && ProperSource(source)
  {
    if segment.Reference? && segment.key in keys && source[segment.key] != Placeholder(segment.key)
    then Parts(source[segment.key]) else [segment]
  }

  ghost function Filling(segments: seq<Segment>, keys: set<string>, source: map<string, string>): seq<Segment>
    requires keys <= source.Keys && ProperSource(source)
  {
    if segments == [] then [] else Fill(segments[0], keys, source) + Filling(segments[1..], keys, source)
  }

  /** Inert text is a template, text without any brace in particular. */
  lemma InertIsProper(text: string)
    requires Inert(text) || BraceFree(text)
    ensures ProperTemplate(text)
  {
    assert Inert(text);
    TextsOne(Literal(text));
    hide Inert, BraceFree;
    assert Proper([Literal(text)]);
  }

  // Where a placeholder can stand in a template.

  lemma PlaceholderChars(key: string)
    ensures var p := Placeholder(key);
      && |p| == |key| + 12 && p[0] == '{' && p[1] == '{' && p[2] == ' '
      && (forall i | 2 <= i < 9 :: p[i] != '{' && p[i] != '}')
      && (forall i | 0 <= i < |key| :: p[9 + i] == key[i])
      && p[9 + |key|] == ' ' && p[10 + |key|] == '}' && p[11 + |key|] == '}'
  {
  }

  lemma NoMatchInLiteral(text: string, rest: string, key: string, j: nat)
    requires Inert(text) && j < |text|
    ensures !At(text + rest, Placeholder(key), j)
  {
    PlaceholderChars(key);
    hide Placeholder;
    var s := text + rest;
    assert s[j] == text[j];
    if j + 1 < |text| {
      assert text[j] == '{' ==> s[j + 1] == text[j + 1] != '{';
    }
    assert 1 < |s| - j ==> s[j..][0] == s[j] && s[j..][1] == s[j + 1];
  }

  /** Where the placeholders of two brace-free keys part, whatever follows the second. */
  lemma PlaceholdersPart(key: string, other: string, rest: string) returns (i: nat)
    requires BraceFree(key) && BraceFree(other) && key != other
    ensures i < |Placeholder(key)| && i < |Placeholder(other) + rest|
    ensures Placeholder(key)[i] != (Placeholder(other) + rest)[i]
  {
    PlaceholderChars(key);
    PlaceholderChars(other);
    hide Placeholder;
    if |key| < |other| {
      i := 10 + |key|;
      assert i + 1 < 10 + |other| ==> Placeholder(other)[i] == other[|key| + 1];
    } else if |other| < |key| {
      i := 10 + |other|;
      assert i + 1 < 10 + |key| ==> Placeholder(key)[i] == key[|other| + 1];
    } else {
      var d: nat :| d < |key| && key[d] != other[d];
      i := 9 + d;
    }
  }

  lemma NoMatchInReference(other: string, rest: string, key: string, j: nat)
    requires BraceFree(key) && BraceFree(other) && key != other && j < |Placeholder(other)|
    ensures !At(Placeholder(other) + rest, Placeholder(key), j)
  {
    PlaceholderChars(key);
    PlaceholderChars(other);
    hide Placeholder;
    var p, q := Placeholder(key), Placeholder(other);
    var s := q + rest;
    if j == 0 {
      assert s[0..] == s;
      var i := PlaceholdersPart(key, other, rest);
    } else if |p| <= |s| - j {
      assert s[j..][0] == s[j] && s[j..][1] == s[j + 1];
      if 9 <= j < 9 + |other| { assert s[j] == other[j - 9]; }
    }
  }

  lemma NoMatchInSegment(segment: Segment, rest: string, key: string, j: nat)
    requires Proper([segment]) && BraceFree(key) && segment != Reference(key) && j < |Text(segment)|
    ensures !At(Text(segment) + rest, Placeholder(key), j)
  {
    hide At, Placeholder;
    assert [segment][0] == segment;
    match segment
    case Literal(text) => NoMatchInLiteral(text, rest, key, j);
    case Reference(other) => NoMatchInReference(other, rest, key, j);
  }

  // One key.

  lemma IndexSkips(x: string, c: string, t: string)
    requires forall j: nat | j < |x| :: !At(x + c, t, j)
    ensures Index(x + c, t) == if Index(c, t) == -1 then -1 else |x| + Index(c, t)
  {
    hide IndexFrom, Index;
    var s := x + c;
    IndexIsFirst(s, t);
    IndexIsFirst(c, t);
    forall j: nat | j <= |c| ensures At(s, t, |x| + j) == At(c, t, j) {
      assert s[|x| + j..] == c[j..];
    }
    if Index(c, t) != -1 { assert At(s, t, |x| + Index(c, t)); }
    var i := Index(s, t);
    if i != -1 { assert At(c, t, i - |x|); }
  }

  lemma StepSkips(x: string, c: string, t: string, v: string)
    requires forall j: nat | j < |x| :: !At(x + c, t, j)
    ensures Step(x + c, t, v) == x + Step(c, t, v)
  {
    hide Index, At, Step;
    IndexSkips(x, c, t);
    var s, i, j := x + c, Index(c, t), Index(x + c, t);
    StepIs(c, t, v, i);
    StepIs(s, t, v, j);
    if i == -1 {
      assert j == -1;
    } else {
      Cut(s, x, c, t, v, i, j);
    }
  }

  lemma Cut(s: string, x: string, c: string, t: string, v: string, i: nat, j: nat)
    requires s == x + c && i + |t| <= |c| && j == |x| + i
    ensures s[..j] + v + s[j + |t|..] == x + (c[..i] + v + c[i + |t|..])
  {
    assert s[..j] == x + c[..i];
    assert s[j + |t|..] == c[i + |t|..];
  }

  lemma StepAtStart(t: string, c: string, v: string)
    ensures Step(t + c, t, v) == v + c
  {
    assert (t + c)[0..] == t + c;
    assert Index(t + c, t) == 0;
    assert (t + c)[|t|..] == c;
  }

  function References(segments: seq<Segment>, key: string): nat {
    if segments == [] then 0 else (if segments[0] == Reference(key) then 1 else 0) + References(segments[1..], key)
  }

  /** The first reference to `key` becomes `parts`. */
  function FillFirst(segments: seq<Segment>, key: string, parts: seq<Segment>): seq<Segment> {
    if segments == [] then []
    else if segments[0] == Reference(key) then parts + segments[1..]
    else [segments[0]] + FillFirst(segments[1..], key, parts)
  }

  lemma ProperTail(segments: seq<Segment>)
    requires Proper(segments) && segments != []
    ensures Proper([segments[0]]) && Proper(segments[1..])
  {
  }

  lemma ProperConcat(a: seq<Segment>, b: seq<Segment>)
    requires Proper(a) && Proper(b)
    ensures Proper(a + b)
  {
  }

  lemma {:induction false} TextsConcat(a: seq<Segment>, b: seq<Segment>)
    ensures Texts(a + b) == Texts(a) + Texts(b)
  {
    hide Text, Texts;
    if a == [] {
      assert a + b == b;
      TextsNone();
      assert "" + Texts(b) == Texts(b);
    } else {
      TextsConcat(a[1..], b);
      TextsStep(a);
      TextsStep(a + b);
      assert (a + b)[1..] == a[1..] + b && (a + b)[0] == a[0];
      var x, y, z := Text(a[0]), Texts(a[1..]), Texts(b);
      assert x + (y + z) == x + y + z;
    }
  }

  lemma TextsNone()
    ensures Texts([]) == ""
  {
  }

  lemma TextsStep(segments: seq<Segment>)
    requires segments != []
    ensures Texts(segments) == Text(segments[0]) + Texts(segments[1..])
  {
  }

  lemma TextsOne(segment: Segment)
    ensures Texts([segment]) == Text(segment)
  {
    hide Text;
    assert [segment][1..] == [];
    assert Texts([]) == "";
    assert Text(segment) + "" == Text(segment);
  }

  lemma {:induction false} ReferencesConcat(a: seq<Segment>, b: seq<Segment>, key: string)
    ensures References(a + b, key) == References(a, key) + References(b, key)
  {
    if a == [] {
      assert a + b == b;
    } else {
      ReferencesConcat(a[1..], b, key);
      assert (a + b)[1..] == a[1..] + b;
    }
  }

  lemma ReferencesOne(segment: Segment, key: string)
    ensures References([segment], key) == if segment == Reference(key) then 1 else 0
  {
    assert [segment][1..] == [];
  }

  lemma {:induction false} StepTemplate(segments: seq<Segment>, key: string, parts: seq<Segment>)
    requires Proper(segments) && BraceFree(key)
    ensures Step(Texts(segments), Placeholder(key), Texts(parts)) == Texts(FillFirst(segments, key, parts))
  {
    hide At, Step, Placeholder, Proper, BraceFree;
    var v := Texts(parts);
    if segments == [] {
      StepEmpty(key, v);
    } else {
      var head, tail := segments[0], segments[1..];
      if head == Reference(key) {
        StepAtStart(Placeholder(key), Texts(tail), v);
        TextsConcat(parts, tail);
      } else {
        ProperTail(segments);
        forall j: nat | j < |Text(head)| ensures !At(Text(head) + Texts(tail), Placeholder(key), j) {
          NoMatchInSegment(head, Texts(tail), key, j);
        }
        StepSkips(Text(head), Texts(tail), Placeholder(key), v);
        StepTemplate(tail, key, parts);
        TextsConcat([head], FillFirst(tail, key, parts));
        TextsOne(head);
      }
    }
  }

  lemma StepEmpty(key: string, v: string)
    ensures Step("", Placeholder(key), v) == ""
  {
    PlaceholderChars(key);
  }

  lemma {:induction false} FillFirstProper(segments: seq<Segment>, key: string, parts: seq<Segment>)
    requires Proper(segments) && Proper(parts)
    ensures Proper(FillFirst(segments, key, parts))
  {
    hide Proper;
    if segments == [] {
    } else {
      var head, tail := segments[0], segments[1..];
      ProperTail(segments);
      if head == Reference(key) {
        ProperConcat(parts, tail);
      } else {
        FillFirstProper(tail, key, parts);
        ProperConcat([head], FillFirst(tail, key, parts));
      }
    }
  }

  /** What filling one reference does to the number of references to any key. */
  lemma {:induction false} FillFirstReferences(segments: seq<Segment>, key: string, parts: seq<Segment>, other: string)
    ensures References(segments, key) == 0 ==> FillFirst(segments, key, parts) == segments
    ensures References(segments, key) > 0 ==>
      References(FillFirst(segments, key, parts), other) ==
      References(segments, other) + References(parts, other) - (if other == key then 1 else 0)
  {
    if segments == [] {
    } else {
      var head, tail := segments[0], segments[1..];
      if head == Reference(key) {
        ReferencesConcat(parts, tail, other);
      } else {
        FillFirstReferences(tail, key, parts, other);
        assert ([head] + FillFirst(tail, key, parts))[1..] == FillFirst(tail, key, parts);
        assert [head] + tail == segments;
      }
    }
  }

  /** The placeholder of a key occurs in a template exactly if a segment refers to the key. */
  lemma ContainsIffReferred(segments: seq<Segment>, key: string)
    requires Proper(segments) && BraceFree(key)
    ensures Contains(Texts(segments), Placeholder(key)) <==> References(segments, key) > 0
  {
    PlaceholderChars(key);
    hide Step, Placeholder, Proper, BraceFree, Contains, References;
    var s := Texts(segments);
    StepTemplate(segments, key, []);
    FillFirstReferences(segments, key, [], key);
    FixedPoint(s, Placeholder(key), "");
    if References(segments, key) > 0 { FillFirstShorter(segments, key); }
  }

  lemma {:induction false} FillFirstShorter(segments: seq<Segment>, key: string)
    requires References(segments, key) > 0
    ensures |Texts(FillFirst(segments, key, []))| < |Texts(segments)|
  {
    var head, tail := segments[0], segments[1..];
    if head == Reference(key) {
      PlaceholderChars(key);
      assert [] + tail == tail;
    } else {
      FillFirstShorter(tail, key);
      TextsConcat([head], FillFirst(tail, key, []));
      TextsOne(head);
    }
  }

  lemma {:induction false} FillingConcat(a: seq<Segment>, b: seq<Segment>, keys: set<string>, source: map<string, string>)
    requires keys <= source.Keys && ProperSource(source)
    ensures Filling(a + b, keys, source) == Filling(a, keys, source) + Filling(b, keys, source)
  {
    hide Fill, ProperSource;
    if a == [] {
      assert a + b == b;
    } else {
      FillingConcat(a[1..], b, keys, source);
      assert (a + b)[1..] == a[1..] + b;
    }
  }

  /** A key that nothing refers to, or whose value is its own placeholder, fills nothing. */
  lemma {:induction false} FillingNothing(segments: seq<Segment>, key: string, source: map<string, string>)
    requires key in source && ProperSource(source)
    requires References(segments, key) == 0 || source[key] == Placeholder(key)
    ensures Filling(segments, {key}, source) == segments
  {
    hide Placeholder, ProperSource;
    if segments == [] {
    } else {
      FillingNothing(segments[1..], key, source);
      assert [segments[0]] + segments[1..] == segments;
    }
  }

  lemma {:induction false} FillFirstFilling(segments: seq<Segment>, key: string, source: map<string, string>)
    requires key in source && ProperSource(source)
    requires source[key] != Placeholder(key) && References(Parts(source[key]), key) == 0
    ensures Filling(FillFirst(segments, key, Parts(source[key])), {key}, source) == Filling(segments, {key}, source)
  {
    hide Placeholder, ProperSource;
    if segments == [] {
    } else {
      var head, tail, parts := segments[0], segments[1..], Parts(source[key]);
      if head == Reference(key) {
        FillingConcat(parts, tail, {key}, source);
        FillingNothing(parts, key, source);
      } else {
        FillFirstFilling(tail, key, source);
        assert ([head] + FillFirst(tail, key, parts))[1..] == FillFirst(tail, key, parts);
      }
    }
  }

  /** The value of the key holds the key's placeholder without being it: filling it in calls for filling again. */
  ghost predicate Feeds(key: string, source: map<string, string>)
    requires key in source
  {
    Contains(source[key], Placeholder(key)) && source[key] != Placeholder(key)
  }

  /** `replaceAll` with one key's placeholder fills every reference, on a template that the key cannot make spin. */
  lemma OneKeyFilled(segments: seq<Segment>, key: string, source: map<string, string>)
    requires Proper(segments) && ProperSource(source) && key in source
    requires References(segments, key) == 0 || !Feeds(key, source)
    ensures Outcome(Texts(segments), Placeholder(key), source[key]) == Some(Texts(Filling(segments, {key}, source)))
  {
    KeyFacts(key, source);
    hide Proper, ProperSource, BraceFree, Placeholder, Contains, Outcome, Stops, After, Step;
    var s, p, v := Texts(segments), Placeholder(key), source[key];
    if References(segments, key) == 0 || v == p {
      ContainsIffReferred(segments, key);
      FixedPoint(s, p, v);
      OutcomeStep(s, p, v);
      FillingNothing(segments, key, source);
    } else {
      ContainsIffReferred(Parts(v), key);
      ReferencesFilled(segments, key, source);
      OutcomeIs(s, p, v, References(segments, key));
    }
  }

  lemma KeyFacts(key: string, source: map<string, string>)
    requires ProperSource(source) && key in source
    ensures BraceFree(key) && ProperTemplate(source[key])
  {
  }

  lemma {:induction false} ReferencesFilled(segments: seq<Segment>, key: string, source: map<string, string>)
    requires Proper(segments) && ProperSource(source) && key in source
    requires source[key] != Placeholder(key) && References(Parts(source[key]), key) == 0
    ensures Stops(Texts(segments), Placeholder(key), source[key], References(segments, key))
    ensures After(Texts(segments), Placeholder(key), source[key], References(segments, key)) ==
            Texts(Filling(segments, {key}, source))
    decreases References(segments, key)
  {
    hide Stops, After, Step, Placeholder, Proper, ProperTemplate, ProperSource, BraceFree, Filling, Texts, References,
         FillFirst, Parts;
    KeyFacts(key, source);
    var s, p, v := Texts(segments), Placeholder(key), source[key];
    var parts := Parts(v);
    StepTemplate(segments, key, parts);
    FillFirstReferences(segments, key, parts, key);
    if References(segments, key) == 0 {
      FillingNothing(segments, key, source);
      StopsHere(s, p, v);
    } else {
      var next := FillFirst(segments, key, parts);
      FillFirstProper(segments, key, parts);
      FillFirstFilling(segments, key, source);
      ReferencesFilled(next, key, source);
      OneTurn(s, p, v, References(next, key));
    }
  }

  lemma StopsHere(s: string, target: string, replacement: string)
    requires Step(s, target, replacement) == s
    ensures Stops(s, target, replacement, 0) && After(s, target, replacement, 0) == s
  {
  }

  lemma OneTurn(s: string, target: string, replacement: string, n: nat)
    requires Stops(Step(s, target, replacement), target, replacement, n)
    ensures Stops(s, target, replacement, n + 1)
    ensures After(s, target, replacement, n + 1) == After(Step(s, target, replacement), target, replacement, n)
  {
    hide Step;
  }
}
