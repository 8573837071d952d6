/**
 * What templates mean: when `applyTemplate` always returns, and when its result is the simultaneous substitution
 * whatever the order of the keys.
 */
module TemplateMeaning {
  import opened Strings
  import opened Rewriting
  import opened Template
  import opened Substitution

  /** All placeholders of known keys, replaced in one pass; the values put in are not looked at again. */
  ghost function Substitute(text: string, source: map<string, string>): string {
    if text == "" then ""
    else if exists k :: k in source && Placeholder(k) <= text then
      var k :| k in source && Placeholder(k) <= text;
      source[k] + Substitute(text[|Placeholder(k)|..], source)
    else [text[0]] + Substitute(text[1..], source)
  }

  function Elements(order: seq<string>): set<string> {
    set k | k in order
  }

  /** The values of the keys a template refers to hold no placeholder that another replacement would still change. */
  ghost predicate Settled(text: string, source: map<string, string>) {
    forall k, j | k in source && j in source && Contains(text, Placeholder(k)) && Contains(source[k], Placeholder(j)) ::
      source[j] == Placeholder(j)
  }

  // All keys, in any order.

  lemma {:induction false} FillingNone(segments: seq<Segment>, source: map<string, string>)
    requires ProperSource(source)
    ensures Filling(segments, {}, source) == segments
  {
    hide ProperSource;
    if segments == [] {
    } else {
      FillingNone(segments[1..], source);
      assert [segments[0]] + segments[1..] == segments;
    }
  }

  lemma FillProper(segment: Segment, keys: set<string>, source: map<string, string>)
    requires Proper([segment]) && keys <= source.Keys && ProperSource(source)
    ensures Proper(Fill(segment, keys, source))
  {
    hide Proper;
  }

  lemma {:induction false} FillingProper(segments: seq<Segment>, keys: set<string>, source: map<string, string>)
    requires Proper(segments) && keys <= source.Keys && ProperSource(source)
    ensures Proper(Filling(segments, keys, source))
  {
    hide Proper, Fill, ProperSource;
    if segments == [] {
      ProperNone();
    } else {
      ProperTail(segments);
      FillProper(segments[0], keys, source);
      FillingProper(segments[1..], keys, source);
      ProperConcat(Fill(segments[0], keys, source), Filling(segments[1..], keys, source));
    }
  }

  lemma ProperNone()
    ensures Proper([])
  {
  }

  /** Where the references of a filled template come from. */
  lemma {:induction false} FilledReferences(segments: seq<Segment>, keys: set<string>, source: map<string, string>,
                                            other: string)
    requires keys <= source.Keys && ProperSource(source) && BraceFree(other)
    requires References(Filling(segments, keys, source), other) > 0
    ensures || References(segments, other) > 0
            || exists k :: k in keys && References(segments, k) > 0 && Contains(source[k], Placeholder(other))
  {
    hide Proper, ProperSource, BraceFree, Contains, Placeholder;
    if segments == [] {
    } else {
      var head, tail := segments[0], segments[1..];
      ReferencesConcat(Fill(head, keys, source), Filling(tail, keys, source), other);
      if References(Filling(tail, keys, source), other) > 0 {
        FilledReferences(tail, keys, source, other);
      } else if head.Reference? && head.key in keys && source[head.key] != Placeholder(head.key) {
        KeyFacts(head.key, source);
        ContainsIffReferred(Parts(source[head.key]), other);
      } else {
        ReferencesOne(head, other);
      }
    }
  }

  /** Filling one more key, when no value filled in before has a reference to it that it would change. */
  lemma {:induction false} FillingMore(segments: seq<Segment>, keys: set<string>, key: string, source: map<string, string>)
    requires keys <= source.Keys && key in source && ProperSource(source)
    requires forall k | k in keys && References(segments, k) > 0 ::
      Contains(source[k], Placeholder(key)) ==> source[key] == Placeholder(key)
    ensures Filling(Filling(segments, keys, source), {key}, source) == Filling(segments, keys + {key}, source)
  {
    hide Proper, ProperSource, Contains, Placeholder, BraceFree;
    if segments == [] {
    } else {
      var head, tail := segments[0], segments[1..];
      FillingMore(tail, keys, key, source);
      FillingConcat(Fill(head, keys, source), Filling(tail, keys, source), {key}, source);
      FillMore(head, keys, key, source);
    }
  }

  lemma FillMore(head: Segment, keys: set<string>, key: string, source: map<string, string>)
    requires keys <= source.Keys && key in source && ProperSource(source)
    requires head.Reference? && head.key in keys && Contains(source[head.key], Placeholder(key)) ==>
      source[key] == Placeholder(key)
    ensures Filling(Fill(head, keys, source), {key}, source) == Fill(head, keys + {key}, source)
  {
    hide Proper, ProperSource, Contains, Placeholder, BraceFree;
    if head.Reference? && head.key in keys && source[head.key] != Placeholder(head.key) {
      KeyFacts(key, source);
      KeyFacts(head.key, source);
      ContainsIffReferred(Parts(source[head.key]), key);
      FillingNothing(Parts(source[head.key]), key, source);
    } else {
      assert [head][1..] == [];
      assert Filling([head], {key}, source) == Fill(head, {key}, source) + [];
    }
  }

  /** On a settled template, in any order: the references to the keys met so far are filled. */
  lemma {:induction false} KeysFilled(segments: seq<Segment>, order: seq<string>, source: map<string, string>)
    requires Proper(segments) && ProperSource(source) && Settled(Texts(segments), source)
    requires forall k :: k in order ==> k in source
    ensures Render(Texts(segments), order, source) == Some(Texts(Filling(segments, Elements(order), source)))
  {
    hide Texts, Filling, Proper, ProperSource, Placeholder, BraceFree, Outcome, Settled, Feeds;
    if order == [] {
      FillingNone(segments, source);
      assert Elements([]) == {};
    } else {
      var init, key := order[..|order| - 1], order[|order| - 1];
      KeysFilled(segments, init, source);
      var filled := Filling(segments, Elements(init), source);
      FillingProper(segments, Elements(init), source);
      SettledKey(segments, Elements(init), key, source);
      OneKeyFilled(filled, key, source);
      FillingMore(segments, Elements(init), key, source);
      assert order == init + [key];
      assert Elements(order) == Elements(init) + {key};
    }
  }

  /** What settledness says at one point of the run. */
  lemma SettledKey(segments: seq<Segment>, keys: set<string>, key: string, source: map<string, string>)
    requires Proper(segments) && ProperSource(source) && Settled(Texts(segments), source)
    requires keys <= source.Keys && key in source
    ensures forall k | k in keys && References(segments, k) > 0 ::
      Contains(source[k], Placeholder(key)) ==> source[key] == Placeholder(key)
    ensures References(Filling(segments, keys, source), key) == 0 || !Feeds(key, source)
  {
    KeyFacts(key, source);
    forall k | k in keys ensures References(segments, k) > 0 <==> Contains(Texts(segments), Placeholder(k)) {
      KeyFacts(k, source);
      ContainsIffReferred(segments, k);
    }
    hide Proper, ProperSource, Placeholder, BraceFree, Filling, Contains, Texts;
    ContainsIffReferred(segments, key);
    if References(Filling(segments, keys, source), key) > 0 {
      FilledReferences(segments, keys, source, key);
    }
  }

  lemma {:induction false} SubstituteSkips(x: string, c: string, source: map<string, string>)
    requires forall k, j: nat | k in source && j < |x| :: !At(x + c, Placeholder(k), j)
    ensures Substitute(x + c, source) == x + Substitute(c, source)
  {
    hide Placeholder, At, Substitute;
    if x == "" {
      assert x + c == c;
    } else {
      var s := x + c;
      assert s[1..] == x[1..] + c;
      forall k | k in source ensures !(Placeholder(k) <= s) {
        AtStart(s, Placeholder(k));
      }
      forall k, j: nat | k in source && j < |x[1..]| ensures !At(x[1..] + c, Placeholder(k), j) {
        AtTail(s, Placeholder(k), j);
      }
      SubstituteSkips(x[1..], c, source);
      SubstituteCopies(s, source);
      assert [s[0]] + (x[1..] + Substitute(c, source)) == x + Substitute(c, source);
    }
  }

  lemma SubstituteCopies(s: string, source: map<string, string>)
    requires s != "" && forall k | k in source :: !(Placeholder(k) <= s)
    ensures Substitute(s, source) == [s[0]] + Substitute(s[1..], source)
  {
    hide Placeholder;
  }

  lemma AtStart(s: string, t: string)
    ensures At(s, t, 0) == (t <= s)
  {
    assert s[0..] == s;
  }

  lemma AtTail(s: string, t: string, j: nat)
    requires s != ""
    ensures At(s, t, j + 1) == At(s[1..], t, j)
  {
    if j < |s| { assert s[j + 1..] == s[1..][j..]; }
  }

  lemma SubstituteReference(key: string, c: string, source: map<string, string>)
    requires (forall k | k in source :: BraceFree(k)) && key in source
    ensures Substitute(Placeholder(key) + c, source) == source[key] + Substitute(c, source)
  {
    PlaceholderChars(key);
    hide Placeholder, BraceFree;
    var s := Placeholder(key) + c;
    assert Placeholder(key) <= s && s[|Placeholder(key)|..] == c;
    forall k | k in source && k != key ensures !(Placeholder(k) <= s) {
      var i := PlaceholdersPart(k, key, c);
    }
  }

  lemma SubstituteNothing(source: map<string, string>)
    ensures Substitute("", source) == ""
  {
  }

  lemma FillText(head: Segment, source: map<string, string>)
    requires ProperSource(source)
    ensures Texts(Fill(head, source.Keys, source)) ==
            if head.Reference? && head.key in source then source[head.key] else Text(head)
  {
    hide Placeholder, Texts, ProperSource;
    TextsOne(head);
  }

  /** Filling all references at once is the simultaneous substitution. */
  lemma {:induction false} SubstituteTexts(segments: seq<Segment>, source: map<string, string>)
    requires Proper(segments) && ProperSource(source)
    ensures Substitute(Texts(segments), source) == Texts(Filling(segments, source.Keys, source))
  {
    forall k | k in source ensures BraceFree(k) { KeyFacts(k, source); }
    hide Placeholder, BraceFree, Substitute, At, Proper, ProperSource, Fill, Texts;
    if segments == [] {
      TextsNone();
      SubstituteNothing(source);
    } else {
      var head, tail := segments[0], segments[1..];
      ProperTail(segments);
      SubstituteTexts(tail, source);
      TextsStep(segments);
      FillText(head, source);
      TextsConcat(Fill(head, source.Keys, source), Filling(tail, source.Keys, source));
      if head.Reference? && head.key in source {
        SubstituteReference(head.key, Texts(tail), source);
      } else {
        forall k, j: nat | k in source && j < |Text(head)| ensures !At(Text(head) + Texts(tail), Placeholder(k), j) {
          NoMatchInSegment(head, Texts(tail), k, j);
        }
        SubstituteSkips(Text(head), Texts(tail), source);
      }
    }
  }

  lemma SomeOrder(source: map<string, string>) returns (order: seq<string>)
    ensures IsOrder(order, source)
  {
    order := [];
    var left := source.Keys;
    while left != {}
      invariant Walking(source, order, left)
    {
      var key :| key in left;
      WalkingStep(source, order, left, key);
      order, left := order + [key], left - {key};
    }
    WalkingFacts(source, order, left);
  }

  lemma OrderedRendering(segments: seq<Segment>, order: seq<string>, source: map<string, string>)
    requires Proper(segments) && ProperSource(source) && Settled(Texts(segments), source) && IsOrder(order, source)
    ensures Render(Texts(segments), order, source) == Some(Substitute(Texts(segments), source))
  {
    hide Render, Proper, Texts, ProperSource, Substitute, Filling, Settled;
    SubstituteTexts(segments, source);
    KeysFilled(segments, order, source);
    assert Elements(order) == source.Keys;
  }

  /** A settled template is always rendered, in every order to the simultaneous substitution and nothing else. */
  lemma SettledTemplateRendering(text: string, source: map<string, string>, r: string)
    requires ProperTemplate(text) && ProperSource(source) && Settled(text, source)
    ensures AlwaysReturns(text, source)
    ensures IsRendering(text, source, r) <==> r == Substitute(text, source)
  {
    hide Proper, Texts, ProperSource, Substitute, Filling, Outcome, Settled;
    var segments := Parts(text);
    forall order | OrderedPart(order, source) ensures Render(text, order, source).Some? {
      KeysFilled(segments, order, source);
    }
    assert AlwaysReturns(text, source);
    var order := SomeOrder(source);
    OrderedRendering(segments, order, source);
    assert IsRendering(text, source, Substitute(text, source));
    if IsRendering(text, source, r) {
      var other :| IsOrder(other, source) && Render(text, other, source) == Some(r);
      OrderedRendering(segments, other, source);
    }
  }

  // What survives a call.

  /** A reference to another key survives `replaceAll`. */
  lemma {:induction false} KeepsReference(segments: seq<Segment>, key: string, source: map<string, string>, other: string,
                                          n: nat) returns (after: seq<Segment>)
    requires Proper(segments) && ProperSource(source) && key in source && other != key
    requires References(segments, other) > 0 && Stops(Texts(segments), Placeholder(key), source[key], n)
    ensures Proper(after) && References(after, other) > 0
    ensures Texts(after) == After(Texts(segments), Placeholder(key), source[key], n)
    decreases n
  {
    hide Step, Placeholder, Proper, ProperTemplate, ProperSource, BraceFree, Texts, References, FillFirst, Parts;
    KeyFacts(key, source);
    var s, p, v := Texts(segments), Placeholder(key), source[key];
    var next := FillFirst(segments, key, Parts(v));
    StepTemplate(segments, key, Parts(v));
    FillFirstReferences(segments, key, Parts(v), other);
    FillFirstProper(segments, key, Parts(v));
    if Step(s, p, v) == s {
      after := segments;
    } else {
      after := KeepsReference(next, key, source, other, n - 1);
    }
  }

  /** A reference in the value of a key that is filled in appears, and survives. */
  lemma GainsReference(segments: seq<Segment>, key: string, source: map<string, string>, other: string)
    returns (after: seq<Segment>)
    requires Proper(segments) && ProperSource(source) && key in source && other != key && BraceFree(other)
    requires References(segments, key) > 0 && Contains(source[key], Placeholder(other))
    requires Halts(Texts(segments), Placeholder(key), source[key])
    ensures Proper(after) && References(after, other) > 0
    ensures Some(Texts(after)) == Outcome(Texts(segments), Placeholder(key), source[key])
  {
    hide Step, Placeholder, Proper, ProperTemplate, ProperSource, BraceFree, Texts, References, FillFirst, Parts, Outcome,
         Contains, Stops, After;
    KeyFacts(key, source);
    var s, p, v := Texts(segments), Placeholder(key), source[key];
    var next := FillFirst(segments, key, Parts(v));
    StepTemplate(segments, key, Parts(v));
    FillFirstReferences(segments, key, Parts(v), other);
    FillFirstProper(segments, key, Parts(v));
    ContainsIffReferred(Parts(v), other);
    OutcomeStep(s, p, v);
    if Texts(next) == s {
      after := next;
    } else {
      HaltsNext(s, p, v);
      var n: nat :| Stops(Texts(next), p, v, n);
      after := KeepsReference(next, key, source, other, n);
      OutcomeIs(Texts(next), p, v, n);
    }
  }

  lemma HaltsNext(s: string, target: string, replacement: string)
    requires Halts(s, target, replacement)
    ensures Halts(Step(s, target, replacement), target, replacement)
  {
    hide Step;
    var n: nat :| Stops(s, target, replacement, n);
    var next := Step(s, target, replacement);
    if next == s {
      assert Stops(next, target, replacement, n);
    } else {
      assert Stops(next, target, replacement, n - 1);
    }
  }

  lemma StillRefers(segments: seq<Segment>, key: string, source: map<string, string>, other: string)
    returns (after: seq<Segment>)
    requires Proper(segments) && ProperSource(source) && key in source && other != key
    requires References(segments, other) > 0 && Halts(Texts(segments), Placeholder(key), source[key])
    ensures Proper(after) && References(after, other) > 0
    ensures Some(Texts(after)) == Outcome(Texts(segments), Placeholder(key), source[key])
  {
    hide Placeholder, Proper, ProperSource, Texts, References, Outcome, Stops, After;
    var n: nat :| Stops(Texts(segments), Placeholder(key), source[key], n);
    after := KeepsReference(segments, key, source, other, n);
    OutcomeIs(Texts(segments), Placeholder(key), source[key], n);
  }

  /** The keys before it leave a reference alone. */
  lemma {:induction false} RunKeepsReference(segments: seq<Segment>, order: seq<string>, source: map<string, string>,
                                             other: string) returns (after: seq<Segment>)
    requires Proper(segments) && ProperSource(source) && References(segments, other) > 0
    requires (forall k :: k in order ==> k in source) && other !in order
    requires Render(Texts(segments), order, source).Some?
    ensures Proper(after) && References(after, other) > 0
    ensures Render(Texts(segments), order, source) == Some(Texts(after))
  {
    hide Placeholder, Proper, ProperSource, Texts, References, Outcome, Stops, After;
    if order == [] {
      after := segments;
    } else {
      var init, key := order[..|order| - 1], order[|order| - 1];
      var middle := RunKeepsReference(segments, init, source, other);
      OutcomeHalts(Texts(middle), Placeholder(key), source[key]);
      after := StillRefers(middle, key, source, other);
    }
  }
}
