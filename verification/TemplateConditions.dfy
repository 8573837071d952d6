/**
 * Exactly when `applyTemplate` returns on a template, and exactly when its result does not depend on the order in
 * which the source map is walked.
 */
module TemplateConditions {
  import opened Strings
  import opened Rewriting
  import opened Template
  import opened Substitution
  import opened TemplateMeaning

  ghost predicate OneRendering(text: string, source: map<string, string>) {
    forall r, r' | IsRendering(text, source, r) && IsRendering(text, source, r') :: r == r'
  }

  // A key that feeds itself.

  /** One call with the placeholder of such a key never returns on a text that has it. */
  lemma FeedingNeverReturns(text: string, key: string, source: map<string, string>)
    requires key in source && Feeds(key, source) && Contains(text, Placeholder(key))
    ensures Outcome(text, Placeholder(key), source[key]) == None
  {
    hide Placeholder, Contains, Stops;
    forall n: nat ensures !Stops(text, Placeholder(key), source[key], n) {
      SelfFeedingNeverHalts(text, Placeholder(key), source[key], n);
    }
  }

  /** So the loop over the keys does not always return either, whatever the text and the other values. */
  lemma SelfReferenceNeverReturns(text: string, key: string, source: map<string, string>)
    requires key in source && Feeds(key, source) && Contains(text, Placeholder(key))
    ensures !AlwaysReturns(text, source)
  {
    hide Placeholder, Contains, Outcome, Feeds;
    FeedingNeverReturns(text, key, source);
    RenderNone(text, source);
    RenderNext(text, [], key, source, text);
    assert [] + [key] == [key];
    assert OrderedPart([key], source);
  }

  // Two keys, one in the value of the other.

  function Without(source: map<string, string>, k: string, j: string): map<string, string> {
    map x | x in source && x != k && x != j :: source[x]
  }

  lemma LastTwo(others: seq<string>, k: string, j: string, source: map<string, string>)
    requires k in source && j in source && k != j && IsOrder(others, Without(source, k, j))
    ensures IsOrder(others + [k] + [j], source) && OrderedPart(others + [k], source) && OrderedPart(others, source)
    ensures OrderedPart(others + [k] + [j], source) && k !in others && j !in others
  {
    assert k !in others && j !in others;
    OneMore(others, k, source);
    OneMore(others + [k], j, source);
    var order := others + [k] + [j];
    assert forall x :: x in order <==> x in others || x == k || x == j;
  }

  lemma OneMore(order: seq<string>, k: string, source: map<string, string>)
    requires OrderedPart(order, source) && k in source && k !in order
    ensures OrderedPart(order + [k], source)
  {
  }

  /** With the other key last nothing of its placeholder is left. */
  lemma LastKeyGone(text: string, order: seq<string>, j: string, source: map<string, string>, r: string)
    requires (forall k :: k in order ==> k in source) && j in source && source[j] != Placeholder(j)
    requires Render(text, order + [j], source) == Some(r)
    ensures !Contains(r, Placeholder(j))
  {
    hide Outcome, Placeholder, Contains;
    assert (order + [j])[..|order|] == order;
    var before := Render(text, order, source).value;
    OutcomeHalts(before, Placeholder(j), source[j]);
    var n: nat :| Stops(before, Placeholder(j), source[j], n);
    OutcomeIs(before, Placeholder(j), source[j], n);
    NothingLeft(before, Placeholder(j), source[j], n);
  }

  /** With the other key before it, the placeholder in the value is left. */
  lemma LastKeyBringsOther(text: string, others: seq<string>, k: string, j: string, source: map<string, string>)
    returns (r: string)
    requires ProperTemplate(text) && ProperSource(source) && AlwaysReturns(text, source)
    requires k in source && j in source && k != j
    requires Contains(text, Placeholder(k)) && Contains(source[k], Placeholder(j))
    requires IsOrder(others, Without(source, k, j))
    ensures (forall x :: x in others + [j] + [k] ==> x in source)
    ensures Render(text, others + [j] + [k], source) == Some(r) && Contains(r, Placeholder(j))
  {
    KeyFacts(k, source);
    KeyFacts(j, source);
    LastTwo(others, j, k, source);
    hide Outcome, Placeholder, Contains, Proper, ProperTemplate, ProperSource, BraceFree, Parts, References, Texts, Without,
         IsOrder, AlwaysReturns, Render;
    var segments := Parts(text);
    ContainsIffReferred(segments, k);
    RenderReturns(text, others, source);
    var a := RunKeepsReference(segments, others, source, k);
    RenderReturns(text, others + [j], source);
    RenderNext(text, others, j, source, Texts(a));
    OutcomeHalts(Texts(a), Placeholder(j), source[j]);
    var b := StillRefers(a, j, source, k);
    RenderReturns(text, others + [j] + [k], source);
    RenderNext(text, others + [j], k, source, Texts(b));
    OutcomeHalts(Texts(b), Placeholder(k), source[k]);
    var c := GainsReference(b, k, source, j);
    ContainsIffReferred(c, j);
    r := Texts(c);
  }

  /** Then the two orders give different results. */
  lemma UnsettledDiffers(text: string, k: string, j: string, source: map<string, string>)
    requires ProperTemplate(text) && ProperSource(source) && AlwaysReturns(text, source)
    requires k in source && j in source && k != j && source[j] != Placeholder(j)
    requires Contains(text, Placeholder(k)) && Contains(source[k], Placeholder(j))
    ensures !OneRendering(text, source)
  {
    hide Outcome, Placeholder, Contains, ProperTemplate, ProperSource, AlwaysReturns, Render;
    var others := SomeOrder(Without(source, k, j));
    LastTwo(others, k, j, source);
    assert Without(source, k, j) == Without(source, j, k);
    LastTwo(others, j, k, source);
    hide IsOrder;
    RenderReturns(text, others + [k] + [j], source);
    var r := Render(text, others + [k] + [j], source).value;
    LastKeyGone(text, others + [k], j, source, r);
    var r' := LastKeyBringsOther(text, others, k, j, source);
    assert IsRendering(text, source, r) && IsRendering(text, source, r');
  }

  /**
   * The exact condition under which a template is rendered, in every order of the keys, and always to the same text:
   * no value that is filled in holds a placeholder that another turn would replace by something else.
   */
  lemma SettledIff(text: string, source: map<string, string>)
    requires ProperTemplate(text) && ProperSource(source)
    ensures AlwaysReturns(text, source) && OneRendering(text, source) <==> Settled(text, source)
  {
    hide Placeholder, Contains, ProperTemplate, ProperSource, AlwaysReturns, IsRendering, Substitute;
    if Settled(text, source) {
      SettledTemplateRendering(text, source, text);
      forall r ensures IsRendering(text, source, r) <==> r == Substitute(text, source) {
        SettledTemplateRendering(text, source, r);
      }
    } else if AlwaysReturns(text, source) {
      var k, j :| k in source && j in source && Contains(text, Placeholder(k)) && Contains(source[k], Placeholder(j)) &&
                  source[j] != Placeholder(j);
      if k == j {
        SelfReferenceNeverReturns(text, k, source);
      } else {
        UnsettledDiffers(text, k, j, source);
      }
    }
  }

  /** The same for all templates at once: a condition on the source map alone. */
  lemma AllTemplatesIff(source: map<string, string>)
    requires ProperSource(source)
    ensures (forall text | ProperTemplate(text) :: AlwaysReturns(text, source) && OneRendering(text, source)) <==>
            forall k, j | k in source && j in source && Contains(source[k], Placeholder(j)) :: source[j] == Placeholder(j)
  {
    hide Placeholder, Contains, ProperTemplate, AlwaysReturns, OneRendering, BraceFree;
    forall text | ProperTemplate(text)
      ensures AlwaysReturns(text, source) && OneRendering(text, source) <==> Settled(text, source)
    {
      SettledIff(text, source);
    }
    forall k | k in source ensures ProperTemplate(Placeholder(k)) && Contains(Placeholder(k), Placeholder(k)) {
      PlaceholderIsTemplate(k);
    }
  }

  lemma PlaceholderIsTemplate(key: string)
    requires BraceFree(key)
    ensures ProperTemplate(Placeholder(key)) && Contains(Placeholder(key), Placeholder(key))
  {
    hide Placeholder;
    TextsOne(Reference(key));
    assert Proper([Reference(key)]);
    assert Placeholder(key)[0..] == Placeholder(key);
    assert At(Placeholder(key), Placeholder(key), 0);
  }

  // When the loop over the keys returns at all.

  /** Different keys, each but the first in the value of the one before, the first in the text. */
  ghost predicate Leads(text: string, path: seq<string>, source: map<string, string>) {
    && path != [] && OrderedPart(path, source)
    && Contains(text, Placeholder(path[0]))
    && forall i | 0 < i < |path| :: Contains(source[path[i - 1]], Placeholder(path[i]))
  }

  lemma PathStart(text: string, path: seq<string>, source: map<string, string>)
    requires Leads(text, path, source)
    ensures path[0] in source && Contains(text, Placeholder(path[0])) && OrderedPart([], source) && path[..0] == []
  {
    hide Contains, Placeholder;
    assert path[0] in path;
  }

  lemma PathStep(text: string, path: seq<string>, source: map<string, string>, i: nat)
    requires Leads(text, path, source) && 0 < i < |path|
    ensures path[i - 1] in source && path[i] in source && path[i - 1] != path[i]
    ensures Contains(source[path[i - 1]], Placeholder(path[i]))
    ensures OrderedPart(path[..i], source) && path[..i] == path[..i - 1] + [path[i - 1]]
  {
    hide Contains, Placeholder;
    assert path[i - 1] in path && path[i] in path;
    assert forall k :: k in path[..i] ==> k in path;
  }

  /** Walking the keys in the order of such a path, the reference to the next one is there when its turn comes. */
  lemma {:induction false} PathRun(text: string, path: seq<string>, source: map<string, string>, i: nat)
    returns (segments: seq<Segment>)
    requires ProperTemplate(text) && ProperSource(source) && AlwaysReturns(text, source)
    requires Leads(text, path, source) && i < |path|
    ensures OrderedPart(path[..i], source) && (forall k :: k in path[..i] ==> k in source)
    ensures Render(text, path[..i], source) == Some(Texts(segments))
    ensures Proper(segments) && References(segments, path[i]) > 0
  {
    hide Outcome, Placeholder, Contains, Proper, ProperTemplate, ProperSource, BraceFree, Parts, References, Texts,
         AlwaysReturns, Render, Leads, OrderedPart;
    if i == 0 {
      segments := Parts(text);
      PathStart(text, path, source);
      KeyFacts(path[0], source);
      RenderNone(text, source);
      ContainsIffReferred(segments, path[0]);
    } else {
      var key := path[i - 1];
      PathStep(text, path, source, i);
      KeyFacts(path[i], source);
      var before := PathRun(text, path, source, i - 1);
      RenderReturns(text, path[..i], source);
      OrderedKeys(path[..i - 1], source);
      RenderNext(text, path[..i - 1], key, source, Texts(before));
      OutcomeHalts(Texts(before), Placeholder(key), source[key]);
      segments := GainsReference(before, key, source, path[i]);
    }
  }

  lemma OrderedKeys(order: seq<string>, source: map<string, string>)
    requires OrderedPart(order, source)
    ensures forall k :: k in order ==> k in source
  {
  }

  /** So no path may end in a key that feeds itself. */
  lemma PathToFeeding(text: string, path: seq<string>, source: map<string, string>)
    requires ProperTemplate(text) && ProperSource(source) && Leads(text, path, source)
    requires Feeds(path[|path| - 1], source)
    ensures !AlwaysReturns(text, source)
  {
    hide Outcome, Placeholder, Contains, Proper, ProperTemplate, ProperSource, BraceFree, References, Texts,
         AlwaysReturns, Render, Feeds;
    if AlwaysReturns(text, source) {
      var n := |path| - 1;
      var key := path[n];
      var segments := PathRun(text, path, source, n);
      KeyFacts(key, source);
      ContainsIffReferred(segments, key);
      FeedingNeverReturns(Texts(segments), key, source);
      assert path[..n] + [key] == path;
      RenderNext(text, path[..n], key, source, Texts(segments));
      RenderReturns(text, path, source);
      assert false;
    }
  }

  /** A path to `key` through keys of `order` only. */
  ghost predicate Reached(text: string, order: seq<string>, key: string, source: map<string, string>) {
    exists path :: (forall k :: k in path ==> k in order) && Leads(text, path + [key], source)
  }

  /** What the references left after a run come from. */
  ghost predicate AllReached(text: string, segments: seq<Segment>, order: seq<string>, source: map<string, string>) {
    forall k | k in source && k !in order && References(segments, k) > 0 :: Reached(text, order, k, source)
  }

  lemma ReachedAtStart(text: string, segments: seq<Segment>, source: map<string, string>)
    requires Proper(segments) && Texts(segments) == text && ProperSource(source)
    ensures AllReached(text, segments, [], source)
  {
    forall k | k in source && References(segments, k) > 0 ensures Reached(text, [], k, source) {
      KeyFacts(k, source);
      ContainsIffReferred(segments, k);
      assert [] + [k] == [k];
      assert Leads(text, [] + [k], source);
    }
  }

  lemma LeadsOn(text: string, path: seq<string>, key: string, next: string, source: map<string, string>)
    requires Leads(text, path + [key], source) && next in source && next !in path && next != key
    requires Contains(source[key], Placeholder(next))
    ensures Leads(text, path + [key] + [next], source)
  {
    hide Contains, Placeholder;
    var longer := path + [key];
    OneMore(longer, next, source);
    assert longer[|longer| - 1] == key;
  }

  lemma ReachedNext(text: string, segments: seq<Segment>, init: seq<string>, key: string, source: map<string, string>)
    requires Proper(segments) && ProperSource(source) && key in source && key !in init
    requires AllReached(text, segments, init, source)
    ensures AllReached(text, Filling(segments, {key}, source), init + [key], source)
  {
    hide Contains, Placeholder, Proper, BraceFree, Leads, Filling;
    forall k | k in source && k !in init + [key] && References(Filling(segments, {key}, source), k) > 0
      ensures Reached(text, init + [key], k, source)
    {
      KeyFacts(k, source);
      hide ProperSource, References;
      FilledReferences(segments, {key}, source, k);
      if References(segments, k) > 0 {
        var path :| (forall x :: x in path ==> x in init) && Leads(text, path + [k], source);
        assert forall x :: x in path ==> x in init + [key];
      } else {
        var path :| (forall x :: x in path ==> x in init) && Leads(text, path + [key], source);
        LeadsOn(text, path, key, k, source);
        assert forall x :: x in path + [key] ==> x in init + [key];
      }
    }
  }

  /** If no path ends in a key that feeds itself, every order of the keys is walked to its end. */
  lemma {:induction false} RunReturns(text: string, order: seq<string>, source: map<string, string>)
    returns (segments: seq<Segment>)
    requires ProperTemplate(text) && ProperSource(source) && OrderedPart(order, source)
    requires forall path | Leads(text, path, source) :: !Feeds(path[|path| - 1], source)
    ensures Proper(segments) && Render(text, order, source) == Some(Texts(segments))
    ensures AllReached(text, segments, order, source)
  {
    hide Outcome, Placeholder, Contains, Proper, ProperTemplate, ProperSource, BraceFree, Parts, References, Texts, Render,
         Feeds, Leads, AllReached, Filling;
    if order == [] {
      segments := Parts(text);
      RenderNone(text, source);
      ReachedAtStart(text, segments, source);
    } else {
      var init, key := order[..|order| - 1], order[|order| - 1];
      assert order == init + [key];
      var before := RunReturns(text, init, source);
      NotFeeding(text, before, init, key, source);
      OneKeyFilled(before, key, source);
      RenderNext(text, init, key, source, Texts(before));
      segments := Filling(before, {key}, source);
      FillingProper(before, {key}, source);
      ReachedNext(text, before, init, key, source);
    }
  }

  lemma NotFeeding(text: string, segments: seq<Segment>, init: seq<string>, key: string, source: map<string, string>)
    requires AllReached(text, segments, init, source) && key in source && key !in init
    requires forall path | Leads(text, path, source) :: !Feeds(path[|path| - 1], source)
    ensures References(segments, key) == 0 || !Feeds(key, source)
  {
    hide Feeds;
    if References(segments, key) > 0 {
      var path :| (forall x :: x in path ==> x in init) && Leads(text, path + [key], source);
      assert (path + [key])[|path|] == key;
    }
  }

  /**
   * The exact condition under which a template is rendered at all, in every order of the keys: no chain of
   * references that starts in the template ends in a key whose value feeds it.
   */
  lemma AlwaysReturnsIff(text: string, source: map<string, string>)
    requires ProperTemplate(text) && ProperSource(source)
    ensures AlwaysReturns(text, source) <==>
            forall path | Leads(text, path, source) :: !Feeds(path[|path| - 1], source)
  {
    hide ProperTemplate, ProperSource, Feeds, Proper, Texts, AllReached, Outcome, Contains, Placeholder;
    if path :| Leads(text, path, source) && Feeds(path[|path| - 1], source) {
      PathToFeeding(text, path, source);
    } else {
      forall order | OrderedPart(order, source) ensures Render(text, order, source).Some? {
        var segments := RunReturns(text, order, source);
      }
    }
  }

  // The whole call.

  ghost predicate ProperTemplates(templates: map<string, string>) {
    forall key | key in templates :: ProperTemplate(templates[key])
  }

  ghost predicate OneResult(data: map<string, string>, stringData: map<string, string>,
                            dataTemplates: map<string, string>, source: map<string, string>)
  {
    forall r, r' | Applied(data, stringData, dataTemplates, source, r) && Applied(data, stringData, dataTemplates, source, r')
      :: r == r'
  }

  /** The template that decides the value of a key. */
  function Deciding(stringData: map<string, string>, dataTemplates: map<string, string>): map<string, string> {
    stringData + dataTemplates
  }

  lemma DecidingAt(stringData: map<string, string>, dataTemplates: map<string, string>)
    ensures var deciding := Deciding(stringData, dataTemplates);
      && deciding.Keys == stringData.Keys + dataTemplates.Keys
      && (forall key | key in dataTemplates :: key in deciding && deciding[key] == dataTemplates[key])
      && forall key | key in stringData && key !in dataTemplates :: key in deciding && deciding[key] == stringData[key]
  {
  }

  /** On settled templates the result is the simultaneous substitution, Data over StringData over the input data. */
  lemma ApplyTemplateMeaning(data: map<string, string>, stringData: map<string, string>,
                             dataTemplates: map<string, string>, source: map<string, string>, result: map<string, string>)
    requires ProperTemplates(stringData) && ProperTemplates(dataTemplates) && ProperSource(source)
    requires forall key | key in Deciding(stringData, dataTemplates) ::
      Settled(Deciding(stringData, dataTemplates)[key], source)
    ensures Applied(data, stringData, dataTemplates, source, result) <==>
            result == map key | key in data.Keys + stringData.Keys + dataTemplates.Keys ::
              if key in dataTemplates then Substitute(dataTemplates[key], source)
              else if key in stringData then Substitute(stringData[key], source)
              else data[key]
  {
    hide ProperTemplate, ProperSource, AlwaysReturns, IsRendering, Substitute, Settled;
    DecidingAt(stringData, dataTemplates);
    forall text, r | ProperTemplate(text) && Settled(text, source)
      ensures IsRendering(text, source, r) <==> r == Substitute(text, source)
    {
      SettledTemplateRendering(text, source, r);
    }
  }

  lemma HasRendering(text: string, source: map<string, string>) returns (r: string)
    requires AlwaysReturns(text, source)
    ensures IsRendering(text, source, r)
  {
    var order := SomeOrder(source);
    RenderReturns(text, order, source);
    r := Render(text, order, source).value;
  }

  ghost function SomeRendering(text: string, source: map<string, string>): (r: string)
    requires exists r :: IsRendering(text, source, r)
    ensures IsRendering(text, source, r)
  {
    var r :| IsRendering(text, source, r);
    r
  }

  /** A result in which one key has a rendering of choice. */
  lemma ResultWith(data: map<string, string>, stringData: map<string, string>, dataTemplates: map<string, string>,
                   source: map<string, string>, key: string, r: string) returns (result: map<string, string>)
    requires AllReturn(stringData, source) && AllReturn(dataTemplates, source)
    requires key in Deciding(stringData, dataTemplates)
    requires IsRendering(Deciding(stringData, dataTemplates)[key], source, r)
    ensures Applied(data, stringData, dataTemplates, source, result) && result[key] == r
  {
    hide AlwaysReturns, IsRendering, Applied, Deciding;
    var deciding := Deciding(stringData, dataTemplates);
    DecidingAt(stringData, dataTemplates);
    forall x | x in deciding ensures exists r :: IsRendering(deciding[x], source, r) {
      var r := HasRendering(deciding[x], source);
    }
    var chosen := map x | x in deciding :: if x == key then r else SomeRendering(deciding[x], source);
    ResultApplied(data, stringData, dataTemplates, source, chosen);
    result := data + chosen;
  }

  lemma ResultApplied(data: map<string, string>, stringData: map<string, string>, dataTemplates: map<string, string>,
                      source: map<string, string>, chosen: map<string, string>)
    requires chosen.Keys == Deciding(stringData, dataTemplates).Keys
    requires forall key | key in chosen :: IsRendering(Deciding(stringData, dataTemplates)[key], source, chosen[key])
    ensures Applied(data, stringData, dataTemplates, source, data + chosen)
  {
    hide IsRendering;
    DecidingAt(stringData, dataTemplates);
  }

  /**
   * The exact condition under which `applyTemplate` returns, always with the same result: the templates that decide
   * a value are settled, and those overridden at least return.
   */
  lemma ApplyTemplateIff(data: map<string, string>, stringData: map<string, string>,
                         dataTemplates: map<string, string>, source: map<string, string>)
    requires ProperTemplates(stringData) && ProperTemplates(dataTemplates) && ProperSource(source)
    ensures AllReturn(stringData, source) && AllReturn(dataTemplates, source) &&
            OneResult(data, stringData, dataTemplates, source)
            <==>
            && (forall key | key in dataTemplates :: Settled(dataTemplates[key], source))
            && (forall key | key in stringData ::
                  if key in dataTemplates then AlwaysReturns(stringData[key], source) else Settled(stringData[key], source))
  {
    hide ProperTemplate, ProperSource, AlwaysReturns, IsRendering, Substitute, Settled, Applied;
    var deciding := Deciding(stringData, dataTemplates);
    forall key | key in deciding
      ensures Settled(deciding[key], source) <==> AlwaysReturns(deciding[key], source) && OneRendering(deciding[key], source)
    {
      SettledIff(deciding[key], source);
    }
    if AllReturn(stringData, source) && AllReturn(dataTemplates, source) && OneResult(data, stringData, dataTemplates, source) {
      forall key | key in deciding ensures OneRendering(deciding[key], source) {
        forall r, r' | IsRendering(deciding[key], source, r) && IsRendering(deciding[key], source, r') ensures r == r' {
          var one := ResultWith(data, stringData, dataTemplates, source, key, r);
          var two := ResultWith(data, stringData, dataTemplates, source, key, r');
        }
      }
    } else if forall key | key in deciding :: Settled(deciding[key], source) {
      forall r, r' | Applied(data, stringData, dataTemplates, source, r) && Applied(data, stringData, dataTemplates, source, r')
        ensures r == r'
      {
        ApplyTemplateMeaning(data, stringData, dataTemplates, source, r);
        ApplyTemplateMeaning(data, stringData, dataTemplates, source, r');
      }
    }
  }

  // Inputs that show it.

  lemma NothingToReplace(s: string, target: string, replacement: string)
    requires !Contains(s, target)
    ensures Outcome(s, target, replacement) == Some(s)
  {
    hide Outcome, Step, Contains;
    FixedPoint(s, target, replacement);
    OutcomeStep(s, target, replacement);
  }

  lemma WholeReplaced(target: string, replacement: string)
    requires !Contains(replacement, target)
    ensures Outcome(target, target, replacement) == Some(replacement)
  {
    hide Outcome, Step, Contains;
    StepAtStart(target, "", replacement);
    assert target + "" == target && replacement + "" == replacement;
    OutcomeStep(target, target, replacement);
    NothingToReplace(replacement, target, replacement);
  }

  lemma NoPlaceholderIn(segment: Segment, key: string)
    requires Proper([segment]) && BraceFree(key) && segment != Reference(key)
    ensures !Contains(Text(segment), Placeholder(key))
  {
    PlaceholderChars(key);
    hide Placeholder, Proper, BraceFree, Text;
    var s := Text(segment);
    assert s + "" == s;
    forall j: nat ensures !At(s, Placeholder(key), j) {
      if j < |s| { NoMatchInSegment(segment, "", key, j); }
    }
  }

  lemma RenderTwo(text: string, x: string, y: string, source: map<string, string>, first: string, second: string)
    requires x in source && y in source && x != y
    requires Outcome(text, Placeholder(x), source[x]) == Some(first)
    requires Outcome(first, Placeholder(y), source[y]) == Some(second)
    requires source.Keys == {x, y}
    ensures IsRendering(text, source, second)
  {
    hide Outcome, Placeholder;
    RenderNone(text, source);
    RenderNext(text, [], x, source, text);
    assert [] + [x] == [x];
    RenderNext(text, [x], y, source, first);
    assert [x] + [y] == [x, y];
    assert IsOrder([x, y], source);
  }

  /** A value that is another key's placeholder is expanded or not, depending on the order of the keys. */
  lemma OrderMatters(a: string, b: string, v: string)
    requires BraceFree(a) && BraceFree(b) && Inert(v) && a != b
    ensures var source := map[a := Placeholder(b), b := v];
      IsRendering(Placeholder(a), source, v) && IsRendering(Placeholder(a), source, Placeholder(b))
  {
    hide Outcome, Placeholder, Contains, IsRendering;
    var source := map[a := Placeholder(b), b := v];
    NoPlaceholderIn(Reference(b), a);
    NoPlaceholderIn(Reference(a), b);
    NoPlaceholderIn(Literal(v), b);
    WholeReplaced(Placeholder(a), Placeholder(b));
    WholeReplaced(Placeholder(b), v);
    NothingToReplace(Placeholder(a), Placeholder(b), v);
    RenderTwo(Placeholder(a), a, b, source, Placeholder(b), v);
    RenderTwo(Placeholder(a), b, a, source, Placeholder(a), Placeholder(b));
  }
}
