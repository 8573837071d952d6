/** `applyTemplate`: placeholders replaced one key at a time, in whatever order the source map is walked. */
module Template {
  import opened Strings
  import opened Rewriting

  const OPENING := "{{ .Data."
  const CLOSING := " }}"

  function Placeholder(key: string): string {
    OPENING + key + CLOSING
  }

  lemma PlaceholderText(key: string)
    ensures Placeholder(key) == "{{ .Data." + key + " }}"
  {
  }

  /** The inner loop: one `replaceAll` for each key of `order`; None if one of them never returns. */
  ghost function Render(text: string, order: seq<string>, source: map<string, string>): Option<string>
    requires forall k :: k in order ==> k in source
  {
    if order == [] then Some(text)
    else
      var key := order[|order| - 1];
      var before := Render(text, order[..|order| - 1], source);
      if before.None? then None else Outcome(before.value, Placeholder(key), source[key])
  }

  /** Every call of `replaceAll` returns, in whatever order the keys come. */
  ghost predicate AlwaysReturns(text: string, source: map<string, string>) {
    forall order | OrderedPart(order, source) :: Render(text, order, source).Some?
  }

  ghost predicate OrderedPart(order: seq<string>, source: map<string, string>) {
    && (forall k :: k in order ==> k in source)
    && forall i, j | 0 <= i < j < |order| :: order[i] != order[j]
  }

  /** `r` is what some order of the keys makes of `text`. */
  ghost predicate IsRendering(text: string, source: map<string, string>, r: string) {
    exists order :: IsOrder(order, source) && Render(text, order, source) == Some(r)
  }

  ghost predicate AllReturn(templates: map<string, string>, source: map<string, string>) {
    forall key | key in templates :: AlwaysReturns(templates[key], source)
  }

  lemma RenderNext(text: string, order: seq<string>, key: string, source: map<string, string>, value: string)
    requires forall k :: k in order ==> k in source
    requires key in source && Render(text, order, source) == Some(value)
    ensures Render(text, order + [key], source) == Outcome(value, Placeholder(key), source[key])
  {
    hide Outcome, Placeholder;
    assert (order + [key])[..|order|] == order;
  }

  lemma RenderReturns(text: string, order: seq<string>, source: map<string, string>)
    requires AlwaysReturns(text, source) && OrderedPart(order, source)
    ensures Render(text, order, source).Some?
  {
  }

  lemma OutcomeHalts(s: string, target: string, replacement: string)
    ensures Outcome(s, target, replacement).Some? ==> Halts(s, target, replacement)
  {
  }

  method RenderTemplate(text: string, source: map<string, string>) returns (value: string)
    requires AlwaysReturns(text, source)
    ensures IsRendering(text, source, value)
  {
    hide Outcome, Placeholder, AlwaysReturns, Render, Halts;
    value := text;
    ghost var order: seq<string> := [];
    assert Render(text, order, source) == Some(text) by { RenderNone(text, source); }
    var left := source.Keys;
    while left != {}
      invariant Walking(source, order, left)
      invariant (forall k :: k in order ==> k in source) && Render(text, order, source) == Some(value)
    {
      var key :| key in left;
      WalkingStep(source, order, left, key);
      WalkingFacts(source, order + [key], left - {key});
      assert OrderedPart(order + [key], source);
      RenderReturns(text, order + [key], source);
      RenderNext(text, order, key, source, value);
      OutcomeHalts(value, Placeholder(key), source[key]);
      value := RewriteAll(value, Placeholder(key), source[key]);
      order, left := order + [key], left - {key};
    }
    WalkingFacts(source, order, left);
  }

  lemma RenderNone(text: string, source: map<string, string>)
    ensures Render(text, [], source) == Some(text)
  {
  }

  /** What the templates make of `start`: their own keys rendered, every other key as it was. */
  ghost predicate Filled(start: map<string, string>, templates: map<string, string>, done: set<string>,
                         source: map<string, string>, result: map<string, string>)
  {
    && done <= templates.Keys
    && result.Keys == start.Keys + done
    && forall key | key in result ::
      if key in done then IsRendering(templates[key], source, result[key])
      else key in start && result[key] == start[key]
  }

  /** The loop over one of the template maps. */
  method RenderInto(start: map<string, string>, templates: map<string, string>, source: map<string, string>)
    returns (result: map<string, string>)
    requires AllReturn(templates, source)
    ensures Filled(start, templates, templates.Keys, source, result)
  {
    hide IsRendering, AlwaysReturns;
    result := start;
    var left := templates.Keys;
    while left != {}
      invariant left <= templates.Keys
      invariant Filled(start, templates, templates.Keys - left, source, result)
    {
      var key :| key in left;
      var value := RenderTemplate(templates[key], source);
      result := result[key := value];
      left := left - {key};
    }
    assert templates.Keys - left == templates.Keys;
  }

  /** Data templates win over StringData templates, and these over the input data. */
  ghost predicate Applied(data: map<string, string>, stringData: map<string, string>,
                          dataTemplates: map<string, string>, source: map<string, string>, result: map<string, string>)
  {
    && result.Keys == data.Keys + stringData.Keys + dataTemplates.Keys
    && forall key | key in result ::
      if key in dataTemplates then IsRendering(dataTemplates[key], source, result[key])
      else if key in stringData then IsRendering(stringData[key], source, result[key])
      else key in data && result[key] == data[key]
  }

  /** `applyTemplate`: the input data, over it the StringData templates, over both the Data templates. */
  method ApplyTemplate(data: map<string, string>, stringData: map<string, string>, dataTemplates: map<string, string>,
                       source: map<string, string>)
    returns (result: map<string, string>)
    requires AllReturn(stringData, source) && AllReturn(dataTemplates, source)
    ensures Applied(data, stringData, dataTemplates, source, result)
  {
    hide IsRendering, AllReturn;
    result := map[];
    var left := data.Keys;
    while left != {}
      invariant left <= data.Keys
      invariant result == map k | k in data && k !in left :: data[k]
    {
      var key :| key in left;
      result := result[key := data[key]];
      left := left - {key};
    }
    assert result == data;
    result := RenderInto(result, stringData, source);
    result := RenderInto(result, dataTemplates, source);
  }
}
