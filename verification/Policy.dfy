/** Policies, the HCL text `ToHCL` writes for them, and a reader of that text. */
module Policy {
  import opened HclString
  import opened Strings

  datatype Rule = Rule(
    path: string,
    capabilities: seq<string>,
    allowed: map<string, seq<string>>,
    denied: seq<string>,
    required: seq<string>,
    minTTL: string,
    maxTTL: string)

  type Pairs = seq<(string, seq<string>)>

  const PATH := "path \""
  const OPEN := " {\n  capabilities = ["
  const ALLOWED := "  allowed_parameters = {\n"
  const DENIED := "  denied_parameters = {\n"
  const REQUIRED := "  required_parameters = ["
  const MIN_TTL := "  min_wrapping_ttl = \""
  const MAX_TTL := "  max_wrapping_ttl = \""
  const ENTRY := "    \""
  const ASSIGN := " = ["
  const CLOSE := "  }\n"
  const END := "}\n\n"

  // Printing.

  function Closed(s: string): string { Escape(s) + "\"" }

  /** Quoted strings, separated by commas. */
  function List(xs: seq<string>): string {
    if xs == [] then ""
    else if |xs| == 1 then "\"" + Closed(xs[0])
    else "\"" + Closed(xs[0]) + ", " + List(xs[1..])
  }

  function Entry(p: (string, seq<string>)): string {
    ENTRY + Closed(p.0) + ASSIGN + List(p.1) + "]\n"
  }

  function Entries(ps: Pairs): string {
    if ps == [] then "" else Entry(ps[0]) + Entries(ps[1..])
  }

  /** A block of entries, left out altogether when there are none. */
  function Block(header: string, ps: Pairs): string {
    if ps == [] then "" else header + Entries(ps) + CLOSE
  }

  function RequiredLine(xs: seq<string>): string {
    if xs == [] then "" else REQUIRED + List(xs) + "]\n"
  }

  function TtlLine(header: string, ttl: string): string {
    if ttl == "" then "" else header + Closed(ttl) + "\n"
  }

  function AllowedPairs(order: seq<string>, m: map<string, seq<string>>): Pairs
    requires forall k :: k in order ==> k in m
  {
    if order == [] then [] else [(order[0], m[order[0]])] + AllowedPairs(order[1..], m)
  }

  function DeniedPairs(ks: seq<string>): Pairs {
    if ks == [] then [] else [(ks[0], [])] + DeniedPairs(ks[1..])
  }

  function Head(r: Rule): string {
    PATH + Closed(r.path) + OPEN + List(r.capabilities) + "]\n"
  }

  function PrintRule(r: Rule, order: seq<string>): string
    requires IsOrder(order, r.allowed)
  {
    Head(r) + Block(ALLOWED, AllowedPairs(order, r.allowed)) + Block(DENIED, DeniedPairs(r.denied))
    + RequiredLine(r.required) + TtlLine(MIN_TTL, r.minTTL) + TtlLine(MAX_TTL, r.maxTTL) + END
  }

  ghost predicate AreOrders(orders: seq<seq<string>>, rules: seq<Rule>) {
    |orders| == |rules| && forall i | 0 <= i < |rules| :: IsOrder(orders[i], rules[i].allowed)
  }

  function Print(rules: seq<Rule>, orders: seq<seq<string>>): string
    requires AreOrders(orders, rules)
  {
    if rules == [] then "" else PrintRule(rules[0], orders[0]) + Print(rules[1..], orders[1..])
  }

  // Reading.

  /** The rest of `s` after `p`, if `s` starts with `p`. */
  function Expect(s: string, p: string): (r: Option<string>)
    ensures r.Some? ==> |r.value| == |s| - |p|
  {
    if |p| <= |s| && s[..|p|] == p then Some(s[|p|..]) else None
  }

  function ParseItems(s: string): (p: Parsed<seq<string>>)
    ensures p.Done? ==> |p.rest| < |s|
    decreases |s|
  {
    if s == "" || s[0] != '\"' then Fail
    else
      var v := ParseString(s[1..]);
      if v.Fail? then Fail
      else
        var end, more := Expect(v.rest, "]"), Expect(v.rest, ", ");
        if end.Some? then Done([v.value], end.value)
        else if more.Some? then
          var vs := ParseItems(more.value);
          if vs.Fail? then Fail else Done([v.value] + vs.value, vs.rest)
        else Fail
  }

  /** A list up to and including its closing bracket. */
  function ParseList(s: string): (p: Parsed<seq<string>>)
    ensures p.Done? ==> |p.rest| < |s|
  {
    var end := Expect(s, "]");
    if end.Some? then Done([], end.value) else ParseItems(s)
  }

  /** A list, its closing bracket and the line end. */
  function ParseLine(s: string): (p: Parsed<seq<string>>)
    ensures p.Done? ==> |p.rest| < |s|
  {
    var xs := ParseList(s);
    if xs.Fail? then Fail
    else
      var rest := Expect(xs.rest, "\n");
      if rest.None? then Fail else Done(xs.value, rest.value)
  }

  function ParseEntry(s: string): (p: Parsed<(string, seq<string>)>)
    ensures p.Done? ==> |p.rest| < |s|
  {
    var start := Expect(s, ENTRY);
    if start.None? then Fail
    else
      var k := ParseString(start.value);
      if k.Fail? then Fail
      else
        var values := Expect(k.rest, ASSIGN);
        if values.None? then Fail
        else
          var xs := ParseLine(values.value);
          if xs.Fail? then Fail else Done((k.value, xs.value), xs.rest)
  }

  function ParseEntries(s: string): (p: Parsed<Pairs>)
    ensures p.Done? ==> |p.rest| <= |s|
    decreases |s|
  {
    var end := Expect(s, CLOSE);
    if end.Some? then Done([], end.value)
    else
      var e := ParseEntry(s);
      if e.Fail? then Fail
      else
        var es := ParseEntries(e.rest);
        if es.Fail? then Fail else Done([e.value] + es.value, es.rest)
  }

  function ParseBlock(s: string, header: string): (p: Parsed<Pairs>)
    ensures p.Done? ==> |p.rest| <= |s|
  {
    var start := Expect(s, header);
    if start.None? then Done([], s) else ParseEntries(start.value)
  }

  function ParseRequired(s: string): (p: Parsed<seq<string>>)
    ensures p.Done? ==> |p.rest| <= |s|
  {
    var start := Expect(s, REQUIRED);
    if start.None? then Done([], s) else ParseLine(start.value)
  }

  function ParseTtl(s: string, header: string): (p: Parsed<string>)
    ensures p.Done? ==> |p.rest| <= |s|
  {
    var start := Expect(s, header);
    if start.None? then Done("", s)
    else
      var v := ParseString(start.value);
      if v.Fail? then Fail
      else
        var rest := Expect(v.rest, "\n");
        if rest.None? then Fail else Done(v.value, rest.value)
  }

  function ToMap(ps: Pairs): map<string, seq<string>> {
    if ps == [] then map[] else ToMap(ps[1..])[ps[0].0 := ps[0].1]
  }

  function Keys(ps: Pairs): seq<string> {
    if ps == [] then [] else [ps[0].0] + Keys(ps[1..])
  }

  /** The opening of a rule: its path and capabilities. */
  function ParseHead(s: string): (p: Parsed<(string, seq<string>)>)
    ensures p.Done? ==> |p.rest| < |s|
  {
    var start := Expect(s, PATH);
    if start.None? then Fail
    else
      var path := ParseString(start.value);
      if path.Fail? then Fail
      else
        var open := Expect(path.rest, OPEN);
        if open.None? then Fail
        else
          var caps := ParseLine(open.value);
          if caps.Fail? then Fail else Done((path.value, caps.value), caps.rest)
  }

  function ParseRule(s: string): (p: Parsed<Rule>)
    ensures p.Done? ==> |p.rest| < |s|
  {
    var head := ParseHead(s);
    if head.Fail? then Fail else
    var allowed := ParseBlock(head.rest, ALLOWED);
    if allowed.Fail? then Fail else
    var denied := ParseBlock(allowed.rest, DENIED);
    if denied.Fail? then Fail else
    var required := ParseRequired(denied.rest);
    if required.Fail? then Fail else
    var minTTL := ParseTtl(required.rest, MIN_TTL);
    if minTTL.Fail? then Fail else
    var maxTTL := ParseTtl(minTTL.rest, MAX_TTL);
    if maxTTL.Fail? then Fail else
    var end := Expect(maxTTL.rest, END);
    if end.None? then Fail
    else Done(Rule(head.value.0, head.value.1, ToMap(allowed.value), Keys(denied.value),
                   required.value, minTTL.value, maxTTL.value), end.value)
  }

  /** A whole policy text. */
  function Parse(s: string): Option<seq<Rule>>
    decreases |s|
  {
    if s == "" then Some([])
    else
      var r := ParseRule(s);
      if r.Fail? then None
      else
        var rs := Parse(r.rest);
        if rs.None? then None else Some([r.value] + rs.value)
  }

  // Reading back what was printed.

  lemma Assoc(a: string, b: string, c: string)
    ensures a + b + c == a + (b + c)
  {
  }

  lemma Assoc4(a: string, b: string, c: string, d: string, rest: string)
    ensures a + b + c + d + rest == a + (b + (c + (d + rest)))
  {
    Assoc(a + b + c, d, rest);
    Assoc(a + b, c, d + rest);
    Assoc(a, b, c + (d + rest));
  }

  lemma AssocMany(a: string, b: string, c: string, d: string, e: string, f: string, g: string, rest: string)
    ensures a + b + c + d + e + f + g + rest == a + (b + (c + (d + (e + (f + (g + rest))))))
  {
    Assoc(a, b, c);
    Assoc(a, b + c, d);
    Assoc(b, c, d);
    var x := b + (c + d);
    Assoc(a, x, e);
    Assoc(b, c + d, e);
    Assoc(c, d, e);
    var y := b + (c + (d + e));
    Assoc(a, y, f);
    Assoc(b, c + (d + e), f);
    Assoc(c, d + e, f);
    Assoc(d, e, f);
    var z := b + (c + (d + (e + f)));
    Assoc(a, z, g + rest);
    Assoc(a + z, g, rest);
    Assoc(b, c + (d + (e + f)), g + rest);
    Assoc(c, d + (e + f), g + rest);
    Assoc(d, e + f, g + rest);
    Assoc(e, f, g + rest);
  }

  lemma ExpectPrefix(p: string, rest: string)
    ensures Expect(p + rest, p) == Some(rest)
  {
    assert (p + rest)[..|p|] == p && (p + rest)[|p|..] == rest;
  }

  lemma ExpectOther(s: string, p: string, i: nat)
    requires i < |p| && i < |s| && s[i] != p[i]
    ensures Expect(s, p) == None
  {
    if |p| <= |s| { assert s[..|p|][i] == s[i]; }
  }

  lemma ParseClosed(x: string, rest: string)
    ensures ParseString(Closed(x) + rest) == Done(x, rest)
  {
    hide Escape, ParseString;
    ParseEscaped(x, rest);
  }

  /** One step of `ParseItems`: a quoted string, then whatever follows it. */
  lemma ParseItemsStep(x: string, tail: string)
    ensures ParseItems("\"" + (Closed(x) + tail)) ==
            var end, more := Expect(tail, "]"), Expect(tail, ", ");
            if end.Some? then Done([x], end.value)
            else if more.Some? then
              var vs := ParseItems(more.value);
              if vs.Fail? then Fail else Done([x] + vs.value, vs.rest)
            else Fail
  {
    hide Expect, Closed, ParseString;
    var s := "\"" + (Closed(x) + tail);
    assert s != "" && s[0] == '\"' && s[1..] == Closed(x) + tail;
    ParseClosed(x, tail);
    assert ParseString(s[1..]) == Done(x, tail);
  }

  lemma {:induction false} ParseItemsList(xs: seq<string>, rest: string)
    requires xs != []
    ensures ParseItems(List(xs) + ("]" + rest)) == Done(xs, rest)
  {
    hide Closed, Expect, ParseItems;
    if |xs| == 1 {
      ParseItemsStep(xs[0], "]" + rest);
      ExpectPrefix("]", rest);
      Assoc("\"", Closed(xs[0]), "]" + rest);
      assert [xs[0]] == xs;
    } else {
      var list, more := List(xs[1..]), List(xs[1..]) + ("]" + rest);
      ParseItemsList(xs[1..], rest);
      hide List;
      ParseItemsStep(xs[0], ", " + more);
      ExpectPrefix(", ", more);
      ExpectOther(", " + more, "]", 0);
      Assoc4("\"", Closed(xs[0]), ", ", list, "]" + rest);
      assert [xs[0]] + xs[1..] == xs;
    }
  }

  lemma ParseLineList(xs: seq<string>, rest: string)
    ensures ParseLine(List(xs) + ("]\n" + rest)) == Done(xs, rest)
  {
    hide Expect, ParseItems;
    var s := List(xs) + ("]\n" + rest);
    assert "]\n" + rest == "]" + ("\n" + rest);
    ExpectPrefix("\n", rest);
    if xs == [] {
      assert s == "]" + ("\n" + rest);
      ExpectPrefix("]", "\n" + rest);
    } else {
      ParseItemsList(xs, "\n" + rest);
      assert s[0] == '\"';
      ExpectOther(s, "]", 0);
    }
  }

  lemma ParseEntryBack(p: (string, seq<string>), rest: string)
    ensures ParseEntry(Entry(p) + rest) == Done(p, rest)
  {
    hide Expect, Closed, ParseString, ParseLine, List;
    var list := List(p.1) + ("]\n" + rest);
    assert Entry(p) + rest == ENTRY + (Closed(p.0) + (ASSIGN + list));
    ExpectPrefix(ENTRY, Closed(p.0) + (ASSIGN + list));
    ParseClosed(p.0, ASSIGN + list);
    ExpectPrefix(ASSIGN, list);
    ParseLineList(p.1, rest);
  }

  lemma EntryIsNotClose(p: (string, seq<string>), more: string)
    ensures Entry(p) + more != "" && Expect(Entry(p) + more, CLOSE) == None
  {
    hide Expect, Closed, List;
    var s := Entry(p) + more;
    assert s[2] == ENTRY[2];
    ExpectOther(s, CLOSE, 2);
  }

  lemma {:induction false} ParseEntriesBack(ps: Pairs, rest: string)
    ensures ParseEntries(Entries(ps) + (CLOSE + rest)) == Done(ps, rest)
  {
    hide Expect, Entry, ParseEntry;
    if ps == [] {
      assert Entries(ps) + (CLOSE + rest) == CLOSE + rest;
      ExpectPrefix(CLOSE, rest);
    } else {
      var more := Entries(ps[1..]) + (CLOSE + rest);
      Assoc(Entry(ps[0]), Entries(ps[1..]), CLOSE + rest);
      EntryIsNotClose(ps[0], more);
      ParseEntryBack(ps[0], more);
      ParseEntriesBack(ps[1..], rest);
      assert [ps[0]] + ps[1..] == ps;
    }
  }

  /** A part of a rule: absent, or opened by its header. */
  predicate Part(piece: string, header: string) {
    piece == "" || header <= piece
  }

  /** Where in a rule a text can stand, told from its first four characters; the closing brace comes last. */
  function Rank(s: string): nat {
    if |s| < 4 || s[0] == '}' then 5
    else if s[2] == 'a' then 0
    else if s[2] == 'd' then 1
    else if s[2] == 'r' then 2
    else if s[3] == 'i' then 3
    else 4
  }

  lemma HeaderRanks()
    ensures Rank(ALLOWED) == 0 && Rank(DENIED) == 1 && Rank(REQUIRED) == 2 && Rank(MIN_TTL) == 3 && Rank(MAX_TTL) == 4
  {
  }

  lemma EndRank(rest: string)
    ensures Rank(END + rest) == 5
  {
  }

  /** A text of a later rank does not start with this header. */
  lemma LaterRank(s: string, header: string)
    requires Rank(header) < Rank(s)
    ensures Expect(s, header) == None
  {
    if |header| <= |s| {
      var start := s[..|header|];
      assert start[0] == s[0] && start[2] == s[2] && start[3] == s[3];
    }
  }

  lemma PartRank(piece: string, header: string, tail: string)
    requires Part(piece, header) && Rank(header) < Rank(tail)
    ensures Rank(header) <= Rank(piece + tail)
  {
    if piece == "" {
      assert piece + tail == tail;
    } else {
      var s := piece + tail;
      assert s[0] == header[0] && s[2] == header[2] && s[3] == header[3];
    }
  }

  lemma ParseBlockBack(header: string, ps: Pairs, tail: string)
    requires Expect(tail, header) == None
    ensures ParseBlock(Block(header, ps) + tail, header) == Done(ps, tail) && Part(Block(header, ps), header)
  {
    hide Expect, ParseEntries, Entries;
    if ps == [] {
      assert Block(header, ps) + tail == tail;
    } else {
      assert Block(header, ps) == header + (Entries(ps) + CLOSE);
      assert Block(header, ps) + tail == header + (Entries(ps) + (CLOSE + tail));
      ExpectPrefix(header, Entries(ps) + (CLOSE + tail));
      ParseEntriesBack(ps, tail);
    }
  }

  lemma ParseRequiredBack(xs: seq<string>, tail: string)
    requires Expect(tail, REQUIRED) == None
    ensures ParseRequired(RequiredLine(xs) + tail) == Done(xs, tail) && Part(RequiredLine(xs), REQUIRED)
  {
    hide Expect, ParseLine, List;
    if xs == [] {
      assert RequiredLine(xs) + tail == tail;
    } else {
      assert RequiredLine(xs) == REQUIRED + (List(xs) + "]\n");
      assert RequiredLine(xs) + tail == REQUIRED + (List(xs) + ("]\n" + tail));
      ExpectPrefix(REQUIRED, List(xs) + ("]\n" + tail));
      ParseLineList(xs, tail);
    }
  }

  lemma ParseTtlBack(header: string, ttl: string, tail: string)
    requires Expect(tail, header) == None
    ensures ParseTtl(TtlLine(header, ttl) + tail, header) == Done(ttl, tail) && Part(TtlLine(header, ttl), header)
  {
    hide Expect, Closed, ParseString;
    if ttl == "" {
      assert TtlLine(header, ttl) + tail == tail;
    } else {
      assert TtlLine(header, ttl) == header + (Closed(ttl) + "\n");
      assert TtlLine(header, ttl) + tail == header + (Closed(ttl) + ("\n" + tail));
      ExpectPrefix(header, Closed(ttl) + ("\n" + tail));
      ParseClosed(ttl, "\n" + tail);
      ExpectPrefix("\n", tail);
    }
  }

  lemma ParseHeadBack(r: Rule, tail: string)
    ensures ParseHead(Head(r) + tail) == Done((r.path, r.capabilities), tail)
  {
    hide Expect, Closed, ParseString, ParseLine, List;
    var list := List(r.capabilities) + ("]\n" + tail);
    assert Head(r) + tail == PATH + (Closed(r.path) + (OPEN + list));
    ExpectPrefix(PATH, Closed(r.path) + (OPEN + list));
    ParseClosed(r.path, OPEN + list);
    ExpectPrefix(OPEN, list);
    ParseLineList(r.capabilities, tail);
  }

  lemma {:induction false} ToMapBack(order: seq<string>, m: map<string, seq<string>>)
    requires forall k :: k in order ==> k in m
    ensures ToMap(AllowedPairs(order, m)) == map k | k in order :: m[k]
  {
    if order == [] {
    } else {
      ToMapBack(order[1..], m);
      assert forall k :: k in order <==> k == order[0] || k in order[1..];
    }
  }

  /** The order in which a map was walked is lost on the way back. */
  lemma AllowedBack(order: seq<string>, m: map<string, seq<string>>)
    requires IsOrder(order, m)
    ensures (forall k :: k in order ==> k in m) && ToMap(AllowedPairs(order, m)) == m
  {
    hide ToMap, AllowedPairs;
    ToMapBack(order, m);
  }

  lemma {:induction false} KeysBack(ks: seq<string>)
    ensures Keys(DeniedPairs(ks)) == ks
  {
    if ks == [] {
    } else {
      KeysBack(ks[1..]);
      assert [ks[0]] + ks[1..] == ks;
    }
  }

  /** What the parts of a rule are followed by, and why no absent part is read as a present one. */
  lemma Tails(r: Rule, rest: string)
    returns (required: string, denied: string, minTTL: string, maxTTL: string)
    ensures maxTTL == TtlLine(MAX_TTL, r.maxTTL) + (END + rest)
    ensures minTTL == TtlLine(MIN_TTL, r.minTTL) + maxTTL
    ensures required == RequiredLine(r.required) + minTTL
    ensures denied == Block(DENIED, DeniedPairs(r.denied)) + required
    ensures Expect(END + rest, MAX_TTL) == None && Expect(maxTTL, MIN_TTL) == None
    ensures Expect(minTTL, REQUIRED) == None && Expect(required, DENIED) == None && Expect(denied, ALLOWED) == None
  {
    hide Expect, Block, TtlLine, RequiredLine, Part, Rank;
    HeaderRanks();
    EndRank(rest);
    LaterRank(END + rest, MAX_TTL);
    maxTTL := TtlLine(MAX_TTL, r.maxTTL) + (END + rest);
    ParseTtlBack(MAX_TTL, r.maxTTL, END + rest);
    PartRank(TtlLine(MAX_TTL, r.maxTTL), MAX_TTL, END + rest);
    LaterRank(maxTTL, MIN_TTL);
    minTTL := TtlLine(MIN_TTL, r.minTTL) + maxTTL;
    ParseTtlBack(MIN_TTL, r.minTTL, maxTTL);
    PartRank(TtlLine(MIN_TTL, r.minTTL), MIN_TTL, maxTTL);
    LaterRank(minTTL, REQUIRED);
    required := RequiredLine(r.required) + minTTL;
    ParseRequiredBack(r.required, minTTL);
    PartRank(RequiredLine(r.required), REQUIRED, minTTL);
    LaterRank(required, DENIED);
    denied := Block(DENIED, DeniedPairs(r.denied)) + required;
    ParseBlockBack(DENIED, DeniedPairs(r.denied), required);
    PartRank(Block(DENIED, DeniedPairs(r.denied)), DENIED, required);
    LaterRank(denied, ALLOWED);
  }

  lemma PrintRuleParts(r: Rule, order: seq<string>, rest: string)
    requires IsOrder(order, r.allowed)
    ensures PrintRule(r, order) + rest ==
            Head(r) + (Block(ALLOWED, AllowedPairs(order, r.allowed)) + (Block(DENIED, DeniedPairs(r.denied)) +
            (RequiredLine(r.required) + (TtlLine(MIN_TTL, r.minTTL) + (TtlLine(MAX_TTL, r.maxTTL) + (END + rest))))))
  {
    hide Head, Block, RequiredLine, TtlLine, AllowedPairs, DeniedPairs;
    AssocMany(Head(r), Block(ALLOWED, AllowedPairs(order, r.allowed)), Block(DENIED, DeniedPairs(r.denied)),
              RequiredLine(r.required), TtlLine(MIN_TTL, r.minTTL), TtlLine(MAX_TTL, r.maxTTL), END, rest);
  }

  lemma ParseRulePrinted(r: Rule, order: seq<string>, rest: string)
    requires IsOrder(order, r.allowed)
    ensures ParseRule(PrintRule(r, order) + rest) == Done(r, rest)
  {
    hide Expect, Block, TtlLine, RequiredLine, Head, ParseBlock, ParseTtl, ParseRequired, ParseHead, Part, IsOrder,
         ToMap, Keys, AllowedPairs, DeniedPairs, PrintRule;
    AllowedBack(order, r.allowed);
    var pairs := AllowedPairs(order, r.allowed);
    KeysBack(r.denied);
    var required, denied, minTTL, maxTTL := Tails(r, rest);
    ParseHeadBack(r, Block(ALLOWED, pairs) + denied);
    ParseBlockBack(ALLOWED, pairs, denied);
    ParseBlockBack(DENIED, DeniedPairs(r.denied), required);
    ParseRequiredBack(r.required, minTTL);
    ParseTtlBack(MIN_TTL, r.minTTL, maxTTL);
    ParseTtlBack(MAX_TTL, r.maxTTL, END + rest);
    ExpectPrefix(END, rest);
    PrintRuleParts(r, order, rest);
  }

  /** What `ToHCL` writes reads back as the same rules, whatever the strings and the order of every range loop. */
  lemma {:induction false} ParsePrinted(rules: seq<Rule>, orders: seq<seq<string>>)
    requires AreOrders(orders, rules)
    ensures Parse(Print(rules, orders)) == Some(rules)
  {
    hide ParseRule, PrintRule, IsOrder;
    if rules == [] {
    } else {
      var rest := Print(rules[1..], orders[1..]);
      ParsePrinted(rules[1..], orders[1..]);
      ParseRulePrinted(rules[0], orders[0], rest);
      assert [rules[0]] + rules[1..] == rules;
    }
  }

  /** Equal texts come from equal policies, even when the maps were walked in different orders. */
  lemma EqualTextsEqualPolicies(rules1: seq<Rule>, orders1: seq<seq<string>>, rules2: seq<Rule>, orders2: seq<seq<string>>)
    requires AreOrders(orders1, rules1) && AreOrders(orders2, rules2)
    requires Print(rules1, orders1) == Print(rules2, orders2)
    ensures rules1 == rules2
  {
    hide Print, Parse;
    ParsePrinted(rules1, orders1);
    ParsePrinted(rules2, orders2);
  }

  // The layout.

  lemma ListText(x: string, xs: seq<string>)
    ensures List([]) == ""
    ensures List([x] + xs) == "\"" + Escape(x) + "\"" + if xs == [] then "" else ", " + List(xs)
  {
    hide Escape;
    assert ([x] + xs)[0] == x && ([x] + xs)[1..] == xs;
  }

  lemma EntriesText(key: string, values: seq<string>, ps: Pairs)
    ensures Entries([]) == ""
    ensures Entries([(key, values)] + ps) ==
            "    \"" + Escape(key) + "\" = [" + List(values) + "]\n" + Entries(ps)
  {
    hide Escape, List;
    assert ([(key, values)] + ps)[1..] == ps;
  }

  lemma HeadText(r: Rule)
    ensures Head(r) == "path \"" + Escape(r.path) + "\" {\n  capabilities = [" + List(r.capabilities) + "]\n"
  {
    hide Escape, List;
    var path, list := Escape(r.path), List(r.capabilities);
    assert PATH + (path + "\"") + OPEN == "path \"" + path + "\" {\n  capabilities = [";
  }

  lemma BlockText(ps: Pairs)
    ensures Block(ALLOWED, ps) == if ps == [] then "" else "  allowed_parameters = {\n" + Entries(ps) + "  }\n"
    ensures Block(DENIED, ps) == if ps == [] then "" else "  denied_parameters = {\n" + Entries(ps) + "  }\n"
  {
    hide Entries;
  }

  lemma LineText(required: seq<string>, minTTL: string, maxTTL: string)
    ensures RequiredLine(required) ==
            if required == [] then "" else "  required_parameters = [" + List(required) + "]\n"
    ensures TtlLine(MIN_TTL, minTTL) ==
            if minTTL == "" then "" else "  min_wrapping_ttl = \"" + Escape(minTTL) + "\"\n"
    ensures TtlLine(MAX_TTL, maxTTL) ==
            if maxTTL == "" then "" else "  max_wrapping_ttl = \"" + Escape(maxTTL) + "\"\n"
  {
    hide Escape, List;
    Assoc("  min_wrapping_ttl = \"", Escape(minTTL), "\"");
    Assoc("  max_wrapping_ttl = \"", Escape(maxTTL), "\"");
  }

  lemma NoPairs(order: seq<string>, r: Rule)
    requires IsOrder(order, r.allowed)
    ensures (forall k :: k in order ==> k in r.allowed)
    ensures AllowedPairs(order, r.allowed) == [] <==> r.allowed == map[]
    ensures DeniedPairs(r.denied) == [] <==> r.denied == []
  {
    if order == [] {
      assert r.allowed == map[];
    } else {
      assert order[0] in r.allowed;
    }
  }

  /** The text of a rule, line by line. */
  lemma RuleText(r: Rule, order: seq<string>)
    requires IsOrder(order, r.allowed)
    ensures (forall k :: k in order ==> k in r.allowed) && PrintRule(r, order) ==
      "path \"" + Escape(r.path) + "\" {\n  capabilities = [" + List(r.capabilities) + "]\n"
      + (if r.allowed == map[] then ""
         else "  allowed_parameters = {\n" + Entries(AllowedPairs(order, r.allowed)) + "  }\n")
      + (if r.denied == [] then "" else "  denied_parameters = {\n" + Entries(DeniedPairs(r.denied)) + "  }\n")
      + (if r.required == [] then "" else "  required_parameters = [" + List(r.required) + "]\n")
      + (if r.minTTL == "" then "" else "  min_wrapping_ttl = \"" + Escape(r.minTTL) + "\"\n")
      + (if r.maxTTL == "" then "" else "  max_wrapping_ttl = \"" + Escape(r.maxTTL) + "\"\n")
      + "}\n\n"
  {
    hide Escape, List, Entries, Head, Block, RequiredLine, TtlLine, AllowedPairs, DeniedPairs, IsOrder;
    NoPairs(order, r);
    HeadText(r);
    BlockText(AllowedPairs(order, r.allowed));
    BlockText(DeniedPairs(r.denied));
    LineText(r.required, r.minTTL, r.maxTTL);
  }
}
