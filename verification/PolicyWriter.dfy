/** `ToHCL`: the nested loops that write a policy, piece by piece. */
module PolicyWriter {
  import opened HclString
  import opened Policy
  import opened Strings

  lemma {:induction false} ListAppend(xs: seq<string>, x: string)
    ensures List(xs + [x]) == List(xs) + (if xs == [] then "" else ", ") + "\"" + Closed(x)
  {
    hide Closed;
    if |xs| == 0 {
      assert xs + [x] == [x];
    } else if |xs| == 1 {
      assert (xs + [x])[1..] == [x] && (xs + [x])[0] == xs[0];
    } else {
      ListAppend(xs[1..], x);
      assert (xs + [x])[1..] == xs[1..] + [x] && (xs + [x])[0] == xs[0];
    }
  }

  lemma {:induction false} EntriesAppend(ps: Pairs, p: (string, seq<string>))
    ensures Entries(ps + [p]) == Entries(ps) + Entry(p)
  {
    hide Entry;
    if ps == [] {
      assert ps + [p] == [p];
    } else {
      EntriesAppend(ps[1..], p);
      assert (ps + [p])[1..] == ps[1..] + [p] && (ps + [p])[0] == ps[0];
    }
  }

  lemma {:induction false} AllowedPairsAppend(order: seq<string>, k: string, m: map<string, seq<string>>)
    requires k in m && forall x :: x in order ==> x in m
    ensures AllowedPairs(order + [k], m) == AllowedPairs(order, m) + [(k, m[k])]
  {
    if order == [] {
      assert order + [k] == [k];
    } else {
      AllowedPairsAppend(order[1..], k, m);
      assert (order + [k])[1..] == order[1..] + [k] && (order + [k])[0] == order[0];
    }
  }

  lemma {:induction false} DeniedPairsAppend(ks: seq<string>, k: string)
    ensures DeniedPairs(ks + [k]) == DeniedPairs(ks) + [(k, [])]
  {
    if ks == [] {
      assert ks + [k] == [k];
    } else {
      DeniedPairsAppend(ks[1..], k);
      assert (ks + [k])[1..] == ks[1..] + [k] && (ks + [k])[0] == ks[0];
    }
  }

  lemma {:induction false} PrintAppend(rules: seq<Rule>, orders: seq<seq<string>>, r: Rule, order: seq<string>)
    requires AreOrders(orders, rules) && IsOrder(order, r.allowed)
    ensures AreOrders(orders + [order], rules + [r])
    ensures Print(rules + [r], orders + [order]) == Print(rules, orders) + PrintRule(r, order)
  {
    hide PrintRule, IsOrder;
    if rules == [] {
      assert rules + [r] == [r] && orders + [order] == [order];
    } else {
      PrintAppend(rules[1..], orders[1..], r, order);
      assert (rules + [r])[1..] == rules[1..] + [r] && (rules + [r])[0] == rules[0];
      assert (orders + [order])[1..] == orders[1..] + [order] && (orders + [order])[0] == orders[0];
    }
  }

  /** Appending piece by piece. */
  lemma Appended(text: string, a: string, b: string)
    ensures text + a + b == text + (a + b)
  {
  }

  /** The loop over a list of strings, with a separator before every element but the first. */
  method WriteList(text: string, xs: seq<string>) returns (b: string)
    ensures b == text + List(xs)
  {
    hide List, Escape, Closed;
    b := text;
    ListNone();
    assert xs[..0] == [] && text + "" == text;
    for i := 0 to |xs|
      invariant b == text + List(xs[..i])
    {
      ghost var done := List(xs[..i]);
      assert xs[..i + 1] == xs[..i] + [xs[i]];
      ListAppend(xs[..i], xs[i]);
      if i > 0 {
        Appended(text, done, ", ");
        b := b + ", ";
      } else {
        assert done + "" == done;
      }
      ghost var separated := done + if i > 0 then ", " else "";
      Appended(text, separated, "\"");
      Appended(text, separated + "\"", Closed(xs[i]));
      b := b + "\"" + Closed(xs[i]);
    }
    assert xs[..|xs|] == xs;
  }

  lemma ListNone()
    ensures List([]) == ""
  {
  }

  method WriteEntry(text: string, key: string, values: seq<string>) returns (b: string)
    ensures b == text + Entry((key, values))
  {
    hide List, Closed;
    b := text + ENTRY + Closed(key) + ASSIGN;
    b := WriteList(b, values);
    b := b + "]\n";
  }

  lemma BlockOf(header: string, ps: Pairs, text: string)
    requires ps != []
    ensures text + header + Entries(ps) + CLOSE == text + Block(header, ps)
  {
    hide Entries;
    Appended(text, header, Entries(ps));
    Appended(text, header + Entries(ps), CLOSE);
  }

  lemma EntriesStep(start: string, ps: Pairs, p: (string, seq<string>))
    ensures start + Entries(ps) + Entry(p) == start + Entries(ps + [p])
  {
    hide Entries, Entry;
    EntriesAppend(ps, p);
    Appended(start, Entries(ps), Entry(p));
  }

  /** The range loop over the map: each key once, in an order nobody fixes. */
  method WriteAllowed(text: string, m: map<string, seq<string>>) returns (b: string, ghost order: seq<string>)
    ensures IsOrder(order, m)
    ensures (forall k :: k in order ==> k in m) && b == text + Block(ALLOWED, AllowedPairs(order, m))
  {
    hide Entries, Entry;
    b, order := text, [];
    if |m| > 0 {
      b, order := WriteAllowedEntries(text + ALLOWED, m);
      BlockOf(ALLOWED, AllowedPairs(order, m), text);
      b := b + CLOSE;
    }
  }

  method WriteAllowedEntries(start: string, m: map<string, seq<string>>) returns (b: string, ghost order: seq<string>)
    ensures IsOrder(order, m)
    ensures (forall k :: k in order ==> k in m) && b == start + Entries(AllowedPairs(order, m))
  {
    b, order := start, [];
    var left := m.Keys;
    while left != {}
      invariant Walking(m, order, left)
      invariant (forall k :: k in order ==> k in m) && b == start + Entries(AllowedPairs(order, m))
    {
      hide Entries, Entry, AllowedPairs, Walking, IsOrder;
      var key :| key in left;
      WalkingStep(m, order, left, key);
      AllowedPairsAppend(order, key, m);
      EntriesStep(start, AllowedPairs(order, m), (key, m[key]));
      b := WriteEntry(b, key, m[key]);
      order, left := order + [key], left - {key};
      WalkingFacts(m, order, left);
    }
    WalkingFacts(m, order, left);
  }

  method WriteDenied(text: string, keys: seq<string>) returns (b: string)
    ensures b == text + Block(DENIED, DeniedPairs(keys))
  {
    hide Entries, Entry;
    b := text;
    if |keys| > 0 {
      b := WriteDeniedEntries(text + DENIED, keys);
      BlockOf(DENIED, DeniedPairs(keys), text);
      b := b + CLOSE;
    }
  }

  method WriteDeniedEntries(start: string, keys: seq<string>) returns (b: string)
    ensures b == start + Entries(DeniedPairs(keys))
  {
    b := start;
    for i := 0 to |keys|
      invariant b == start + Entries(DeniedPairs(keys[..i]))
    {
      hide Entries, DeniedPairs, Closed;
      assert keys[..i + 1] == keys[..i] + [keys[i]];
      DeniedPairsAppend(keys[..i], keys[i]);
      EntriesStep(start, DeniedPairs(keys[..i]), (keys[i], []));
      EmptyEntry(keys[i]);
      b := b + (ENTRY + Closed(keys[i]) + " = []\n");
    }
    assert keys[..|keys|] == keys;
  }

  /** A denied parameter is written as one with no values. */
  lemma EmptyEntry(key: string)
    ensures Entry((key, [])) == ENTRY + Closed(key) + " = []\n"
  {
    hide Closed;
    assert ASSIGN + "]\n" == " = []\n";
  }

  method WriteRequired(text: string, keys: seq<string>) returns (b: string)
    ensures b == text + RequiredLine(keys)
  {
    hide List;
    b := text;
    if |keys| > 0 {
      b := b + REQUIRED;
      b := WriteList(b, keys);
      b := b + "]\n";
    }
  }

  method WriteTtl(text: string, header: string, ttl: string) returns (b: string)
    ensures b == text + TtlLine(header, ttl)
  {
    hide Closed;
    b := text;
    if ttl != "" {
      b := b + header + Closed(ttl) + "\n";
    }
  }

  method WriteHead(text: string, rule: Rule) returns (b: string)
    ensures b == text + Head(rule)
  {
    hide List, Closed;
    b := text + PATH + Closed(rule.path) + OPEN;
    b := WriteList(b, rule.capabilities);
    b := b + "]\n";
  }

  method WriteRule(text: string, rule: Rule) returns (b: string, ghost order: seq<string>)
    ensures IsOrder(order, rule.allowed) && b == text + PrintRule(rule, order)
  {
    hide IsOrder, AllowedPairs, DeniedPairs, Block, RequiredLine, TtlLine, Head;
    b := WriteHead(text, rule);
    b, order := WriteAllowed(b, rule.allowed);
    b := WriteDenied(b, rule.denied);
    b := WriteRequired(b, rule.required);
    b := WriteTtl(b, MIN_TTL, rule.minTTL);
    b := WriteTtl(b, MAX_TTL, rule.maxTTL);
    b := b + END;
    RuleParts(text, Head(rule), Block(ALLOWED, AllowedPairs(order, rule.allowed)), Block(DENIED, DeniedPairs(rule.denied)),
              RequiredLine(rule.required), TtlLine(MIN_TTL, rule.minTTL), TtlLine(MAX_TTL, rule.maxTTL), END);
  }

  lemma RuleParts(text: string, a: string, b: string, c: string, d: string, e: string, f: string, g: string)
    ensures text + a + b + c + d + e + f + g == text + (a + b + c + d + e + f + g)
  {
    Appended(text, a, b);
    Appended(text, a + b, c);
    Appended(text, a + b + c, d);
    Appended(text, a + b + c + d, e);
    Appended(text, a + b + c + d + e, f);
    Appended(text, a + b + c + d + e + f, g);
  }

  lemma PrintNone()
    ensures AreOrders([], []) && Print([], []) == ""
  {
  }

  /** The whole text, and the round trip it is written for: the rules can be read back from it. */
  method ToHCL(rules: seq<Rule>) returns (b: string, ghost orders: seq<seq<string>>)
    ensures AreOrders(orders, rules) && b == Print(rules, orders)
    ensures Parse(b) == Some(rules)
  {
    hide AreOrders, Print, PrintRule, IsOrder, Parse;
    PrintNone();
    assert rules[..0] == [];
    b, orders := "", [];
    for i := 0 to |rules|
      invariant AreOrders(orders, rules[..i]) && b == Print(rules[..i], orders)
    {
      ghost var order;
      b, order := WriteRule(b, rules[i]);
      assert rules[..i + 1] == rules[..i] + [rules[i]];
      PrintAppend(rules[..i], orders, rules[i], order);
      orders := orders + [order];
    }
    assert rules[..|rules|] == rules;
    ParsePrinted(rules, orders);
  }
}
