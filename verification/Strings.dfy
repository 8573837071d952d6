/** What the two text transformations share. */
module Strings {

  /** Go's strings.ReplaceAll: one pass from the left, every match replaced, the replacements not looked at again. */
  function ReplaceAll(s: string, target: string, replacement: string): string
    requires target != ""
  {
    if |s| < |target| then s
    else if s[..|target|] == target then replacement + ReplaceAll(s[|target|..], target, replacement)
    else [s[0]] + ReplaceAll(s[1..], target, replacement)
  }

  datatype Option<+T> = None | Some(value: T)

  /** `order` lists the keys of `m`, each once: one way a range loop may go through the map. */
  ghost predicate IsOrder<V>(order: seq<string>, m: map<string, V>) {
    && (forall k :: k in order <==> k in m)
    && forall i, j | 0 <= i < j < |order| :: order[i] != order[j]
  }

  /** A range loop on its way: `order` lists the keys done, `left` holds the others. */
  ghost predicate Walking<V>(m: map<string, V>, order: seq<string>, left: set<string>) {
    && left <= m.Keys
    && (forall k :: k in m <==> k in left || k in order)
    && (forall k :: k in left ==> k !in order)
    && (forall i, j | 0 <= i < j < |order| :: order[i] != order[j])
  }

  lemma WalkingStep<V>(m: map<string, V>, order: seq<string>, left: set<string>, key: string)
    requires Walking(m, order, left) && key in left
    ensures key in m && Walking(m, order + [key], left - {key})
  {
  }

  lemma WalkingFacts<V>(m: map<string, V>, order: seq<string>, left: set<string>)
    requires Walking(m, order, left)
    ensures forall k :: k in order ==> k in m
    ensures left == {} ==> IsOrder(order, m)
  {
  }
}
