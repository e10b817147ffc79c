/** Label frequency tables: the model of a plain JavaScript object used as a counter,
    `freq[name] = (freq[name] || 0) + 1`. A string-keyed object enumerates its keys in
    insertion order, so the table is an association list in first-occurrence order. */
module Tally {
  import opened Seqs

  type FreqTable = seq<(string, nat)>

  function Labels(t: FreqTable): (r: seq<string>)
    ensures |r| == |t|
    ensures forall i :: 0 <= i < |t| ==> r[i] == t[i].0
  {
    if |t| == 0 then [] else [t[0].0] + Labels(t[1..])
  }

  /** `freq[name] || 0`: the count stored for `name`, or 0 when it has none. */
  function Lookup(t: FreqTable, name: string): nat {
    if |t| == 0 then 0
    else if t[0].0 == name then t[0].1
    else Lookup(t[1..], name)
  }

  /** `Object.values(freq).reduce((a, b) => a + b, 0)`. */
  function Total(t: FreqTable): nat {
    if |t| == 0 then 0 else t[0].1 + Total(t[1..])
  }

  /** One `freq[name] = (freq[name] || 0) + 1` step. */
  function Bump(t: FreqTable, name: string): (r: FreqTable)
    ensures Lookup(r, name) == Lookup(t, name) + 1
    ensures forall other :: other != name ==> Lookup(r, other) == Lookup(t, other)
    ensures Total(r) == Total(t) + 1
    ensures Labels(r) == if name in Labels(t) then Labels(t) else Labels(t) + [name]
  {
    if |t| == 0 then [(name, 1)]
    else if t[0].0 == name then
      assert Labels(t) == [name] + Labels(t[1..]);
      [(name, t[0].1 + 1)] + t[1..]
    else
      var rest := Bump(t[1..], name);
      var r := [t[0]] + rest;
      assert r[1..] == rest;
      assert Labels(t) == [t[0].0] + Labels(t[1..]);
      assert Labels(r) == [t[0].0] + Labels(rest);
      r
  }

  /** The frequency table of `xs`, built by counting its elements from first to last. */
  function Count(xs: seq<string>): (r: FreqTable)
    ensures forall name :: Lookup(r, name) == multiset(xs)[name]
    ensures Total(r) == |xs|
  {
    if |xs| == 0 then []
    else
      assert xs == xs[..|xs| - 1] + [xs[|xs| - 1]];
      Bump(Count(xs[..|xs| - 1]), xs[|xs| - 1])
  }

  /** The table's keys are the distinct elements of `xs` in first-occurrence order. */
  lemma {:induction false} CountLabels(xs: seq<string>)
    ensures Labels(Count(xs)) == Dedup(xs)
  {
    if |xs| > 0 {
      CountLabels(xs[..|xs| - 1]);
    }
  }

  lemma {:induction false} LookupPositive(t: FreqTable, name: string)
    requires Lookup(t, name) > 0
    ensures name in Labels(t)
  {
    if t[0].0 != name {
      LookupPositive(t[1..], name);
    }
  }
}
