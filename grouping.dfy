/** Grouping expenses by category: the `forEach` that both the analytics page and the overview
    page run to fill a `categories` object, and what the resulting entries mean. A JavaScript
    object keeps its string keys in insertion order, so the grouping is modelled as a map of
    running totals plus the list of keys in first-occurrence order. */
module Grouping {
  import opened Seqs
  import opened Ledger

  /** One `{ name, value }` entry of a breakdown. */
  datatype Entry = Entry(name: string, value: real)

  predicate Distinct(cs: seq<string>) {
    forall i, j :: 0 <= i < j < |cs| ==> cs[i] != cs[j]
  }

  function Names(es: seq<Entry>): (r: seq<string>)
    ensures |r| == |es|
    ensures forall k :: 0 <= k < |es| ==> r[k] == es[k].name
  {
    seq(|es|, k requires 0 <= k < |es| => es[k].name)
  }

  /** The distinct categories of `ts`, in order of first occurrence. */
  function Categories(ts: seq<Transaction>): seq<string>
    decreases |ts|
  {
    if ts == [] then []
    else
      var cs' := Categories(ts[..|ts| - 1]);
      var c := ts[|ts| - 1].category;
      if c in cs' then cs' else cs' + [c]
  }

  /** The first-occurrence key list names every category that occurs, and each once. */
  lemma {:induction false} CategoriesSpec(ts: seq<Transaction>)
    ensures Distinct(Categories(ts))
    ensures forall c :: c in Categories(ts) <==> exists i :: 0 <= i < |ts| && ts[i].category == c
    decreases |ts|
  {
    if ts != [] {
      var ts' := ts[..|ts| - 1];
      CategoriesSpec(ts');
      assert forall i :: 0 <= i < |ts'| ==> ts'[i] == ts[i];
    }
  }

  /** The summed amount of the transactions of one category. */
  function CategoryTotal(ts: seq<Transaction>, c: string): real
    decreases |ts|
  {
    if ts == [] then 0.0
    else CategoryTotal(ts[..|ts| - 1], c) + (if ts[|ts| - 1].category == c then ts[|ts| - 1].amount else 0.0)
  }

  /** The entries `{ name: c, value: CategoryTotal(ts, c) }` for the names `cs`, in that order. */
  function Tabulate(cs: seq<string>, ts: seq<Transaction>): (es: seq<Entry>)
    ensures |es| == |cs|
    ensures forall k :: 0 <= k < |cs| ==> es[k] == Entry(cs[k], CategoryTotal(ts, cs[k]))
    decreases |cs|
  {
    if cs == [] then []
    else Tabulate(cs[..|cs| - 1], ts) + [Entry(cs[|cs| - 1], CategoryTotal(ts, cs[|cs| - 1]))]
  }

  /** The reference breakdown: one entry per distinct category, first-occurrence order. */
  function GroupByCategory(ts: seq<Transaction>): seq<Entry> {
    Tabulate(Categories(ts), ts)
  }

  /** The sum of the entries' values. */
  function EntriesTotal(es: seq<Entry>): real
    decreases |es|
  {
    if es == [] then 0.0 else EntriesTotal(es[..|es| - 1]) + es[|es| - 1].value
  }

  /** A category that never occurs sums to nothing. */
  lemma {:induction false} AbsentCategoryTotal(ts: seq<Transaction>, c: string)
    requires forall i :: 0 <= i < |ts| ==> ts[i].category != c
    ensures CategoryTotal(ts, c) == 0.0
    decreases |ts|
  {
    if ts != [] {
      AbsentCategoryTotal(ts[..|ts| - 1], c);
    }
  }

  /** Appending one transaction adds its amount to the entry of its category, if listed. */
  lemma {:induction false} TabulateSnoc(cs: seq<string>, ts: seq<Transaction>, x: Transaction)
    requires Distinct(cs)
    ensures EntriesTotal(Tabulate(cs, ts + [x]))
         == EntriesTotal(Tabulate(cs, ts)) + (if x.category in cs then x.amount else 0.0)
    decreases |cs|
  {
    assert (ts + [x])[..|ts|] == ts;
    if cs != [] {
      var cs' := cs[..|cs| - 1];
      TabulateSnoc(cs', ts, x);
      assert x.category in cs <==> x.category in cs' || x.category == cs[|cs| - 1];
    }
  }

  /** The breakdown's values add up to the total of the grouped transactions. */
  lemma {:induction false} GroupTotal(ts: seq<Transaction>)
    ensures EntriesTotal(GroupByCategory(ts)) == Total(ts)
    decreases |ts|
  {
    if ts != [] {
      var ts' := ts[..|ts| - 1];
      var x := ts[|ts| - 1];
      var cs' := Categories(ts');
      assert ts == ts' + [x];
      CategoriesSpec(ts');
      GroupTotal(ts');
      TabulateSnoc(cs', ts', x);
      if x.category !in cs' {
        var cs := cs' + [x.category];
        assert cs[..|cs| - 1] == cs';
        AbsentCategoryTotal(ts', x.category);
        assert Tabulate(cs, ts) == Tabulate(cs', ts) + [Entry(x.category, CategoryTotal(ts, x.category))];
      }
    }
  }

  /** Summing any distinct set of categories never counts a transaction twice. */
  lemma {:induction false} TabulateBounded(cs: seq<string>, ts: seq<Transaction>)
    requires Distinct(cs)
    requires NonNegative(ts)
    ensures EntriesTotal(Tabulate(cs, ts)) <= Total(ts)
    decreases |ts|
  {
    if ts == [] {
      EmptyTabulate(cs);
    } else {
      var ts' := ts[..|ts| - 1];
      var x := ts[|ts| - 1];
      assert ts == ts' + [x];
      assert forall t :: t in ts' ==> t in ts;
      assert x in ts;
      TabulateBounded(cs, ts');
      TabulateSnoc(cs, ts', x);
    }
  }

  lemma {:induction false} EmptyTabulate(cs: seq<string>)
    ensures EntriesTotal(Tabulate(cs, [])) == 0.0
    decreases |cs|
  {
    if cs != [] {
      EmptyTabulate(cs[..|cs| - 1]);
    }
  }

  /** A category total is the sum of the filter by that category. */
  lemma {:induction false} CategoryTotalIsFilter(ts: seq<Transaction>, c: string)
    ensures CategoryTotal(ts, c) == Total(Filter(ts, (t: Transaction) => t.category == c))
    decreases |ts|
  {
    if ts != [] {
      var ts' := ts[..|ts| - 1];
      var x := ts[|ts| - 1];
      var p := (t: Transaction) => t.category == c;
      CategoryTotalIsFilter(ts', c);
      if x.category == c {
        assert Filter(ts, p) == Filter(ts', p) + [x];
        TotalSnoc(Filter(ts', p), x);
      } else {
        assert Filter(ts, p) == Filter(ts', p);
      }
    }
  }

  /** What the reference breakdown means: distinct names, exactly the categories that occur,
      each with its category total, and values summing to the grouped total. */
  lemma GroupByCategorySpec(ts: seq<Transaction>)
    ensures Distinct(Names(GroupByCategory(ts)))
    ensures forall c :: c in Names(GroupByCategory(ts)) <==> exists i :: 0 <= i < |ts| && ts[i].category == c
    ensures forall k :: 0 <= k < |GroupByCategory(ts)| ==>
              GroupByCategory(ts)[k].value == CategoryTotal(ts, GroupByCategory(ts)[k].name)
    ensures EntriesTotal(GroupByCategory(ts)) == Total(ts)
  {
    assert Names(GroupByCategory(ts)) == Categories(ts);
    CategoriesSpec(ts);
    GroupTotal(ts);
  }

  /** One step of the accumulation: how the first-occurrence keys and the running totals
      change when one more transaction is seen. */
  lemma AccumulateStep(ts: seq<Transaction>, i: nat)
    requires i < |ts|
    ensures Categories(ts[..i + 1]) == if ts[i].category in Categories(ts[..i]) then Categories(ts[..i])
                                       else Categories(ts[..i]) + [ts[i].category]
    ensures forall c :: CategoryTotal(ts[..i + 1], c)
                        == CategoryTotal(ts[..i], c) + (if ts[i].category == c then ts[i].amount else 0.0)
  {
    assert ts[..i + 1][..i] == ts[..i];
  }

  /** The running state after the first `n` transactions: the keys in first-occurrence order,
      and under each key the category's total so far. */
  ghost predicate Accumulated(ts: seq<Transaction>, n: nat, order: seq<string>, totals: map<string, real>)
    requires n <= |ts|
  {
    && order == Categories(ts[..n])
    && (forall c :: c in totals <==> c in order)
    && (forall c :: c in totals ==> totals[c] == CategoryTotal(ts[..n], c))
  }

  /** One iteration of the `forEach` keeps the running state accurate. */
  lemma AccumulateAdvance(ts: seq<Transaction>, i: nat, order: seq<string>, totals: map<string, real>)
    requires i < |ts| && Accumulated(ts, i, order, totals)
    ensures var c := ts[i].category;
            var order' := if c in totals then order else order + [c];
            var base := if c in totals then totals else totals[c := 0.0];
            Accumulated(ts, i + 1, order', base[c := base[c] + ts[i].amount])
  {
    var c := ts[i].category;
    AccumulateStep(ts, i);
    if c !in totals {
      CategoriesSpec(ts[..i]);
      AbsentCategoryTotal(ts[..i], c);
    }
  }

  /** The `forEach` of both dashboard pages: accumulate each transaction's amount under its
      category, creating the key at 0 on first sight, then list the object's entries. */
  method AccumulateByCategory(ts: seq<Transaction>) returns (entries: seq<Entry>)
    ensures entries == GroupByCategory(ts)
  {
    var totals: map<string, real> := map[];
    var order: seq<string> := [];
    for i := 0 to |ts|
      invariant Accumulated(ts, i, order, totals)
    {
      var t := ts[i];
      AccumulateAdvance(ts, i, order, totals);
      if t.category !in totals {
        order := order + [t.category];
        totals := totals[t.category := 0.0];
      }
      totals := totals[t.category := totals[t.category] + t.amount];
    }
    assert ts[..|ts|] == ts;
    entries := seq(|order|, k requires 0 <= k < |order| => Entry(order[k], totals[order[k]]));
    EntriesOfTotals(order, totals, ts, entries);
  }

  /** Listing running totals that are the category totals, in key order, tabulates them. */
  lemma EntriesOfTotals(order: seq<string>, totals: map<string, real>, ts: seq<Transaction>, entries: seq<Entry>)
    requires forall c :: c in order ==> c in totals && totals[c] == CategoryTotal(ts, c)
    requires |entries| == |order|
    requires forall k :: 0 <= k < |order| ==> entries[k] == Entry(order[k], totals[order[k]])
    ensures entries == Tabulate(order, ts)
  {
    var tab := Tabulate(order, ts);
    forall k | 0 <= k < |entries|
      ensures entries[k] == tab[k]
    {
      assert order[k] in order;
    }
  }
}
