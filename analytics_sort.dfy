/** The ordering step of the analytics breakdown: `.sort((a, b) => b.value - a.value)`, a stable
    sort by non-increasing value, modelled as insertion sort. */
module Ranking {
  import opened Grouping

  predicate SortedByValue(es: seq<Entry>) {
    forall i, j :: 0 <= i < j < |es| ==> es[i].value >= es[j].value
  }

  /** Put `x` before the first entry whose value is not larger, so equal values keep their order. */
  function Insert(x: Entry, es: seq<Entry>): (r: seq<Entry>)
    ensures |r| == |es| + 1
    ensures multiset(r) == multiset(es) + multiset{x}
    decreases |es|
  {
    if es == [] || es[0].value <= x.value then [x] + es
    else
      assert es == [es[0]] + es[1..];
      [es[0]] + Insert(x, es[1..])
  }

  lemma InsertMembers(x: Entry, es: seq<Entry>)
    ensures forall e :: e in Insert(x, es) <==> e == x || e in es
  {
    forall e ensures e in Insert(x, es) <==> e == x || e in es {
      assert e in Insert(x, es) <==> e in multiset(Insert(x, es));
      assert e in es <==> e in multiset(es);
    }
  }

  lemma {:induction false} InsertSorted(x: Entry, es: seq<Entry>)
    requires SortedByValue(es)
    ensures SortedByValue(Insert(x, es))
    decreases |es|
  {
    if !(es == [] || es[0].value <= x.value) {
      var rest := Insert(x, es[1..]);
      InsertSorted(x, es[1..]);
      InsertMembers(x, es[1..]);
      forall j | 0 <= j < |rest|
        ensures es[0].value >= rest[j].value
      {
        assert rest[j] in rest;
        if rest[j] != x {
          var k :| 0 <= k < |es[1..]| && es[1..][k] == rest[j];
          assert es[k + 1] == rest[j];
        }
      }
      var r := Insert(x, es);
      assert r == [es[0]] + rest;
      forall i, j | 0 <= i < j < |r| ensures r[i].value >= r[j].value {
        if i > 0 {
          assert r[i] == rest[i - 1] && r[j] == rest[j - 1];
        } else {
          assert r[j] == rest[j - 1];
        }
      }
    }
  }

  function SortByValue(es: seq<Entry>): (r: seq<Entry>)
    ensures |r| == |es|
    ensures multiset(r) == multiset(es)
    ensures SortedByValue(r)
    decreases |es|
  {
    if es == [] then []
    else
      assert es == [es[0]] + es[1..];
      InsertSorted(es[0], SortByValue(es[1..]));
      Insert(es[0], SortByValue(es[1..]))
  }

  /** The entries carrying value `v`, in their order. */
  function Tied(es: seq<Entry>, v: real): (r: seq<Entry>)
    ensures |r| <= |es|
    decreases |es|
  {
    if es == [] then []
    else (if es[0].value == v then [es[0]] else []) + Tied(es[1..], v)
  }

  lemma TiedCons(e: Entry, es: seq<Entry>, v: real)
    ensures Tied([e] + es, v) == (if e.value == v then [e] else []) + Tied(es, v)
  {
    assert ([e] + es)[1..] == es;
  }

  /** Inserting passes only larger entries, so `x` lands in front of the entries tied with it. */
  lemma {:induction false} InsertTied(x: Entry, es: seq<Entry>, v: real)
    ensures Tied(Insert(x, es), v) == Tied([x] + es, v)
    decreases |es|
  {
    if !(es == [] || es[0].value <= x.value) {
      var rest := Insert(x, es[1..]);
      assert Insert(x, es) == [es[0]] + rest;
      assert es == [es[0]] + es[1..];
      InsertTied(x, es[1..], v);
      TiedCons(es[0], rest, v);
      TiedCons(x, es[1..], v);
      TiedCons(es[0], es[1..], v);
      TiedCons(x, es, v);
      var tail := Tied(es[1..], v);
      if x.value == v {
        assert Tied(Insert(x, es), v) == [x] + tail;
        assert Tied(es, v) == tail;
      } else if es[0].value == v {
        assert Tied(Insert(x, es), v) == [es[0]] + tail;
      } else {
        assert Tied(Insert(x, es), v) == tail;
      }
    }
  }

  /** The sort is stable: for every value, the entries carrying it keep their input order. */
  lemma {:induction false} SortStable(es: seq<Entry>, v: real)
    ensures Tied(SortByValue(es), v) == Tied(es, v)
    decreases |es|
  {
    if es != [] {
      var sorted := SortByValue(es[1..]);
      SortStable(es[1..], v);
      InsertTied(es[0], sorted, v);
      TiedCons(es[0], sorted, v);
      TiedCons(es[0], es[1..], v);
      assert es == [es[0]] + es[1..];
    }
  }

  lemma {:induction false} EntriesTotalCons(x: Entry, es: seq<Entry>)
    ensures EntriesTotal([x] + es) == x.value + EntriesTotal(es)
    decreases |es|
  {
    if es != [] {
      var es' := es[..|es| - 1];
      assert ([x] + es)[..|es|] == [x] + es';
      EntriesTotalCons(x, es');
    }
  }

  lemma {:induction false} InsertTotal(x: Entry, es: seq<Entry>)
    ensures EntriesTotal(Insert(x, es)) == x.value + EntriesTotal(es)
    decreases |es|
  {
    if es == [] || es[0].value <= x.value {
      EntriesTotalCons(x, es);
    } else {
      assert es == [es[0]] + es[1..];
      InsertTotal(x, es[1..]);
      EntriesTotalCons(es[0], Insert(x, es[1..]));
      EntriesTotalCons(es[0], es[1..]);
    }
  }

  /** A name put in front of distinct names they do not contain keeps them distinct. */
  lemma DistinctCons(a: string, cs: seq<string>)
    requires Distinct(cs) && a !in cs
    ensures Distinct([a] + cs)
  {
    var r := [a] + cs;
    forall i, j | 0 <= i < j < |r| ensures r[i] != r[j] {
      assert r[j] == cs[j - 1];
      if i > 0 {
        assert r[i] == cs[i - 1];
      }
    }
  }

  lemma {:induction false} InsertNames(x: Entry, es: seq<Entry>)
    requires Distinct(Names(es))
    requires x.name !in Names(es)
    ensures Distinct(Names(Insert(x, es)))
    decreases |es|
  {
    var r := Insert(x, es);
    if es == [] || es[0].value <= x.value {
      assert Names(r) == [x.name] + Names(es);
      DistinctCons(x.name, Names(es));
    } else {
      var rest := Insert(x, es[1..]);
      var tail := Names(es[1..]);
      assert Distinct(tail) && x.name !in tail by {
        assert tail == Names(es)[1..];
      }
      InsertNames(x, es[1..]);
      InsertMembers(x, es[1..]);
      assert r == [es[0]] + rest;
      assert es[0].name !in Names(rest) by {
        forall j | 0 <= j < |rest|
          ensures es[0].name != rest[j].name
        {
          assert rest[j] in rest;
          if rest[j] != x {
            var k :| 0 <= k < |es[1..]| && es[1..][k] == rest[j];
            assert Names(es)[k + 1] == rest[j].name;
          } else {
            assert Names(es)[0] == es[0].name;
          }
        }
      }
      assert Names(r) == [es[0].name] + Names(rest);
      DistinctCons(es[0].name, Names(rest));
    }
  }

  /** Sorting keeps exactly the same entries. */
  lemma SortMembers(es: seq<Entry>)
    ensures forall e :: e in SortByValue(es) <==> e in es
  {
    forall e ensures e in SortByValue(es) <==> e in es {
      assert e in SortByValue(es) <==> e in multiset(SortByValue(es));
      assert e in es <==> e in multiset(es);
    }
  }

  /** Sorting does not change the values' sum. */
  lemma {:induction false} SortTotal(es: seq<Entry>)
    ensures EntriesTotal(SortByValue(es)) == EntriesTotal(es)
    decreases |es|
  {
    if es != [] {
      assert es == [es[0]] + es[1..];
      SortTotal(es[1..]);
      InsertTotal(es[0], SortByValue(es[1..]));
      EntriesTotalCons(es[0], es[1..]);
    }
  }

  /** Sorting keeps the names distinct. */
  lemma {:induction false} SortNames(es: seq<Entry>)
    requires Distinct(Names(es))
    ensures Distinct(Names(SortByValue(es)))
    decreases |es|
  {
    if es != [] {
      var rest := es[1..];
      assert es == [es[0]] + rest;
      assert Names(rest) == Names(es)[1..];
      SortNames(rest);
      SortMembers(rest);
      forall k | 0 <= k < |SortByValue(rest)|
        ensures Names(SortByValue(rest))[k] != es[0].name
      {
        var e := SortByValue(rest)[k];
        assert e in SortByValue(rest);
        var m :| 0 <= m < |rest| && rest[m] == e;
        assert Names(es)[m + 1] == e.name;
      }
      InsertNames(es[0], SortByValue(rest));
    }
  }
}
