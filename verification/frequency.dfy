/**
 The reference meaning of a word-frequency map: every word of the input is a key,
 mapped to its number of occurrences, and nothing else is a key. Both counting
 strategies and the fan-in merge are proved against these definitions.
 */
module Frequency {

  /** A word-to-count dictionary as the benchmark builds it. */
  type FreqMap = map<string, nat>

  /** Number of occurrences of `w` in `ws`. */
  function Count(ws: seq<string>, w: string): nat
  {
    if ws == [] then 0
    else (if ws[0] == w then 1 else 0) + Count(ws[1..], w)
  }

  /** `m.get(w, 0)` */
  function Get(m: FreqMap, w: string): (n: nat)
    ensures w !in m ==> n == 0
  {
    if w in m then m[w] else 0
  }

  /** One step of the dictionary loop: `m[w] = m.get(w, 0) + 1`. */
  function Inc(m: FreqMap, w: string): (r: FreqMap)
    ensures r.Keys == m.Keys + {w}
    ensures r[w] == Get(m, w) + 1
    ensures forall v :: v in m && v != w ==> r[v] == m[v]
  {
    m[w := Get(m, w) + 1]
  }

  /** The frequency map of a word sequence: its keys are exactly the words that occur. */
  function CountOf(ws: seq<string>): (m: FreqMap)
  {
    map w | w in ws :: Count(ws, w)
  }

  /** Counting distributes over concatenation. */
  lemma {:induction false} CountAppend(a: seq<string>, b: seq<string>, w: string)
    ensures Count(a + b, w) == Count(a, w) + Count(b, w)
    decreases |a|
  {
    if a == [] {
      assert a + b == b;
    } else {
      assert (a + b)[1..] == a[1..] + b;
      CountAppend(a[1..], b, w);
    }
  }

  /** A word occurs in a sequence exactly when it is counted at least once. */
  lemma {:induction false} CountPositive(ws: seq<string>, w: string)
    ensures w in ws <==> Count(ws, w) > 0
    decreases |ws|
  {
    if ws != [] {
      CountPositive(ws[1..], w);
      assert w in ws <==> ws[0] == w || w in ws[1..];
    }
  }

  /**
   The frequency map has exactly the occurring words as keys, each mapped to its
   number of occurrences, which is therefore at least one.
   */
  lemma CountOfMeaning(ws: seq<string>)
    ensures forall w :: w in CountOf(ws) <==> w in ws
    ensures forall w :: Get(CountOf(ws), w) == Count(ws, w)
    ensures forall w :: w in CountOf(ws) ==> CountOf(ws)[w] >= 1
  {
    forall w
      ensures Get(CountOf(ws), w) == Count(ws, w)
      ensures w in CountOf(ws) ==> CountOf(ws)[w] >= 1
    {
      CountPositive(ws, w);
    }
  }

  /** Appending one word to the input is one step of the dictionary loop on the map. */
  lemma CountOfSnoc(ws: seq<string>, x: string)
    ensures CountOf(ws + [x]) == Inc(CountOf(ws), x)
  {
    var l := CountOf(ws + [x]);
    var r := Inc(CountOf(ws), x);
    forall w | w in ws + [x]
      ensures l[w] == r[w]
    {
      CountAppend(ws, [x], w);
      assert Count([x], w) == (if x == w then 1 else 0);
      CountPositive(ws, w);
    }
    assert l.Keys == r.Keys;
  }

  /** The counts of two sequences add up point-wise to the counts of their concatenation. */
  lemma CountOfAppend(a: seq<string>, b: seq<string>, w: string)
    ensures Get(CountOf(a + b), w) == Get(CountOf(a), w) + Get(CountOf(b), w)
  {
    CountOfMeaning(a);
    CountOfMeaning(b);
    CountOfMeaning(a + b);
    CountAppend(a, b, w);
  }

  /** Sum of all counts of a map: `sum(counter.values())`. */
  ghost function Total(m: FreqMap): nat
    decreases |m|
  {
    if m == map[] then 0
    else
      var k :| k in m;
      m[k] + Total(m - {k})
  }

  /** The total can be split off at any key, whichever key the definition happens to pick. */
  lemma {:induction false} TotalRemove(m: FreqMap, k: string)
    requires k in m
    ensures Total(m) == m[k] + Total(m - {k})
    decreases |m|
  {
    var j :| j in m && Total(m) == m[j] + Total(m - {j});
    if j != k {
      assert k in m - {j};
      TotalRemove(m - {j}, k);
      assert m - {j} - {k} == m - {k} - {j};
      assert j in m - {k};
      TotalRemove(m - {k}, j);
    }
  }

  /** One increment raises the total by one. */
  lemma TotalInc(m: FreqMap, w: string)
    ensures Total(Inc(m, w)) == Total(m) + 1
  {
    var r := Inc(m, w);
    TotalRemove(r, w);
    if w in m {
      assert r - {w} == m - {w};
      TotalRemove(m, w);
    } else {
      assert r - {w} == m;
    }
  }

  /** The counts of a word sequence sum to its length. */
  lemma {:induction false} TotalCountOf(ws: seq<string>)
    ensures Total(CountOf(ws)) == |ws|
    decreases |ws|
  {
    if ws == [] {
      assert CountOf(ws) == map[];
    } else {
      var n := |ws| - 1;
      assert ws == ws[..n] + [ws[n]];
      CountOfSnoc(ws[..n], ws[n]);
      TotalInc(CountOf(ws[..n]), ws[n]);
      TotalCountOf(ws[..n]);
    }
  }
}
