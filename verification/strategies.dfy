/**
 The two interchangeable counting strategies of the benchmark: `collections.Counter`
 (a multiset with bulk update) and the hand-written `dict.get(word, 0) + 1` loop.
 */
module Strategies {
  import opened Frequency

  /** A `collections.Counter` is a multiset of words. */
  type Counter = multiset<string>

  /** `Counter(words)`, and equally `counter.update(words)` on an empty counter. */
  function CounterOf(ws: seq<string>): (c: Counter)
    ensures forall w :: w in c <==> w in ws
    ensures |c| == |ws|
  {
    multiset(ws)
  }

  /** A counter read as a dictionary: its keys are the words with a positive count. */
  function CounterToMap(c: Counter): (m: FreqMap)
    ensures forall w :: w in m <==> c[w] > 0
    ensures forall w :: Get(m, w) == c[w]
  {
    map w | w in c :: c[w]
  }

  /** The multiplicity a Counter records for a word is its number of occurrences. */
  lemma {:induction false} CounterCounts(ws: seq<string>, w: string)
    ensures CounterOf(ws)[w] == Count(ws, w)
    decreases |ws|
  {
    if ws != [] {
      assert ws == [ws[0]] + ws[1..];
      CounterCounts(ws[1..], w);
    }
  }

  /** The Counter strategy produces the reference frequency map. */
  lemma CounterStrategyCorrect(ws: seq<string>)
    ensures CounterToMap(CounterOf(ws)) == CountOf(ws)
  {
    var l := CounterToMap(CounterOf(ws));
    CountOfMeaning(ws);
    forall w
      ensures w in l <==> w in CountOf(ws)
      ensures w in l ==> l[w] == CountOf(ws)[w]
    {
      CounterCounts(ws, w);
      CountPositive(ws, w);
    }
  }

  /**
   `parallel_counting_with_dict`: builds the map with `word_dict[word] = word_dict.get(word, 0) + 1`
   over the words in order. Each word is counted exactly as often as it occurs, no
   other key appears, and the counts sum to the number of words.
   */
  method CountWithDict(ws: seq<string>) returns (d: FreqMap)
    ensures forall w :: w in d <==> w in ws
    ensures forall w :: w in d ==> d[w] == Count(ws, w) && d[w] >= 1
    ensures Total(d) == |ws|
    ensures d == CountOf(ws)
  {
    d := map[];
    for i := 0 to |ws|
      invariant d == CountOf(ws[..i])
    {
      var word := ws[i];
      d := d[word := Get(d, word) + 1];
      assert ws[..i + 1] == ws[..i] + [word];
      CountOfSnoc(ws[..i], word);
    }
    assert ws[..|ws|] == ws;
    CountOfMeaning(ws);
    TotalCountOf(ws);
  }

  /** Both strategies give the same dictionary for the same words: same keys, same counts. */
  lemma StrategiesAgree(ws: seq<string>, d: FreqMap)
    requires forall w :: w in d <==> w in ws
    requires forall w :: w in d ==> d[w] == Count(ws, w)
    ensures CounterToMap(CounterOf(ws)) == d
  {
    CounterStrategyCorrect(ws);
    CountOfMeaning(ws);
    assert d == CountOf(ws);
  }
}
