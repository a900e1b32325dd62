/**
 Fan-in of the parallel benchmark: the per-URL dictionaries returned by the workers
 are added point-wise into one final dictionary.
 */
module Merge {
  import opened Frequency
  import opened Words

  /** Point-wise sum of two dictionaries: every key of either, with `acc.get(w, 0) + d.get(w, 0)`. */
  function MergeInto(acc: FreqMap, d: FreqMap): (r: FreqMap)
    ensures forall w :: w in r <==> w in acc || w in d
  {
    map w | w in acc.Keys + d.Keys :: Get(acc, w) + Get(d, w)
  }

  /**
   The inner merge loop `for word, count in d.items(): final_dict[word] = final_dict.get(word, 0) + count`,
   visiting the keys of `d` in an unspecified order.
   */
  method MergeLoop(acc: FreqMap, d: FreqMap) returns (r: FreqMap)
    ensures forall w :: w in r <==> w in acc || w in d
    ensures forall w :: Get(r, w) == Get(acc, w) + Get(d, w)
  {
    r := acc;
    var todo := d.Keys;
    while todo != {}
      invariant forall w :: w in todo ==> w in d
      invariant forall w :: w in r <==> w in acc || (w in d && w !in todo)
      invariant forall w :: Get(r, w) == Get(acc, w) + (if w in todo then 0 else Get(d, w))
      decreases |todo|
    {
      var word :| word in todo;
      r := r[word := Get(r, word) + d[word]];
      todo := todo - {word};
    }
  }

  /** A dictionary that has the keys of both and their point-wise sums is their merge. */
  lemma MergeIntoUnique(acc: FreqMap, d: FreqMap, r: FreqMap)
    requires forall w :: w in r <==> w in acc || w in d
    requires forall w :: Get(r, w) == Get(acc, w) + Get(d, w)
    ensures r == MergeInto(acc, d)
  {
    var m := MergeInto(acc, d);
    forall w | w in r
      ensures r[w] == m[w]
    {
      assert Get(r, w) == r[w];
    }
  }

  /** The outer merge loop over the partial dictionaries in the order they were collected. */
  function MergeAll(partials: seq<FreqMap>): (r: FreqMap)
    ensures forall w :: w in r <==> InSome(partials, w)
  {
    if partials == [] then map[]
    else
      var init, last := partials[..|partials| - 1], partials[|partials| - 1];
      assert partials == init + [last];
      MergeInto(MergeAll(init), last)
  }

  /** `sum(d.get(w, 0) for d in partials)` */
  function SumAt(partials: seq<FreqMap>, w: string): nat
  {
    if partials == [] then 0
    else Get(partials[0], w) + SumAt(partials[1..], w)
  }

  /** True when some partial dictionary has `w` as a key. */
  ghost predicate InSome(partials: seq<FreqMap>, w: string)
  {
    exists d :: d in partials && w in d
  }

  lemma {:induction false} SumAtAppend(a: seq<FreqMap>, b: seq<FreqMap>, w: string)
    ensures SumAt(a + b, w) == SumAt(a, w) + SumAt(b, w)
    decreases |a|
  {
    if a != [] {
      assert (a + b)[1..] == a[1..] + b;
      SumAtAppend(a[1..], b, w);
    } else {
      assert a + b == b;
    }
  }

  /**
   The merged dictionary has exactly the keys of the partials, and for every word
   `final_dict.get(w, 0)` is the sum of `d.get(w, 0)` over all partials `d`.
   */
  lemma {:induction false} MergeAllPointwise(partials: seq<FreqMap>, w: string)
    ensures w in MergeAll(partials) <==> InSome(partials, w)
    ensures Get(MergeAll(partials), w) == SumAt(partials, w)
    decreases |partials|
  {
    if partials != [] {
      var n := |partials| - 1;
      var init := partials[..n];
      MergeAllPointwise(init, w);
      assert partials == init + [partials[n]];
      SumAtAppend(init, [partials[n]], w);
      assert forall d :: d in partials <==> d in init || d == partials[n];
    }
  }

  /** Removing one partial from the list removes exactly its contribution from the sum. */
  lemma SumAtRemove(partials: seq<FreqMap>, j: nat, w: string)
    requires j < |partials|
    ensures SumAt(partials, w) == Get(partials[j], w) + SumAt(partials[..j] + partials[j + 1..], w)
  {
    assert partials == partials[..j] + ([partials[j]] + partials[j + 1..]);
    SumAtAppend(partials[..j], [partials[j]] + partials[j + 1..], w);
    SumAtAppend([partials[j]], partials[j + 1..], w);
    SumAtAppend(partials[..j], partials[j + 1..], w);
  }

  /** The point-wise sums depend only on which partials there are, not on their order. */
  /** Deleting the entry at `j` removes one copy of it from the list's multiset. */
  lemma RemoveAtMultiset(qs: seq<FreqMap>, j: nat)
    requires j < |qs|
    ensures multiset(qs[..j] + qs[j + 1..]) == multiset(qs) - multiset{qs[j]}
  {
    assert qs == qs[..j] + [qs[j]] + qs[j + 1..];
  }

  lemma {:induction false} SumAtPermutation(ps: seq<FreqMap>, qs: seq<FreqMap>, w: string)
    requires multiset(ps) == multiset(qs)
    ensures SumAt(ps, w) == SumAt(qs, w)
    decreases |ps|
  {
    if ps != [] {
      var n := |ps| - 1;
      var last := ps[n];
      assert ps == ps[..n] + [last];
      assert last in multiset(qs);
      var j :| 0 <= j < |qs| && qs[j] == last;
      var rest := qs[..j] + qs[j + 1..];
      RemoveAtMultiset(qs, j);
      RemoveAtMultiset(ps, n);
      assert ps[n + 1..] == [];
      assert ps[..n] + ps[n + 1..] == ps[..n];
      SumAtPermutation(ps[..n], rest, w);
      SumAtAppend(ps[..n], [last], w);
      SumAtRemove(qs, j, w);
    }
  }

  /** Merging the same partial dictionaries in any order gives the same final dictionary. */
  lemma MergeOrderIndependent(ps: seq<FreqMap>, qs: seq<FreqMap>)
    requires multiset(ps) == multiset(qs)
    ensures MergeAll(ps) == MergeAll(qs)
  {
    forall w
      ensures w in MergeAll(ps) <==> w in MergeAll(qs)
      ensures Get(MergeAll(ps), w) == Get(MergeAll(qs), w)
    {
      MergeAllPointwise(ps, w);
      MergeAllPointwise(qs, w);
      SumAtPermutation(ps, qs, w);
      if InSome(ps, w) {
        var d :| d in ps && w in d;
        assert d in multiset(qs);
      }
      if InSome(qs, w) {
        var d :| d in qs && w in d;
        assert d in multiset(ps);
      }
    }
  }

  /**
   `for d in dicts: for word, count in d.items(): final_dict[word] = final_dict.get(word, 0) + count`:
   every key of some partial appears, with the sum of the partials' counts.
   */
  method MergePartials(dicts: seq<FreqMap>) returns (final: FreqMap)
    ensures forall w :: w in final <==> InSome(dicts, w)
    ensures forall w :: Get(final, w) == SumAt(dicts, w)
    ensures final == MergeAll(dicts)
  {
    final := map[];
    for i := 0 to |dicts|
      invariant final == MergeAll(dicts[..i])
    {
      var merged := MergeLoop(final, dicts[i]);
      MergeIntoUnique(final, dicts[i], merged);
      final := merged;
      assert dicts[..i + 1][..i] == dicts[..i];
    }
    assert dicts[..|dicts|] == dicts;
    forall w
      ensures w in final <==> InSome(dicts, w)
      ensures Get(final, w) == SumAt(dicts, w)
    {
      MergeAllPointwise(dicts, w);
    }
  }

  /** Merging the counts of two word lists gives the count of their concatenation. */
  lemma MergeCountOf(a: seq<string>, b: seq<string>)
    ensures MergeInto(CountOf(a), CountOf(b)) == CountOf(a + b)
  {
    CountOfMeaning(a);
    CountOfMeaning(b);
    CountOfMeaning(a + b);
    forall w
      ensures Get(CountOf(a + b), w) == Get(CountOf(a), w) + Get(CountOf(b), w)
    {
      CountOfAppend(a, b, w);
    }
    MergeIntoUnique(CountOf(a), CountOf(b), CountOf(a + b));
  }

  /** Merging the count of each source gives the count of the concatenated sources. */
  lemma {:induction false} MergeCountsIsCountOfFlatten(sources: seq<seq<string>>)
    ensures MergeAll(seq(|sources|, i requires 0 <= i < |sources| => CountOf(sources[i]))) == CountOf(Flatten(sources))
    decreases |sources|
  {
    var partials := seq(|sources|, i requires 0 <= i < |sources| => CountOf(sources[i]));
    if sources == [] {
      assert CountOf(Flatten(sources)) == map[];
    } else {
      var n := |sources| - 1;
      var init := sources[..n];
      var initPartials := seq(|init|, i requires 0 <= i < |init| => CountOf(init[i]));
      assert partials[..n] == initPartials;
      MergeCountsIsCountOfFlatten(init);
      assert MergeAll(partials) == MergeInto(MergeAll(initPartials), CountOf(sources[n]));
      assert Flatten(sources) == Flatten(init) + sources[n];
      MergeCountOf(Flatten(init), sources[n]);
    }
  }
}
