/**
 The sequential and parallel runners of the word-count benchmark, with their
 timing left out: each runner is modelled by the dictionary or counter it builds.
 The process pool is modelled as a plain map of the worker function over the URLs,
 and `os.cpu_count()` as a parameter.
 */
module Benchmark {
  import opened Wrappers
  import opened Frequency
  import opened Words
  import opened Strategies
  import opened Merge

  /** The exception `num_urls // max_workers` raises when there are no workers. */
  datatype BenchmarkError = ZeroDivisionError

  /** `os.cpu_count() or 1`: `None` and `0` are both falsy and become 1. */
  function CpuOrOne(cpuCount: Option<nat>): (n: nat)
    ensures n >= 1
    ensures cpuCount.Some? && cpuCount.value > 0 ==> n == cpuCount.value
    ensures cpuCount.None? || cpuCount.value == 0 ==> n == 1
  {
    if cpuCount.Some? && cpuCount.value > 0 then cpuCount.value else 1
  }

  /**
   `max_workers = min(num_urls, os.cpu_count() or 1)`: the smaller of the two,
   so never more workers than URLs nor than CPUs, and none at all for no URLs.
   */
  function MaxWorkers(numUrls: nat, cpuCount: Option<nat>): (workers: nat)
    ensures workers <= numUrls && workers <= CpuOrOne(cpuCount)
    ensures workers == numUrls || workers == CpuOrOne(cpuCount)
    ensures workers == 0 <==> numUrls == 0
  {
    if numUrls < CpuOrOne(cpuCount) then numUrls else CpuOrOne(cpuCount)
  }

  /** `urls_per_worker = num_urls // max_workers`, which raises when `max_workers` is 0. */
  function UrlsPerWorker(numUrls: nat, maxWorkers: nat): (r: Result<nat, BenchmarkError>)
    ensures r.Failure? <==> maxWorkers == 0
    ensures r.Success? ==> r.value * maxWorkers <= numUrls < (r.value + 1) * maxWorkers
  {
    if maxWorkers == 0 then Failure(ZeroDivisionError) else Success(numUrls / maxWorkers)
  }

  /**
   The Counter half of `benchmark_counter_vs_dict`: `counter.update(words)` for each URL in turn.
   The counter records every word of the corpus as often as it occurs.
   */
  method SequentialCounter(sources: seq<seq<string>>) returns (counter: Counter)
    ensures forall w :: counter[w] == Count(Flatten(sources), w)
    ensures CounterToMap(counter) == CountOf(Flatten(sources))
  {
    counter := multiset{};
    for i := 0 to |sources|
      invariant counter == CounterOf(Flatten(sources[..i]))
    {
      counter := counter + CounterOf(sources[i]);
      assert sources[..i + 1][..i] == sources[..i];
    }
    assert sources[..|sources|] == sources;
    forall w
      ensures counter[w] == Count(Flatten(sources), w)
    {
      CounterCounts(Flatten(sources), w);
    }
    CounterStrategyCorrect(Flatten(sources));
  }

  /**
   The dictionary half of `benchmark_counter_vs_dict`: the nested loop
   `dictionary[word] = dictionary.get(word, 0) + 1` over every word of every URL.
   The result counts every word of the corpus, and its counts sum to the corpus size.
   */
  method SequentialDict(sources: seq<seq<string>>) returns (dictionary: FreqMap)
    ensures forall w :: w in dictionary <==> w in Flatten(sources)
    ensures forall w :: Get(dictionary, w) == Count(Flatten(sources), w)
    ensures Total(dictionary) == |Flatten(sources)|
    ensures dictionary == CountOf(Flatten(sources))
  {
    dictionary := map[];
    for i := 0 to |sources|
      invariant dictionary == CountOf(Flatten(sources[..i]))
    {
      var words := sources[i];
      ghost var before := Flatten(sources[..i]);
      assert before + words[..0] == before;
      for j := 0 to |words|
        invariant dictionary == CountOf(before + words[..j])
      {
        var word := words[j];
        dictionary := dictionary[word := Get(dictionary, word) + 1];
        assert before + words[..j + 1] == (before + words[..j]) + [word];
        CountOfSnoc(before + words[..j], word);
      }
      assert words[..|words|] == words;
      assert sources[..i + 1][..i] == sources[..i];
    }
    assert sources[..|sources|] == sources;
    CountOfMeaning(Flatten(sources));
    TotalCountOf(Flatten(sources));
  }

  /** `final_counter.update(counter)` for each worker's counter in order. */
  function CounterSum(counters: seq<Counter>): (total: Counter)
    ensures forall w :: w in total <==> exists c :: c in counters && w in c
  {
    if counters == [] then multiset{}
    else
      var init, last := counters[..|counters| - 1], counters[|counters| - 1];
      assert counters == init + [last];
      CounterSum(init) + last
  }

  /** Each URL's Counter records every word of that URL as often as it occurs there. */
  lemma PerUrlCounterCounts(sources: seq<seq<string>>)
    ensures forall i, w :: 0 <= i < |sources| ==> CounterOf(sources[i])[w] == Count(sources[i], w)
  {
    forall i, w | 0 <= i < |sources|
      ensures CounterOf(sources[i])[w] == Count(sources[i], w)
    {
      CounterCounts(sources[i], w);
    }
  }

  /** Each URL's dictionary has exactly that URL's words as keys and reads each word's number of occurrences there. */
  lemma PerUrlDictCounts(sources: seq<seq<string>>)
    ensures forall i, w :: 0 <= i < |sources| ==> (w in CountOf(sources[i]) <==> w in sources[i])
    ensures forall i, w :: 0 <= i < |sources| ==> Get(CountOf(sources[i]), w) == Count(sources[i], w)
  {
    forall i | 0 <= i < |sources|
      ensures forall w :: w in CountOf(sources[i]) <==> w in sources[i]
      ensures forall w :: Get(CountOf(sources[i]), w) == Count(sources[i], w)
    {
      CountOfMeaning(sources[i]);
    }
  }

  /**
   The workers' results of the Counter phase, `list(executor.map(parallel_counting_with_counter, work_items))`:
   entry `i` is the counter of URL `i`, in URL order.
   */
  function CounterPartials(sources: seq<seq<string>>): (cs: seq<Counter>)
    ensures |cs| == |sources|
    ensures forall i, w :: 0 <= i < |sources| ==> cs[i][w] == Count(sources[i], w)
  {
    PerUrlCounterCounts(sources);
    seq(|sources|, i requires 0 <= i < |sources| => CounterOf(sources[i]))
  }

  /**
   The workers' results of the dictionary phase, `list(executor.map(parallel_counting_with_dict, all_url_words))`:
   entry `i` has exactly the words of URL `i` as keys, each mapped to its number of occurrences there, in URL order.
   */
  function DictPartials(sources: seq<seq<string>>): (ds: seq<FreqMap>)
    ensures |ds| == |sources|
    ensures forall i, w :: 0 <= i < |sources| ==> (w in ds[i] <==> w in sources[i])
    ensures forall i, w :: 0 <= i < |sources| ==> Get(ds[i], w) == Count(sources[i], w)
  {
    PerUrlDictCounts(sources);
    seq(|sources|, i requires 0 <= i < |sources| => CountOf(sources[i]))
  }

  /** Adding up the per-URL counters gives the counter of the whole corpus. */
  lemma {:induction false} CounterSumIsCounterOfFlatten(sources: seq<seq<string>>)
    ensures CounterSum(CounterPartials(sources)) == CounterOf(Flatten(sources))
    decreases |sources|
  {
    if sources != [] {
      var n := |sources| - 1;
      assert CounterPartials(sources)[..n] == CounterPartials(sources[..n]);
      CounterSumIsCounterOfFlatten(sources[..n]);
    }
  }

  /**
   The Counter phase of `parallel_benchmark`: fails on the worker split when there
   are no URLs; otherwise the merged counter equals the count of the whole corpus.
   */
  function ParallelCounter(sources: seq<seq<string>>, cpuCount: Option<nat>): (r: Result<Counter, BenchmarkError>)
    ensures r.Failure? <==> |sources| == 0
    ensures r.Success? ==> CounterToMap(r.value) == CountOf(Flatten(sources))
  {
    var split := UrlsPerWorker(|sources|, MaxWorkers(|sources|, cpuCount));
    if split.Failure? then Failure(split.error)
    else
      CounterSumIsCounterOfFlatten(sources);
      CounterStrategyCorrect(Flatten(sources));
      Success(CounterSum(CounterPartials(sources)))
  }

  /**
   The dictionary phase of `parallel_benchmark`: fails on the worker split when there
   are no URLs; otherwise the merged dictionary equals what the sequential dictionary
   loop builds for the same URLs, and its counts sum to the corpus size.
   */
  function ParallelDict(sources: seq<seq<string>>, cpuCount: Option<nat>): (r: Result<FreqMap, BenchmarkError>)
    ensures r.Failure? <==> |sources| == 0
    ensures r.Success? ==> r.value == CountOf(Flatten(sources))
    ensures r.Success? ==> Total(r.value) == |Flatten(sources)|
  {
    var split := UrlsPerWorker(|sources|, MaxWorkers(|sources|, cpuCount));
    if split.Failure? then Failure(split.error)
    else
      MergeCountsIsCountOfFlatten(sources);
      TotalCountOf(Flatten(sources));
      Success(MergeAll(DictPartials(sources)))
  }

  /**
   On a generated corpus the counts of the whole run sum to `num_urls * words_per_url`,
   and every counted word has `WordLength` letters.
   */
  lemma CorpusTotal(numUrls: nat, wordsPerUrl: nat, draws: seq<seq<nat>>)
    requires |draws| == numUrls
    requires forall i :: 0 <= i < numUrls ==> |draws[i]| == WordLength * wordsPerUrl && ValidDraws(draws[i])
    ensures Total(CountOf(Flatten(GenerateCorpus(numUrls, wordsPerUrl, draws)))) == numUrls * wordsPerUrl
    ensures forall w :: w in CountOf(Flatten(GenerateCorpus(numUrls, wordsPerUrl, draws))) ==> |w| == WordLength
  {
    var corpus := GenerateCorpus(numUrls, wordsPerUrl, draws);
    TotalCountOf(Flatten(corpus));
    forall w | w in CountOf(Flatten(corpus))
      ensures |w| == WordLength
    {
      FlattenMembership(corpus, w);
      var s :| s in corpus && w in s;
      var i :| 0 <= i < |corpus| && corpus[i] == s;
      var k :| 0 <= k < |s| && s[k] == w;
    }
  }
}
