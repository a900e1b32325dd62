/**
 Workload generation for the word-count benchmark: random five-letter words over
 the lower-case ASCII alphabet, grouped into one list of words per simulated URL.
 The random number generator is replaced by an explicit stream of draws, one
 alphabet index per generated character.
 */
module Words {

  /** `string.ascii_lowercase` */
  const Alphabet: string := "abcdefghijklmnopqrstuvwxyz"

  /** The `k=5` of `random.choices`: every generated word has this many letters. */
  const WordLength: nat := 5

  /** One alphabet index per generated character. */
  ghost predicate ValidDraws(draws: seq<nat>)
  {
    forall i :: 0 <= i < |draws| ==> draws[i] < |Alphabet|
  }

  /** Position of a lower-case letter in the alphabet: the inverse of indexing `Alphabet`. */
  function LetterIndex(c: char): int
  {
    c as int - 'a' as int
  }

  /** Every letter of the alphabet decodes back to its own position. */
  lemma LetterIndexOfAlphabet(k: nat)
    requires k < |Alphabet|
    ensures LetterIndex(Alphabet[k]) == k
  {
  }

  /** One word `''.join(random.choices(string.ascii_lowercase, k=5))`, reading its letters from `draws`. */
  function GenerateWord(draws: seq<nat>): (w: string)
    requires |draws| == WordLength && ValidDraws(draws)
    ensures |w| == WordLength
    ensures forall j :: 0 <= j < |w| ==> w[j] in Alphabet
    ensures forall j :: 0 <= j < |w| ==> LetterIndex(w[j]) == draws[j]
  {
    var w := seq(WordLength, j requires 0 <= j < WordLength => Alphabet[draws[j]]);
    assert forall j :: 0 <= j < |w| ==> LetterIndex(w[j]) == draws[j] by {
      forall j | 0 <= j < |w| {
        LetterIndexOfAlphabet(draws[j]);
      }
    }
    w
  }

  /** The draws are recoverable from the word, so distinct draws give distinct words. */
  lemma GenerateWordInjective(d1: seq<nat>, d2: seq<nat>)
    requires |d1| == WordLength && ValidDraws(d1)
    requires |d2| == WordLength && ValidDraws(d2)
    ensures GenerateWord(d1) == GenerateWord(d2) <==> d1 == d2
  {
    if GenerateWord(d1) == GenerateWord(d2) {
      forall j | 0 <= j < WordLength
        ensures d1[j] == d2[j]
      {
        assert LetterIndex(GenerateWord(d1)[j]) == d1[j];
      }
    }
  }

  /** `generate_random_words(n)`: `n` words, consuming `WordLength` draws per word in order. */
  function GenerateWords(n: nat, draws: seq<nat>): (ws: seq<string>)
    requires |draws| == WordLength * n && ValidDraws(draws)
    ensures |ws| == n
    ensures forall i :: 0 <= i < n ==> |ws[i]| == WordLength
    ensures forall i, j :: 0 <= i < n && 0 <= j < |ws[i]| ==> ws[i][j] in Alphabet
    ensures forall i :: 0 <= i < n ==> ws[i] == GenerateWord(draws[WordLength * i .. WordLength * i + WordLength])
  {
    if n == 0 then []
    else
      var k := WordLength * (n - 1);
      var prefix := draws[..k];
      assert forall i :: 0 <= i < n - 1 ==>
        prefix[WordLength * i .. WordLength * i + WordLength] == draws[WordLength * i .. WordLength * i + WordLength];
      GenerateWords(n - 1, prefix) + [GenerateWord(draws[k..])]
  }

  /** The words of every URL in order: the traversal order of the nested benchmark loops. */
  function Flatten(sources: seq<seq<string>>): (ws: seq<string>)
  {
    if sources == [] then []
    else Flatten(sources[..|sources| - 1]) + sources[|sources| - 1]
  }

  /** Flattening distributes over concatenation of source lists. */
  lemma {:induction false} FlattenAppend(a: seq<seq<string>>, b: seq<seq<string>>)
    ensures Flatten(a + b) == Flatten(a) + Flatten(b)
    decreases |b|
  {
    if b == [] {
      assert a + b == a;
    } else {
      var n := |b| - 1;
      assert (a + b)[..|a + b| - 1] == a + b[..n];
      FlattenAppend(a, b[..n]);
    }
  }

  /** A word occurs in the flattened corpus exactly when it occurs in one of the sources. */
  lemma {:induction false} FlattenMembership(sources: seq<seq<string>>, w: string)
    ensures w in Flatten(sources) <==> exists s :: s in sources && w in s
    decreases |sources|
  {
    if sources != [] {
      var n := |sources| - 1;
      FlattenMembership(sources[..n], w);
      assert forall s :: s in sources <==> s in sources[..n] || s == sources[n];
    }
  }

  /** When every URL holds `wordsPerUrl` words, the corpus holds `|sources| * wordsPerUrl` words. */
  lemma {:induction false} FlattenLength(sources: seq<seq<string>>, wordsPerUrl: nat)
    requires forall i :: 0 <= i < |sources| ==> |sources[i]| == wordsPerUrl
    ensures |Flatten(sources)| == |sources| * wordsPerUrl
    decreases |sources|
  {
    if sources != [] {
      FlattenLength(sources[..|sources| - 1], wordsPerUrl);
      assert |sources| * wordsPerUrl == (|sources| - 1) * wordsPerUrl + wordsPerUrl;
    }
  }

  /** `[generate_random_words(words_per_url) for _ in range(num_urls)]`, one draw stream per URL. */
  function GenerateCorpus(numUrls: nat, wordsPerUrl: nat, draws: seq<seq<nat>>): (corpus: seq<seq<string>>)
    requires |draws| == numUrls
    requires forall i :: 0 <= i < numUrls ==> |draws[i]| == WordLength * wordsPerUrl && ValidDraws(draws[i])
    ensures |corpus| == numUrls
    ensures forall i :: 0 <= i < numUrls ==> |corpus[i]| == wordsPerUrl
    ensures forall i, k :: 0 <= i < numUrls && 0 <= k < wordsPerUrl ==> |corpus[i][k]| == WordLength
    ensures forall i, k, j :: 0 <= i < numUrls && 0 <= k < wordsPerUrl && 0 <= j < WordLength ==> corpus[i][k][j] in Alphabet
    ensures |Flatten(corpus)| == numUrls * wordsPerUrl
  {
    var corpus := seq(numUrls, i requires 0 <= i < numUrls => GenerateWords(wordsPerUrl, draws[i]));
    FlattenLength(corpus, wordsPerUrl);
    corpus
  }
}
