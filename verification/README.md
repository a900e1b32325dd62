# Word-count benchmark and task list, modelled in Dafny

This project models two small Python programs.

**The word-count benchmark** is in `course_1/count_words_url.py`. It has two benchmark functions. Each one generates its own random corpus of five-letter words, one list per simulated URL. Each counts word frequencies two ways: with `collections.Counter`, and with a hand-written `dict.get(word, 0) + 1` loop. `benchmark_counter_vs_dict` runs both ways sequentially over its whole corpus. `parallel_benchmark` runs both ways in parallel: one work item per URL, handed to a pool of `max_workers` processes, and the per-URL results are merged point-wise. The program only times these runs and never compares their results. That the parallel result equals the sequential result for the same corpus is a property proved here. The model proves:

- every count equals the number of occurrences;
- the counts sum to the number of words, `num_urls * words_per_url` on a generated corpus;
- both strategies build the same dictionary;
- merging per-URL partial dictionaries gives the sequential result, whatever the merge order;
- the worker-count arithmetic: `min(num_urls, cpu_count or 1)`, then a floor division that raises when there are no URLs.

**The task list** is in `course_2/tasks.py`. It is a module-level list of strings with `add_task`, `remove_task` and `list_tasks`. The model proves:

- what each operation returns;
- that removal deletes only the first equal entry and keeps the order of the rest;
- that adding and then removing a new task restores the list.

Modules, one per concern:

- `Wrappers`: `Option` and `Result`.
- `Words`: the generator and the flattening of the corpus.
- `Frequency`: the reference meaning of a frequency map. `Count` gives occurrences, `CountOf` gives the map, `Total` gives the sum of its counts.
- `Strategies`: the Counter strategy and the dictionary strategy. A `Counter` is a `multiset<string>`.
- `Merge`: the fan-in merge.
- `Benchmark`: the sequential and parallel runners.
- `Tasks`: the task list.

With zero URLs, `max_workers` is `min(0, …) = 0`, and `num_urls // max_workers` at `course_1/count_words_url.py:56` raises `ZeroDivisionError` before any counting. `Benchmark.ParallelCounter` and `Benchmark.ParallelDict` therefore return `Failure(ZeroDivisionError)` exactly when there are no URLs. The sequential runner has no division and returns the empty map.

## Model

| member | source | states |
|---|---|---|
| Words.GenerateWord | course_1/count_words_url.py:10 | a generated word has exactly five letters, each from `ascii_lowercase`, and each letter decodes back to the draw that chose it |
| Words.GenerateWordInjective | course_1/count_words_url.py:10 | two draw sequences give the same word if and only if they are equal |
| Words.GenerateWords | course_1/count_words_url.py:9-10 | `generate_random_words(n)` returns exactly `n` words of length five over the lower-case alphabet, word `i` built from draws `5i..5i+5` |
| Words.GenerateCorpus | course_1/count_words_url.py:15 | the corpus has `num_urls` lists of `words_per_url` five-letter words over the lower-case alphabet, and `num_urls * words_per_url` words in all |
| Words.FlattenAppend | course_1/count_words_url.py:27-28 | traversing two groups of URLs one after the other visits the words of the first group, then those of the second |
| Words.FlattenLength | course_1/count_words_url.py:15 | when every URL has `words_per_url` words, the concatenated corpus has `num_urls * words_per_url` words |
| Words.FlattenMembership | course_1/count_words_url.py:27-28 | a word occurs in the traversal of all URLs exactly when it occurs in one of them |
| Frequency.CountAppend | course_1/count_words_url.py:26-29 | counting one URL after another adds up: a word's count in a concatenation is the sum of its counts in the parts |
| Frequency.CountPositive | course_1/count_words_url.py:45 | a word occurs in the input exactly when its count is positive |
| Frequency.Get | course_1/count_words_url.py:45 | `d.get(w, 0)` reads 0 for a word that is not a key |
| Frequency.Inc | course_1/count_words_url.py:45 | one `d[w] = d.get(w, 0) + 1` step adds `w` as a key, raises its count by one, and changes no other key |
| Frequency.CountOfMeaning | course_1/count_words_url.py:42-46 | the frequency map's keys are exactly the words that occur; each maps to its number of occurrences, which is at least 1 |
| Frequency.CountOfSnoc | course_1/count_words_url.py:44-45 | counting one more word is one increment step on the map of the words before it |
| Frequency.CountOfAppend | course_1/count_words_url.py:80-81 | the count of a word in a concatenation is the sum of its counts in the parts |
| Frequency.TotalRemove | course_1/count_words_url.py:69 | the sum of a map's counts splits at any key into that key's count plus the sum of the rest |
| Frequency.TotalInc | course_1/count_words_url.py:45 | one increment step raises the sum of all counts by exactly one |
| Frequency.TotalCountOf | course_1/count_words_url.py:43-46 | the counts of a word list sum to its length |
| Strategies.CounterOf | course_1/count_words_url.py:37 | `Counter(url_words)` holds exactly the words that occur, and its multiplicities add up to `len(url_words)` |
| Strategies.CounterToMap | course_1/count_words_url.py:37 | a Counter read as a dict has as keys exactly the words with positive multiplicity, and `get(w, 0)` equals the multiplicity |
| Strategies.CounterCounts | course_1/count_words_url.py:37 | `Counter(words)` records each word as many times as it occurs |
| Strategies.CounterStrategyCorrect | course_1/count_words_url.py:37 | the Counter strategy yields the reference frequency map |
| Strategies.CountWithDict | course_1/count_words_url.py:42-46 | the dict loop maps each word of the input to its occurrence count (at least 1), has no other key, and its counts sum to `len(url_words)` |
| Strategies.StrategiesAgree | course_1/count_words_url.py:35-46 | any dictionary meeting the dict loop's guarantee equals the Counter built from the same words: same keys, same counts |
| Merge.MergeInto | course_1/count_words_url.py:80-81 | merging one partial keeps every key of the accumulator and of the partial, and no other |
| Merge.MergeLoop | course_1/count_words_url.py:80-81 | looping over `d.items()` in any order yields the keys of both maps, with `acc.get(w, 0) + d.get(w, 0)` for every word |
| Merge.MergeIntoUnique | course_1/count_words_url.py:80-81 | a map with the keys of both inputs and their point-wise sums is their merge, so the order the loop visits keys in does not matter |
| Merge.SumAtAppend | course_1/count_words_url.py:78-81 | the summed counts of a word over two lists of partials add up |
| Merge.MergeAllPointwise | course_1/count_words_url.py:78-81 | `final_dict` has a key exactly when some partial has it, and `final_dict.get(w, 0)` is the sum of `d.get(w, 0)` over all partials |
| Merge.SumAtRemove | course_1/count_words_url.py:79 | taking one partial out of the list subtracts exactly its count for the word |
| Merge.SumAtPermutation | course_1/count_words_url.py:79 | the summed count of a word is the same for any reordering of the partials |
| Merge.MergeOrderIndependent | course_1/count_words_url.py:78-81 | merging the same partials in any order gives the same final dictionary |
| Merge.MergeAll | course_1/count_words_url.py:78-81 | folding the partial dictionaries into `final_dict` in order leaves as keys exactly the words that are a key of some partial |
| Merge.MergePartials | course_1/count_words_url.py:78-81 | the fan-in loop's result has exactly the keys of the partials and the point-wise sums of their counts |
| Merge.MergeCountOf | course_1/count_words_url.py:80-81 | merging the counts of two word lists gives the count of their concatenation |
| Merge.MergeCountsIsCountOfFlatten | course_1/count_words_url.py:77-81 | merging the per-URL counts equals counting all URLs' words concatenated |
| Benchmark.CpuOrOne | course_1/count_words_url.py:51 | `os.cpu_count() or 1` is at least 1 and is the CPU count whenever that is a positive number |
| Benchmark.MaxWorkers | course_1/count_words_url.py:51 | the worker count is the minimum of the URL count and the CPU count: at most each, equal to one of them, and 0 exactly when there are no URLs |
| Benchmark.UrlsPerWorker | course_1/count_words_url.py:56 | the floor division raises exactly when there are no workers; otherwise it is the quotient `q` with `q * workers <= num_urls < (q + 1) * workers` |
| Benchmark.SequentialCounter | course_1/count_words_url.py:19-21 | after `counter.update(words)` for every URL, the counter records each word of the corpus as often as it occurs |
| Benchmark.SequentialDict | course_1/count_words_url.py:26-29 | the nested dict loop maps each corpus word to its occurrence count, has no other keys, and its counts sum to the corpus size |
| Benchmark.PerUrlCounterCounts | course_1/count_words_url.py:35-39 | each worker's `Counter(url_words)` records every word as often as it occurs in that URL |
| Benchmark.CounterPartials | course_1/count_words_url.py:64 | the Counter phase yields one partial counter per URL, in URL order, entry `i` counting each word's occurrences in URL `i` |
| Benchmark.PerUrlDictCounts | course_1/count_words_url.py:42-46 | each worker's dictionary has exactly that URL's words as keys, and reads each word's number of occurrences in that URL |
| Benchmark.DictPartials | course_1/count_words_url.py:77 | the dict phase yields one partial dictionary per URL, in URL order; entry `i` has exactly URL `i`'s words as keys, each mapped to its occurrences there |
| Benchmark.CounterSum | course_1/count_words_url.py:67-71 | `final_counter.update(counter)` over all workers' counters holds exactly the words held by some worker's counter |
| Benchmark.CounterSumIsCounterOfFlatten | course_1/count_words_url.py:67-71 | adding the per-URL counters with `final_counter.update` gives the counter of the whole corpus |
| Benchmark.ParallelCounter | course_1/count_words_url.py:49-71 | the parallel Counter phase fails exactly when there are no URLs; otherwise the merged counter read as a dict is the corpus's frequency map |
| Benchmark.ParallelDict | course_1/count_words_url.py:74-81 | the parallel dict phase fails exactly when there are no URLs; otherwise the merged dict equals the sequential dict result, and its counts sum to the corpus size |
| Benchmark.CorpusTotal | course_1/count_words_url.py:15 | on a generated corpus the counts sum to `num_urls * words_per_url`, and every counted word has five letters |
| Tasks.AddTask | course_2/tasks.py:3-5 | `add_task(t)` appends `t` at the end, leaves earlier entries unchanged, adds one occurrence of `t`, and returns `Task '<t>' added.` |
| Tasks.FirstIndex | course_2/tasks.py:9 | the index `list.remove` targets holds the task, and no earlier entry equals it |
| Tasks.RemoveTask | course_2/tasks.py:7-12 | when `t` is listed, removes only its first occurrence, keeps the order of the rest, and returns `Task '<t>' removed.`; otherwise leaves the list unchanged and returns `Task not found.` |
| Tasks.ListRemove | course_2/tasks.py:9 | Python's `list.remove` on a list that holds the element shortens it by exactly one entry |
| Tasks.ListRemoveAtFirstIndex | course_2/tasks.py:9 | element-wise `list.remove` drops exactly the entry at the first matching index |
| Tasks.RemoveTaskIsListRemove | course_2/tasks.py:8-9 | the list `remove_task` leaves is the one Python's `list.remove` produces |
| Tasks.AddThenRemove | course_2/tasks.py:3-10 | adding a task that was absent and then removing it restores the original list |
| Tasks.DuplicatesKept | course_2/tasks.py:3-10 | adding the same task twice lists it two more times, and one removal leaves one copy listed |
| Tasks.TaskList.constructor | course_2/tasks.py:1 | the shared list starts empty, before the import-time example calls, which are not modelled |
| Tasks.TaskList.Add | course_2/tasks.py:3-5 | the shared list grows by the task at its end, and the confirmation is returned |
| Tasks.TaskList.Remove | course_2/tasks.py:7-12 | the shared list becomes `list.remove`'s result when the task is listed and is otherwise unchanged, with the matching reply |
| Tasks.TaskList.List | course_2/tasks.py:14-15 | `list_tasks()` returns the current list and has no licence to change anything |

## Left out

- Wall-clock timing (`time()` around each phase) and the returned durations: the runners are modelled by the counter or dictionary they build.
- All `print` progress output, including the worker ids carried by the Counter phase's work items: they are observational only.
- `ProcessPoolExecutor` dispatch is modelled as a sequential map of the worker function over the URLs (`Benchmark.CounterPartials`, `Benchmark.DictPartials`). Process isolation and scheduling are not modelled. Merge order is covered by `Merge.MergeOrderIndependent`.
- `os.cpu_count()` is a parameter of type `Option<nat>`, not a system query.
- Words.GenerateWords: `random.choices` is replaced by an explicit stream of alphabet indices, so uniformity of the draws is not modelled.
- The `__main__` driver of the benchmark: console I/O only.
- The example calls at module level in the task-list file. Besides printing, they add two tasks to the shared list and remove one, so after import the list is `["Buy groceries"]`. The model starts from the empty list of the module's first line (`Tasks.TaskList.constructor`), and the operations' contracts hold from any starting list.
- `course_2/flask_hello_name.py` and its HTTP tests: the behaviour is Flask routing and `jsonify`, which is library code and not part of this model.
- Words.GenerateWords, Words.GenerateCorpus, Benchmark.ParallelCounter, Benchmark.ParallelDict: negative configuration values are not modelled. The counts are `nat`, and the parallel runners take `num_urls` to be the number of URL lists. In Python a negative `range` bound gives an empty list, so a negative `words_per_url` would give a total of 0 rather than `num_urls * words_per_url`. A negative `num_urls` gives a negative `max_workers`, so the floor division does not raise; the run then fails inside the process-pool constructor, which is library code. The `__main__` driver calls both benchmarks only with their default sizes of 1000 URLs and 10000 words.
- Frequency.Get: the contract states only that an absent key reads as 0. For a present key the value is the stored count by definition, and the lemmas rely on that definition; adding it as a postcondition overloads the merge proofs.
- Tasks.ListRemove: the contract states only the length. Which entry is dropped is proved separately by `Tasks.ListRemoveAtFirstIndex`, and the change in contents by `Tasks.RemoveTask` together with `Tasks.RemoveTaskIsListRemove`.
- Tasks.TaskList.List: returns the list as a value. Python returns the live `tasks` object itself, so changes made through the returned reference, or later operations showing through it, are not modelled.
- Tasks.TaskList.Add, Tasks.TaskList.Remove: these state the change to the shared list through `old(...)`. The same guarantees are stated without state on `Tasks.AddTask` and `Tasks.RemoveTask`.
