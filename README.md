# Kanji quiz service: a Dafny model

This project models the curriculum and quiz engine of a kanji learning app, the
`KanjiService` of `src/services/KanjiService.js`. The service is built once
from a catalog of Joyo kanji records. It normalises every record into a
catalog item. It derives the grade levels (`LEVELS`: grades 1 to 6 and
secondary "S", each with a label, a note and an item count). It answers
lookups by level and labels, draws random items for a level, and builds
multiple-choice quizzes. The wrong answers are meanings of items of the base
pool with another id. The base pool is the level's items, or the whole
catalog when the level has none.

Modules:

- `Js` (`js.dfy`): the parts of the JavaScript runtime the service relies on:
  - truthiness of possibly absent values (`x || fallback`);
  - `String.prototype.trim`, with the ECMAScript whitespace set;
  - `filter`, `map` and `slice(0, end)` on sequences, including a negative `end`;
  - facts about sub-multisets and distinct keys.
- `Shuffle` (`shuffle.dfy`): `shuffle`, the service's Fisher-Yates copy-and-swap loop.
  - It is an imperative method over an array.
  - It is proved equal to the specification function `Shuffled` and to be a permutation.
  - `Math.random()` is an injected stream of draws in [0, 1), read at a cursor that each call advances.
- `KanjiService` (`kanji_service.dfy`): the record and item types, the grade constants, the constructor's normalisation, `LEVELS`, and the service operations.
  - The service object is never changed after construction, so it is a datatype and its methods are functions of it.
  - Operations that use randomness take the stream and a cursor, and return the advanced cursor with their result.
- `KanjiServiceProperties` (`kanji_service_properties.dfy`): properties of a service built from catalog data and of the quizzes it produces.

Where the code differs from what one might expect (the model follows the code):

- Distractors are excluded by id only, not by meaning value. In a pool of the
  item and one other item with the same meaning, both answers are that meaning
  (`SharedMeaningRepeats`), so answers are not always distinct.
- An unknown level id is not an error:
  - `getByLevel` returns no items for an id that no item has as its grade;
  - when no item of that grade has a meaning, `getRandomKanjis` and `generateQuiz` fall back to the whole catalog;
  - `getLevelLabel` returns "Grade <id>".
- The candidate pool is filtered by `!!k.meaning`, which keeps the
  placeholder meaning. On a built catalog that filter keeps everything
  (`MeaningFiltersKeepAll`, `DistractorsOfMeaningfulPool`).
- Ids are not made unique. `k.id || idx + 1` gives a record without an id at
  index 0 and a record with id 1 the same id (`IdsCanCollide`). The lemmas
  about distinct picks and question ids therefore assume distinct catalog ids.
  That holds, for example, when no record has an id (`DefaultIdsDistinct`).

## Model

| member | source | states |
|---|---|---|
| Js.Trim | src/services/KanjiService.js:33 | `trim()` gives a result that neither starts nor ends with whitespace and is empty exactly when the input is all whitespace |
| Js.TrimIsSlice | src/services/KanjiService.js:33 | the trimmed meaning is a contiguous slice of the input with only whitespace cut off on either side |
| Js.Filter | src/services/KanjiService.js:60 | `filter` keeps exactly the elements satisfying the predicate, each with its full multiplicity, in source order |
| Js.SliceTo | src/services/KanjiService.js:71 | `slice(0, end)` is the prefix of length `min(end, n)`, or `max(n + end, 0)` for a negative `end` |
| Js.Map | src/services/KanjiService.js:78 | `map` gives one result per element, the `i`-th being the function applied to the `i`-th element |
| Shuffle.DrawIndex | src/services/KanjiService.js:23 | `Math.floor(Math.random() * (i + 1))` is an index in `0..i` |
| Shuffle.DrawIndexIsFloor | src/services/KanjiService.js:23 | the drawn index is the floor of `Math.random() * (i + 1)`: at most that product and more than it minus one |
| Shuffle.ScaleIsProduct | src/services/KanjiService.js:23 | the repeated addition `DrawIndex` rounds down equals the product `u * m` |
| Shuffle.ShuffleBelow | src/services/KanjiService.js:22-25 | the loop's result from any point on has the length of the array it starts from |
| Shuffle.ShuffleBelowPermutes | src/services/KanjiService.js:22-25 | the loop's result from any point on has the same multiset of elements as the array it starts from |
| Shuffle.Shuffled | src/services/KanjiService.js:20-27 | the value `shuffle` returns has the input's length and multiset of elements |
| Shuffle.CopyToArray | src/services/KanjiService.js:21 | `[...array]` is a fresh array holding the input's elements |
| Shuffle.SwapInPlace | src/services/KanjiService.js:24 | the destructuring assignment exchanges positions `i` and `j` and changes nothing else |
| Shuffle.Shuffle | src/services/KanjiService.js:20-27 | the copy-and-swap loop returns exactly `Shuffled(input)`, a permutation of the input, and makes `n - 1` draws for `n > 1` elements |
| Shuffle.ShuffledDistinct | src/services/KanjiService.js:20-27 | shuffling a sequence whose keys are distinct gives distinct keys |
| KanjiService.GradeOrderKeys | src/services/KanjiService.js:4-13 | the grades of `GRADE_ORDER` are non-empty, distinct, have non-empty labels and are exactly the keys of `GRADE_META` |
| KanjiService.NormaliseKanji | src/services/KanjiService.js:32-46 | every item gets a non-empty meaning (trimmed source meaning or "Meaning not available"), its grade or "S", and its id, or `idx + 1` when the id is missing or 0 |
| KanjiService.Normalise | src/services/KanjiService.js:32-47 | one item per raw record, in order, the `i`-th normalised with index `i` |
| KanjiService.LevelFor | src/services/KanjiService.js:15-17 | a level carries its id and the label and note `GRADE_META` gives it |
| KanjiService.Levels | src/services/KanjiService.js:15-18 | `LEVELS` has one entry per grade of `GRADE_ORDER`, in that order |
| KanjiService.NewService | src/services/KanjiService.js:30-48 | the constructor holds one normalised item per record, in order, and one level per grade of `GRADE_ORDER`, in order |
| KanjiService.HasMeaning | src/services/KanjiService.js:68 | `!!k.meaning`: the item's meaning is not empty |
| KanjiService.LevelKey | src/services/KanjiService.js:59 | the grade `getByLevel` selects is the level id when it is present and non-empty, and "S" otherwise |
| KanjiService.FindLevel | src/services/KanjiService.js:55 | `find` returns the first level with the id, and none exactly when no level has it |
| KanjiService.GetLevelLabel | src/services/KanjiService.js:54-56 | the first matching level's label, or "Grade <id>" when there is no match or its label is empty |
| KanjiService.GetByLevel | src/services/KanjiService.js:58-61 | exactly the items whose grade (or "S") is the level id (or "S"), with full multiplicity and in catalog order |
| KanjiService.BasePool | src/services/KanjiService.js:68-70 | the pool holds only items with a meaning that come from the catalog, is empty only when no item has a meaning, and holds only the level's items when the level has one with a meaning |
| KanjiService.LevelPoolEmpty | src/services/KanjiService.js:68 | the level pool is empty exactly when no catalog item of the level has a meaning |
| KanjiService.GetRandomKanjis | src/services/KanjiService.js:67-72 | returns `min(count, n)` items of the `n`-item base pool (`max(n + count, 0)` for a negative count), never more often than they occur there |
| KanjiService.CreateQuizQuestion | src/services/KanjiService.js:74-92 | the question carries the item's fields, its meaning as the correct answer among its answers, and `1 + min(3, d)` answers whose others are distractor meanings |
| KanjiService.DistractorMeanings | src/services/KanjiService.js:76-78 | the candidate wrong answers are non-empty, at most one per pool item, and include the meaning of every pool item with another id and a meaning |
| KanjiService.BuildQuestions | src/services/KanjiService.js:98 | question `i` is the question for selected item `i` |
| KanjiService.GenerateQuiz | src/services/KanjiService.js:94-99 | one question per item `getRandomKanjis` picks, in order, with distractors from the same base pool |
| KanjiServiceProperties.CatalogIsNormalised | src/services/KanjiService.js:63-65 | every item of `getAllJoyo()` has a non-empty meaning and a non-empty grade |
| KanjiServiceProperties.DefaultIdsDistinct | src/services/KanjiService.js:35 | records without ids are numbered `1..n` and so get distinct ids |
| KanjiServiceProperties.MeaningFiltersKeepAll | src/services/KanjiService.js:68-69 | on a built catalog the `!!k.meaning` filters keep every item of the level and of the catalog |
| KanjiServiceProperties.BasePoolOfService | src/services/KanjiService.js:95-96 | on a built catalog the base pool is the level's items, or the whole catalog when the level has none |
| KanjiServiceProperties.GetByLevelOfService | src/services/KanjiService.js:58-61 | on a built catalog every item `getByLevel` returns has the requested grade, and a missing id selects "S" |
| KanjiServiceProperties.LevelsPartitionCatalog | src/services/KanjiService.js:58-61 | an item is returned by `getByLevel(id)` for a non-empty `id` exactly when its grade is `id` |
| KanjiServiceProperties.GradeCountsAgree | src/services/KanjiService.js:16 | the count of raw records of a grade equals the number of items `getByLevel` returns for it |
| KanjiServiceProperties.LevelCountMatchesGetByLevel | src/services/KanjiService.js:50-52 | `getLevels()[i].count` is the length of `getByLevel(getLevels()[i].id)` |
| KanjiServiceProperties.KnownLevelLabel | src/services/KanjiService.js:54-56 | the label of the `i`-th grade is its `GRADE_META` label |
| KanjiServiceProperties.LevelLabelOfService | src/services/KanjiService.js:54-56 | `getLevelLabel` of a known grade is its `GRADE_META` label, and of any other id "Grade <id>" |
| KanjiServiceProperties.RandomKanjisDistinct | src/services/KanjiService.js:67-72 | with distinct catalog ids, `getRandomKanjis` never returns two items with one id |
| KanjiServiceProperties.QuizIdsDistinct | src/services/KanjiService.js:94-99 | with distinct catalog ids, no two questions of one quiz share an id |
| KanjiServiceProperties.QuestionShape | src/services/KanjiService.js:81 | a question's correct answer is among its one to four answers |
| KanjiServiceProperties.QuizShape | src/services/KanjiService.js:94-99 | a quiz has `min(count, n)` questions for a count `>= 0`, each answered by one of at most four answers and about an item of the base pool |
| KanjiServiceProperties.QuizLevelOfService | src/services/KanjiService.js:90 | when the level has items, every question's level is the requested grade |
| KanjiServiceProperties.AnswersFromPool | src/services/KanjiService.js:75-81 | every wrong answer is the meaning of a pool item with another id, and no answer is empty when the item has a meaning |
| KanjiServiceProperties.SharedMeaningRepeats | src/services/KanjiService.js:77 | in a pool of the item and one other-id item with the same meaning, both answers are that meaning, so answers need not be distinct |
| KanjiServiceProperties.DistractorCount | src/services/KanjiService.js:76-78 | in a pool with distinct ids and meanings, an item has one distractor per other pool item |
| KanjiServiceProperties.DistractorsOfMeaningfulPool | src/services/KanjiService.js:77 | on a pool where every item has a meaning, the `!!k.meaning` test drops nothing, so the distractors are those of all other-id pool items |
| KanjiServiceProperties.QuizAnswerCount | src/services/KanjiService.js:75-81 | each question has `1 + min(3, m)` answers, `m` being the number of base-pool items with another id |
| KanjiServiceProperties.IdsCanCollide | src/services/KanjiService.js:35 | a record without an id at index 0 and one with id 1 get the same id, so the catalog's ids need not be distinct |
| KanjiServiceProperties.FullQuestion | src/services/KanjiService.js:75-81 | a question for an item of a pool of at least four items with distinct ids and meanings has four answers |
| KanjiServiceProperties.FullAnswerSets | src/services/KanjiService.js:75-81 | with distinct ids and a base pool of at least four items, every question has four answers |

## Left out

- Loading the catalog from `../data/joyoKanji.json` (line 1) is not modelled. The catalog is a parameter of `NewService`, and its contents are not part of this model.
- `Math.random()` is modelled by an arbitrary stream of reals in [0, 1). Its uniform distribution, the resulting uniformity of the shuffle, and floating-point rounding of `Math.random() * (i + 1)` are not modelled.
- Default parameters are not modelled: `levelId = '1'` and `count = 10` of `getRandomKanjis`, and `questionCount = 10` and `levelId = '1'` of `generateQuiz`. The model takes both arguments explicitly, and `None` stands for a `null` level id.
- Dynamic typing is restricted:
  - ids are integers, never strings;
  - counts are integers, never `NaN` or fractions;
  - fields are either absent or of their expected type;
  - `getLevelLabel` receives a string.
- Shuffle.Shuffle: takes its input as a value, so the source's copy step has nothing to protect. Aliasing of the caller's array is not modelled.
- `getLevels()` and `getAllJoyo()` are plain accessors (`GetLevels`, `GetAllJoyo`). Their contents are stated by `LevelCountMatchesGetByLevel`, `Levels` and `CatalogIsNormalised`.
- The exported singleton instance (line 103) and the export of `LEVELS` and `GRADE_ORDER` (line 102) are not modelled. They stand for `NewService` applied to the catalog and for `Levels` and `GradeOrder`.
- Learner progress is not part of this model: mastery records, unlocking tiers, persistence (`ProgressService`) and the screens live outside `KanjiService.js`.
