/** What the kanji service guarantees about a service built from catalog
    data, and about the quizzes it generates. */
module KanjiServiceProperties {
  import opened Js
  import opened Shuffle
  import opened KanjiService

  /** Every item of a built catalog has a non-empty meaning and a non-empty
      grade. */
  lemma CatalogIsNormalised(raw: seq<RawKanji>)
    ensures forall i :: 0 <= i < |GetAllJoyo(NewService(raw))| ==>
              HasMeaning(GetAllJoyo(NewService(raw))[i]) && GetAllJoyo(NewService(raw))[i].grade != ""
  {
    var joyo := NewService(raw).joyo;
    forall i | 0 <= i < |joyo| ensures HasMeaning(joyo[i]) && joyo[i].grade != "" {
      assert joyo[i] == NormaliseKanji(raw[i], i);
    }
  }

  /** When no record carries an id, the items are numbered 1, 2, ... and so
      have distinct ids. */
  lemma DefaultIdsDistinct(raw: seq<RawKanji>)
    requires forall i :: 0 <= i < |raw| ==> raw[i].id.None?
    ensures DistinctBy(GetAllJoyo(NewService(raw)), KanjiId)
    ensures forall i :: 0 <= i < |raw| ==> GetAllJoyo(NewService(raw))[i].id == i + 1
  {
    var joyo := NewService(raw).joyo;
    forall i | 0 <= i < |raw| ensures joyo[i].id == i + 1 {
      assert joyo[i] == NormaliseKanji(raw[i], i);
    }
  }

  /** `k.id || idx + 1` does not make ids unique: a record without an id at
      index 0 and a record with id 1 both get id 1. */
  lemma IdsCanCollide(a: RawKanji, b: RawKanji)
    requires a.id.None? && b.id == Some(1)
    ensures GetAllJoyo(NewService([a, b]))[0].id == GetAllJoyo(NewService([a, b]))[1].id == 1
    ensures !DistinctBy(GetAllJoyo(NewService([a, b])), KanjiId)
  {
    var joyo := GetAllJoyo(NewService([a, b]));
    assert KanjiId(joyo[0]) == KanjiId(joyo[1]);
  }

  /** The `!!k.meaning` filters of `getRandomKanjis` and `generateQuiz` keep
      every item of a built catalog, and every item of a level. */
  lemma MeaningFiltersKeepAll(raw: seq<RawKanji>, levelId: Option<string>)
    ensures Filter(GetByLevel(NewService(raw), levelId), HasMeaning) == GetByLevel(NewService(raw), levelId)
    ensures Filter(GetAllJoyo(NewService(raw)), HasMeaning) == GetAllJoyo(NewService(raw))
  {
    var s := NewService(raw);
    CatalogIsNormalised(raw);
    FilterKeepsAll(s.joyo, HasMeaning);
    LevelKeepsAll(s, levelId);
  }

  /** When every catalog item has a meaning, so does every item of a level. */
  lemma LevelKeepsAll(s: Service, levelId: Option<string>)
    requires forall i :: 0 <= i < |s.joyo| ==> HasMeaning(s.joyo[i])
    ensures Filter(GetByLevel(s, levelId), HasMeaning) == GetByLevel(s, levelId)
  {
    var byLevel := GetByLevel(s, levelId);
    forall j | 0 <= j < |byLevel| ensures HasMeaning(byLevel[j]) {
      var i := IndexIn(byLevel[j], byLevel, s.joyo);
    }
    FilterKeepsAll(byLevel, HasMeaning);
  }

  /** On a built catalog the base pool is the level's items, or the whole
      catalog when the level has none. */
  lemma BasePoolOfService(raw: seq<RawKanji>, levelId: Option<string>)
    ensures var s := NewService(raw);
      BasePool(s, levelId) == if |GetByLevel(s, levelId)| > 0 then GetByLevel(s, levelId) else GetAllJoyo(s)
  {
    MeaningFiltersKeepAll(raw, levelId);
  }

  /** On a built catalog `getByLevel` returns items whose own grade is the
      level asked for; a missing level id asks for "S". */
  lemma GetByLevelOfService(raw: seq<RawKanji>, levelId: Option<string>)
    ensures var r := GetByLevel(NewService(raw), levelId);
      forall i :: 0 <= i < |r| ==> r[i].grade == LevelKey(levelId)
    ensures levelId.None? ==> GetByLevel(NewService(raw), levelId) == GetByLevel(NewService(raw), Some("S"))
  {
    var s := NewService(raw);
    var r := GetByLevel(s, levelId);
    CatalogIsNormalised(raw);
    forall i | 0 <= i < |r| ensures r[i].grade == LevelKey(levelId) {
      var j := IndexIn(r[i], r, s.joyo);
      assert GradeOf(r[i]) == LevelKey(levelId);
      assert s.joyo[j].grade != "";
    }
  }

  /** Every catalog item is returned by `getByLevel(id)` for exactly the
      non-empty `id` that is its grade, so the levels split the catalog by
      grade. */
  lemma LevelsPartitionCatalog(raw: seq<RawKanji>, j: nat, id: string)
    requires j < |GetAllJoyo(NewService(raw))| && id != ""
    ensures var k := GetAllJoyo(NewService(raw))[j];
      k in GetByLevel(NewService(raw), Some(id)) <==> k.grade == id
  {
    var s := NewService(raw);
    var k := s.joyo[j];
    var byLevel := GetByLevel(s, Some(id));
    assert k == NormaliseKanji(raw[j], j);
    assert LevelKey(Some(id)) == id;
    if k.grade == id {
      assert GradeOf(s.joyo[j]) == id;
      assert multiset(byLevel)[k] == multiset(s.joyo)[k];
      assert k in multiset(byLevel);
    }
    if k in byLevel {
      var m :| 0 <= m < |byLevel| && byLevel[m] == k;
      assert GradeOf(byLevel[m]) == id;
    }
  }

  /** The number of raw records of a non-empty grade `id` is the number of
      items `getByLevel(id)` returns: normalisation keeps each record's grade. */
  lemma {:induction false} GradeCountsAgree(raw: seq<RawKanji>, id: string)
    requires id != ""
    ensures |Filter(raw, RawInGrade(id))| == |GetByLevel(NewService(raw), Some(id))|
  {
    var joyo := NewService(raw).joyo;
    forall m | 0 <= m < |raw|
      ensures RawInGrade(id)(raw[m]) == InGrade(id)(joyo[m])
    {
      assert joyo[m] == NormaliseKanji(raw[m], m);
    }
    FilterLengthsAgree(raw, RawInGrade(id), joyo, InGrade(id));
    assert LevelKey(Some(id)) == id;
  }

  /** `LEVELS[i].count` is the number of items `getByLevel(LEVELS[i].id)`
      returns. */
  lemma LevelCountMatchesGetByLevel(raw: seq<RawKanji>, i: nat)
    requires i < |GradeOrder|
    ensures var s := NewService(raw);
      GetLevels(s)[i].count == |GetByLevel(s, Some(GetLevels(s)[i].id))|
  {
    var id := GradeOrder[i];
    GradeOrderKeys();
    assert GetLevels(NewService(raw))[i] == LevelFor(raw, id);
    GradeCountsAgree(raw, id);
  }

  /** The label `getLevelLabel` gives the id of the `i`-th level. */
  lemma KnownLevelLabel(raw: seq<RawKanji>, i: nat)
    requires i < |GradeOrder|
    ensures GetLevelLabel(NewService(raw), GradeOrder[i]) == GradeMeta[GradeOrder[i]].levelLabel
  {
    var levels := NewService(raw).levels;
    GradeOrderKeys();
    assert levels[i] == LevelFor(raw, GradeOrder[i]);
    forall k | 0 <= k < i ensures levels[k].id != GradeOrder[i] {
      assert levels[k] == LevelFor(raw, GradeOrder[k]);
    }
  }

  /** `getLevelLabel` on a built service: the `GRADE_META` label of a known
      level id, and "Grade <id>" for any other id. */
  lemma LevelLabelOfService(raw: seq<RawKanji>, levelId: string)
    ensures levelId in GradeMeta ==> GetLevelLabel(NewService(raw), levelId) == GradeMeta[levelId].levelLabel
    ensures levelId !in GradeMeta ==> GetLevelLabel(NewService(raw), levelId) == "Grade " + levelId
  {
    var levels := NewService(raw).levels;
    GradeOrderKeys();
    if levelId in GradeMeta {
      var i :| 0 <= i < |GradeOrder| && GradeOrder[i] == levelId;
      KnownLevelLabel(raw, i);
    } else {
      forall i | 0 <= i < |levels| ensures levels[i].id != levelId {
        assert levels[i] == LevelFor(raw, GradeOrder[i]);
      }
    }
  }

  /** With distinct catalog ids, `getRandomKanjis` never returns two items
      with the same id. */
  lemma RandomKanjisDistinct(s: Service, levelId: Option<string>, count: int, rng: Random, pos: nat)
    requires DistinctBy(s.joyo, KanjiId)
    ensures DistinctBy(GetRandomKanjis(s, levelId, count, rng, pos).value, KanjiId)
  {
    var picked := GetRandomKanjis(s, levelId, count, rng, pos).value;
    assert multiset(picked) <= multiset(s.joyo);
    SubMultisetDistinct(picked, s.joyo, KanjiId);
  }

  /** With distinct catalog ids, no two questions of one quiz share an id. */
  lemma QuizIdsDistinct(s: Service, count: int, levelId: Option<string>, rng: Random, pos: nat)
    requires DistinctBy(s.joyo, KanjiId)
    ensures DistinctBy(GenerateQuiz(s, count, levelId, rng, pos).value, QuestionId)
  {
    var selected := GetRandomKanjis(s, levelId, count, rng, pos).value;
    var quiz := GenerateQuiz(s, count, levelId, rng, pos).value;
    RandomKanjisDistinct(s, levelId, count, rng, pos);
    forall i, j | 0 <= i < |quiz| && 0 <= j < |quiz| && i != j
      ensures QuestionId(quiz[i]) != QuestionId(quiz[j])
    {
      assert QuestionFor(quiz[i], selected[i], BasePool(s, levelId));
      assert QuestionFor(quiz[j], selected[j], BasePool(s, levelId));
      assert KanjiId(selected[i]) != KanjiId(selected[j]);
    }
  }

  /** A question's correct answer is among its answers, of which there are
      one to four. */
  lemma QuestionShape(q: Question, k: Kanji, pool: seq<Kanji>)
    requires QuestionFor(q, k, pool)
    ensures q.correctAnswer in q.answers && 1 <= |q.answers| <= 1 + MaxDistractors
  {
  }

  /** A quiz has `min(n, |base|)` questions for a count `n >= 0`; each
      question's item is drawn from the base pool, and its correct answer is
      among at most four answers. */
  lemma QuizShape(s: Service, count: int, levelId: Option<string>, rng: Random, pos: nat)
    ensures var quiz := GenerateQuiz(s, count, levelId, rng, pos).value;
      && (count >= 0 ==> |quiz| == Min(count, |BasePool(s, levelId)|))
      && forall i :: 0 <= i < |quiz| ==>
           && quiz[i].correctAnswer in quiz[i].answers
           && 1 <= |quiz[i].answers| <= 1 + MaxDistractors
           && exists k :: k in BasePool(s, levelId) && k.id == quiz[i].id
  {
    var base := BasePool(s, levelId);
    var selected := GetRandomKanjis(s, levelId, count, rng, pos).value;
    var quiz := GenerateQuiz(s, count, levelId, rng, pos).value;
    forall i | 0 <= i < |quiz|
      ensures && quiz[i].correctAnswer in quiz[i].answers
              && 1 <= |quiz[i].answers| <= 1 + MaxDistractors
              && exists k :: k in base && k.id == quiz[i].id
    {
      QuestionShape(quiz[i], selected[i], base);
      var j := IndexIn(selected[i], selected, base);
      assert base[j].id == quiz[i].id;
    }
  }

  /** On a built catalog whose level has items, every question of the quiz is
      of that level. */
  lemma QuizLevelOfService(raw: seq<RawKanji>, count: int, levelId: Option<string>, rng: Random, pos: nat)
    requires |GetByLevel(NewService(raw), levelId)| > 0
    ensures var quiz := GenerateQuiz(NewService(raw), count, levelId, rng, pos).value;
      forall i :: 0 <= i < |quiz| ==> quiz[i].level == LevelKey(levelId)
  {
    var s := NewService(raw);
    var base := BasePool(s, levelId);
    var selected := GetRandomKanjis(s, levelId, count, rng, pos).value;
    var quiz := GenerateQuiz(s, count, levelId, rng, pos).value;
    BasePoolOfService(raw, levelId);
    GetByLevelOfService(raw, levelId);
    forall i | 0 <= i < |quiz| ensures quiz[i].level == LevelKey(levelId) {
      assert QuestionFor(quiz[i], selected[i], base);
      var m := IndexIn(selected[i], selected, base);
      assert base[m].grade == LevelKey(levelId);
    }
  }

  /** Every answer of a question is its item's meaning or the meaning of a
      pool item with another id, and none is empty when the item has a
      meaning. */
  lemma AnswersFromPool(q: Question, k: Kanji, pool: seq<Kanji>)
    requires QuestionFor(q, k, pool)
    ensures forall i :: 0 <= i < |q.answers| && q.answers[i] != k.meaning ==>
              exists p :: p in pool && p.id != k.id && HasMeaning(p) && p.meaning == q.answers[i]
    ensures HasMeaning(k) ==> forall i :: 0 <= i < |q.answers| ==> q.answers[i] != ""
  {
    var eligible := Filter(pool, IsDistractor(k));
    var candidates := DistractorMeanings(k, pool);
    forall i | 0 <= i < |q.answers| && q.answers[i] != k.meaning
      ensures exists p :: p in pool && p.id != k.id && HasMeaning(p) && p.meaning == q.answers[i]
    {
      var a := q.answers[i];
      assert (multiset(q.answers) - multiset{k.meaning})[a] == multiset(q.answers)[a];
      assert a in multiset(candidates);
      var m :| 0 <= m < |candidates| && candidates[m] == a;
      assert eligible[m] in multiset(pool);
    }
  }

  /** Distractors are told apart from the item by id only: in a pool of the
      item and one other item with the same meaning, both answers of the
      question are that meaning. */
  lemma SharedMeaningRepeats(q: Question, k: Kanji, other: Kanji)
    requires HasMeaning(k) && other.id != k.id && other.meaning == k.meaning
    requires QuestionFor(q, k, [k, other])
    ensures q.answers == [k.meaning, k.meaning]
  {
    var pool := [k, other];
    var keep := IsDistractor(k);
    assert Filter(pool[1..], keep) == [other] by {
      assert pool[1..] == [other];
      assert Filter(pool[1..][1..], keep) == [];
    }
    assert Filter(pool, keep) == [other];
    assert DistractorMeanings(k, pool) == [k.meaning];
    assert |q.answers| == 2;
    forall i | 0 <= i < 2 ensures q.answers[i] == k.meaning {
      var a := q.answers[i];
      assert a in multiset(q.answers);
      assert (multiset(q.answers) - multiset{k.meaning})[a] <= multiset([k.meaning])[a];
    }
  }

  /** In a pool where every item has a meaning, the `!!k.meaning` test of
      `createQuizQuestion` drops nothing: the distractors are the meanings of
      all pool items with another id. */
  lemma DistractorsOfMeaningfulPool(k: Kanji, pool: seq<Kanji>)
    requires forall i :: 0 <= i < |pool| ==> HasMeaning(pool[i])
    ensures Filter(pool, IsDistractor(k)) == Filter(pool, OtherId(k))
    ensures |DistractorMeanings(k, pool)| == |Filter(pool, OtherId(k))|
  {
    FilterAgree(pool, IsDistractor(k), OtherId(k));
  }

  /** Each question of a quiz has its correct answer and `min(3, m)` wrong
      ones, where `m` is the number of base-pool items with another id than
      the question's item. */
  lemma QuizAnswerCount(s: Service, count: int, levelId: Option<string>, rng: Random, pos: nat)
    ensures var selected := GetRandomKanjis(s, levelId, count, rng, pos).value;
      var quiz := GenerateQuiz(s, count, levelId, rng, pos).value;
      forall i :: 0 <= i < |quiz| ==>
        |quiz[i].answers| == 1 + Min(MaxDistractors, |Filter(BasePool(s, levelId), OtherId(selected[i]))|)
  {
    var base := BasePool(s, levelId);
    var selected := GetRandomKanjis(s, levelId, count, rng, pos).value;
    var quiz := GenerateQuiz(s, count, levelId, rng, pos).value;
    forall i | 0 <= i < |quiz|
      ensures |quiz[i].answers| == 1 + Min(MaxDistractors, |Filter(base, OtherId(selected[i]))|)
    {
      assert QuestionFor(quiz[i], selected[i], base);
      DistractorsOfMeaningfulPool(selected[i], base);
    }
  }

  /** With distinct ids and a meaning on every pool item, an item of the pool
      has one distractor per other pool item. */
  lemma {:induction false} DistractorCount(k: Kanji, pool: seq<Kanji>)
    requires k in pool
    requires DistinctBy(pool, KanjiId)
    requires forall i :: 0 <= i < |pool| ==> HasMeaning(pool[i])
    ensures |DistractorMeanings(k, pool)| == |pool| - 1
  {
    var keep := IsDistractor(k);
    assert pool == [pool[0]] + pool[1..];
    assert DistinctBy(pool[1..], KanjiId) by {
      forall i, j | 0 <= i < |pool[1..]| && 0 <= j < |pool[1..]| && i != j
        ensures KanjiId(pool[1..][i]) != KanjiId(pool[1..][j])
      {
        assert pool[1..][i] == pool[i + 1] && pool[1..][j] == pool[j + 1];
      }
    }
    if pool[0].id == k.id {
      forall i | 0 <= i < |pool[1..]| ensures keep(pool[1..][i]) {
        assert KanjiId(pool[0]) != KanjiId(pool[i + 1]);
      }
      FilterKeepsAll(pool[1..], keep);
    } else {
      assert k in pool[1..];
      DistractorCount(k, pool[1..]);
    }
  }

  /** With distinct catalog ids and at least four items in the base pool,
      every question of a quiz has four answers: the correct one and three
      distractors. */
  lemma FullAnswerSets(s: Service, count: int, levelId: Option<string>, rng: Random, pos: nat)
    requires DistinctBy(s.joyo, KanjiId)
    requires |BasePool(s, levelId)| >= 1 + MaxDistractors
    ensures var quiz := GenerateQuiz(s, count, levelId, rng, pos).value;
      forall i :: 0 <= i < |quiz| ==> |quiz[i].answers| == 1 + MaxDistractors
  {
    var base := BasePool(s, levelId);
    var selected := GetRandomKanjis(s, levelId, count, rng, pos).value;
    var quiz := GenerateQuiz(s, count, levelId, rng, pos).value;
    SubMultisetDistinct(base, s.joyo, KanjiId);
    forall i | 0 <= i < |quiz| ensures |quiz[i].answers| == 1 + MaxDistractors {
      assert selected[i] in multiset(base);
      FullQuestion(quiz[i], selected[i], base);
    }
  }

  /** A question for an item of a pool of at least four items with distinct
      ids and meanings has four answers. */
  lemma FullQuestion(q: Question, k: Kanji, pool: seq<Kanji>)
    requires QuestionFor(q, k, pool) && k in pool
    requires DistinctBy(pool, KanjiId) && |pool| >= 1 + MaxDistractors
    requires forall i :: 0 <= i < |pool| ==> HasMeaning(pool[i])
    ensures |q.answers| == 1 + MaxDistractors
  {
    DistractorCount(k, pool);
  }
}
