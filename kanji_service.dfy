/** The curriculum and quiz engine of the kanji app: the catalog of Joyo
    kanji normalised from raw records, the grade levels with their item
    counts, lookup by level, random sampling and multiple-choice question
    building. The service object is never changed after it is built, so it is
    a value here and its methods are functions of it. */
module KanjiService {
  import opened Js
  import opened Shuffle

  /** A record of the raw catalog data; any field may be missing. */
  datatype RawKanji = RawKanji(
    id: Option<int>,
    kanji: Option<string>,
    oldForm: Option<string>,
    radical: Option<string>,
    strokes: Option<int>,
    grade: Option<string>,
    yearAdded: Option<int>,
    meaning: Option<string>,
    meanings: Option<seq<string>>,
    readingsOn: Option<seq<string>>,
    readingsKun: Option<seq<string>>)

  /** A catalog item after normalisation (the source's `old` field is `oldForm`). */
  datatype Kanji = Kanji(
    id: int,
    kanji: Option<string>,
    oldForm: Option<string>,
    radical: Option<string>,
    strokes: Option<int>,
    grade: string,
    yearAdded: Option<int>,
    meaning: string,
    meanings: seq<string>,
    readingsOn: seq<string>,
    readingsKun: seq<string>)

  datatype GradeInfo = GradeInfo(levelLabel: string, note: string)

  /** An entry of `LEVELS`. */
  datatype Level = Level(id: string, levelLabel: string, count: nat, note: string)

  /** The state of a `KanjiService`: its levels and its normalised catalog. */
  datatype Service = Service(levels: seq<Level>, joyo: seq<Kanji>)

  /** What `createQuizQuestion` returns (the source's `level` is the item's grade). */
  datatype Question = Question(
    id: int,
    kanji: Option<string>,
    correctAnswer: string,
    answers: seq<string>,
    radical: Option<string>,
    strokes: Option<int>,
    level: string)

  /** A result together with the random cursor after the draws made for it. */
  datatype Drawn<T> = Drawn(value: T, next: nat)

  /** `GRADE_ORDER`: the school grades 1 to 6, then secondary. */
  const GradeOrder: seq<string> := ["1", "2", "3", "4", "5", "6", "S"]

  /** `GRADE_META`. */
  const GradeMeta: map<string, GradeInfo> := map[
    "1" := GradeInfo("Grade 1", "Intro basics"),
    "2" := GradeInfo("Grade 2", "Early literacy"),
    "3" := GradeInfo("Grade 3", "Building fluency"),
    "4" := GradeInfo("Grade 4", "Mid-level practice"),
    "5" := GradeInfo("Grade 5", "Upper elementary"),
    "6" := GradeInfo("Grade 6", "Advanced elementary"),
    "S" := GradeInfo("Secondary (S)", "Junior high +")]

  /** The grades of `GRADE_ORDER` are non-empty, distinct, and exactly the
      keys of `GRADE_META`. */
  lemma GradeOrderKeys()
    ensures forall i :: 0 <= i < |GradeOrder| ==> GradeOrder[i] != "" && GradeOrder[i] in GradeMeta
    ensures forall i :: 0 <= i < |GradeOrder| ==> GradeMeta[GradeOrder[i]].levelLabel != ""
    ensures forall i, j :: 0 <= i < j < |GradeOrder| ==> GradeOrder[i] != GradeOrder[j]
    ensures forall id :: id in GradeMeta ==> exists i :: 0 <= i < |GradeOrder| && GradeOrder[i] == id
  {
    forall id | id in GradeMeta ensures exists i :: 0 <= i < |GradeOrder| && GradeOrder[i] == id {
      if id == "1" { assert GradeOrder[0] == id; }
      else if id == "2" { assert GradeOrder[1] == id; }
      else if id == "3" { assert GradeOrder[2] == id; }
      else if id == "4" { assert GradeOrder[3] == id; }
      else if id == "5" { assert GradeOrder[4] == id; }
      else if id == "6" { assert GradeOrder[5] == id; }
      else { assert GradeOrder[6] == id; }
    }
  }

  /** The meaning an item gets when its record has none. */
  const Placeholder: string := "Meaning not available"

  /** How many answers an answer set holds besides the correct one, at most. */
  const MaxDistractors: nat := 3

  /** `k.grade || 'S'` on a raw record. */
  function RawGrade(k: RawKanji): string
  {
    StrOr(k.grade, "S")
  }

  /** `k.grade || 'S'` on a catalog item. */
  function GradeOf(k: Kanji): string
  {
    StrOr(Some(k.grade), "S")
  }

  /** `k => (k.grade || 'S') === id` on raw records. */
  function RawInGrade(id: string): RawKanji -> bool
  {
    k => RawGrade(k) == id
  }

  /** `k => (k.grade || 'S') === id` on catalog items. */
  function InGrade(id: string): Kanji -> bool
  {
    k => GradeOf(k) == id
  }

  /** `!!k.meaning`. */
  predicate HasMeaning(k: Kanji)
  {
    k.meaning != ""
  }

  function KanjiId(k: Kanji): int
  {
    k.id
  }

  function QuestionId(q: Question): int
  {
    q.id
  }

  /** The trimmed meaning of a raw record, "" when it has none. */
  function TrimmedMeaning(k: RawKanji): string
  {
    Trim(StrOr(k.meaning, ""))
  }

  /** The constructor's mapping of the raw record at index `idx`. Every item
      gets a non-empty meaning: the trimmed source meaning, or the placeholder
      when that is absent or only whitespace. Its grade is the source grade,
      or "S" when missing; its id is the source id, or `idx + 1` when missing
      or 0. */
  function NormaliseKanji(k: RawKanji, idx: nat): (r: Kanji)
    ensures r.meaning != ""
    ensures TrimmedMeaning(k) != "" ==> r.meaning == TrimmedMeaning(k)
    ensures TrimmedMeaning(k) == "" <==> AllWhitespace(StrOr(k.meaning, ""))
    ensures TrimmedMeaning(k) == "" ==> r.meaning == Placeholder
    ensures r.grade != "" && r.grade == RawGrade(k)
    ensures k.id.Some? && k.id.value != 0 ==> r.id == k.id.value
    ensures k.id.None? || k.id.value == 0 ==> r.id == idx + 1
    ensures r.kanji == k.kanji
  {
    var meaning := TrimmedMeaning(k);
    Kanji(
      id := if k.id.Some? && k.id.value != 0 then k.id.value else idx + 1,
      kanji := k.kanji,
      oldForm := StrOrNull(k.oldForm),
      radical := StrOrNull(k.radical),
      strokes := IntOrNull(k.strokes),
      grade := StrOr(k.grade, "S"),
      yearAdded := IntOrNull(k.yearAdded),
      meaning := if meaning != "" then meaning else Placeholder,
      meanings := ListOrEmpty(k.meanings),
      readingsOn := ListOrEmpty(k.readingsOn),
      readingsKun := ListOrEmpty(k.readingsKun))
  }

  /** `JOYO_KANJI.map((k, idx) => ...)`: one item per record, in order. */
  function Normalise(raw: seq<RawKanji>): (joyo: seq<Kanji>)
    ensures |joyo| == |raw|
    ensures forall i :: 0 <= i < |raw| ==> joyo[i] == NormaliseKanji(raw[i], i)
  {
    seq(|raw|, i requires 0 <= i < |raw| => NormaliseKanji(raw[i], i))
  }

  /** The entry of `LEVELS` for grade `id`: its label and note from
      `GRADE_META`, and the number of raw records of that grade. */
  function LevelFor(raw: seq<RawKanji>, id: string): (l: Level)
    requires id in GradeMeta
    ensures l.id == id && l.levelLabel == GradeMeta[id].levelLabel && l.note == GradeMeta[id].note
  {
    Level(id, GradeMeta[id].levelLabel, |Filter(raw, RawInGrade(id))|, GradeMeta[id].note)
  }

  /** `LEVELS`: one entry per grade, in `GRADE_ORDER`. */
  function Levels(raw: seq<RawKanji>): (levels: seq<Level>)
    ensures |levels| == |GradeOrder|
    ensures forall i :: 0 <= i < |GradeOrder| ==> levels[i] == LevelFor(raw, GradeOrder[i])
  {
    seq(|GradeOrder|, i requires 0 <= i < |GradeOrder| => LevelFor(raw, GradeOrder[i]))
  }

  /** `new KanjiService()` over the catalog data `raw`. */
  function NewService(raw: seq<RawKanji>): (s: Service)
    ensures |s.joyo| == |raw| && forall i :: 0 <= i < |raw| ==> s.joyo[i] == NormaliseKanji(raw[i], i)
    ensures |s.levels| == |GradeOrder| && forall i :: 0 <= i < |GradeOrder| ==> s.levels[i].id == GradeOrder[i]
  {
    Service(Levels(raw), Normalise(raw))
  }

  /** `getLevels()`. */
  function GetLevels(s: Service): seq<Level>
  {
    s.levels
  }

  /** `getAllJoyo()`. */
  function GetAllJoyo(s: Service): seq<Kanji>
  {
    s.joyo
  }

  /** `levels.find(l => l.id === id)`: the first level with that id, if any. */
  function FindLevel(levels: seq<Level>, id: string): (r: Option<Level>)
    ensures r.None? <==> forall i :: 0 <= i < |levels| ==> levels[i].id != id
    ensures r.Some? ==> exists i :: 0 <= i < |levels| && levels[i] == r.value
                                  && forall k :: 0 <= k < i ==> levels[k].id != id
    ensures r.Some? ==> r.value.id == id
  {
    if levels == [] then None
    else if levels[0].id == id then Some(levels[0])
    else
      var r := FindLevel(levels[1..], id);
      assert r.Some? ==> exists i :: 1 <= i < |levels| && levels[i] == r.value
                                   && forall k :: 0 <= k < i ==> levels[k].id != id by {
        if r.Some? {
          var i :| 0 <= i < |levels[1..]| && levels[1..][i] == r.value
                   && forall k :: 0 <= k < i ==> levels[1..][k].id != id;
          assert levels[i + 1] == r.value;
          assert forall k :: 0 <= k < i + 1 ==> levels[k].id != id by {
            forall k | 0 <= k < i + 1 ensures levels[k].id != id {
              if k > 0 { assert levels[k] == levels[1..][k - 1]; }
            }
          }
        }
      }
      r
  }

  /** `getLevelLabel(levelId)`: the label of the first level with that id,
      falling back to "Grade <levelId>" when there is none or its label is
      empty. */
  function GetLevelLabel(s: Service, levelId: string): (r: string)
    ensures forall i :: 0 <= i < |s.levels| && s.levels[i].id == levelId
              && (forall k :: 0 <= k < i ==> s.levels[k].id != levelId)
              ==> r == if s.levels[i].levelLabel != "" then s.levels[i].levelLabel else "Grade " + levelId
    ensures (forall i :: 0 <= i < |s.levels| ==> s.levels[i].id != levelId)
            ==> r == "Grade " + levelId
  {
    var found := FindLevel(s.levels, levelId);
    if found.Some? && found.value.levelLabel != "" then found.value.levelLabel else "Grade " + levelId
  }

  /** `levelId || 'S'`: the grade `getByLevel` selects. */
  function LevelKey(levelId: Option<string>): (id: string)
    ensures id != ""
    ensures levelId.Some? && levelId.value != "" ==> id == levelId.value
    ensures levelId.None? || levelId.value == "" ==> id == "S"
  {
    StrOr(levelId, "S")
  }

  /** `getByLevel(levelId)`: exactly the catalog items whose grade (or "S"
      for a missing one) is `levelId`, or "S" for a missing `levelId`, each as
      often as in the catalog and in catalog order. */
  function GetByLevel(s: Service, levelId: Option<string>): (r: seq<Kanji>)
    ensures forall i :: 0 <= i < |r| ==> GradeOf(r[i]) == LevelKey(levelId)
    ensures multiset(r) <= multiset(s.joyo)
    ensures forall i :: 0 <= i < |s.joyo| && GradeOf(s.joyo[i]) == LevelKey(levelId)
                        ==> multiset(r)[s.joyo[i]] == multiset(s.joyo)[s.joyo[i]]
    ensures IsSubsequence(r, s.joyo)
  {
    Filter(s.joyo, InGrade(LevelKey(levelId)))
  }

  /** The pool `getRandomKanjis` and `generateQuiz` draw from: the level's
      items that have a meaning, or, when there are none, every catalog item
      that has one. It is empty only when no catalog item has a meaning. */
  function BasePool(s: Service, levelId: Option<string>): (base: seq<Kanji>)
    ensures forall i :: 0 <= i < |base| ==> HasMeaning(base[i])
    ensures multiset(base) <= multiset(s.joyo)
    ensures base == [] <==> forall i :: 0 <= i < |s.joyo| ==> !HasMeaning(s.joyo[i])
    ensures (exists i :: 0 <= i < |s.joyo| && HasMeaning(s.joyo[i]) && GradeOf(s.joyo[i]) == LevelKey(levelId))
            ==> forall i :: 0 <= i < |base| ==> GradeOf(base[i]) == LevelKey(levelId)
  {
    var pool := Filter(GetByLevel(s, levelId), HasMeaning);
    var fallbackPool := Filter(s.joyo, HasMeaning);
    LevelPoolFacts(s, levelId);
    FilterEmpty(s.joyo, HasMeaning);
    if |pool| > 0 then pool else fallbackPool
  }

  /** The level pool holds catalog items of the level only. */
  lemma LevelPoolFacts(s: Service, levelId: Option<string>)
    ensures var pool := Filter(GetByLevel(s, levelId), HasMeaning);
      && multiset(pool) <= multiset(s.joyo)
      && (forall i :: 0 <= i < |pool| ==> GradeOf(pool[i]) == LevelKey(levelId))
      && (pool == [] <==> !exists i :: 0 <= i < |s.joyo| && HasMeaning(s.joyo[i]) && GradeOf(s.joyo[i]) == LevelKey(levelId))
  {
    var byLevel := GetByLevel(s, levelId);
    var pool := Filter(byLevel, HasMeaning);
    forall i | 0 <= i < |pool| ensures GradeOf(pool[i]) == LevelKey(levelId) {
      assert pool[i] in multiset(byLevel);
    }
    LevelPoolEmpty(s, levelId);
  }

  /** The level pool is empty exactly when no catalog item of the level has
      a meaning. */
  lemma LevelPoolEmpty(s: Service, levelId: Option<string>)
    ensures Filter(GetByLevel(s, levelId), HasMeaning) == []
            <==> !exists i :: 0 <= i < |s.joyo| && HasMeaning(s.joyo[i]) && GradeOf(s.joyo[i]) == LevelKey(levelId)
  {
    var byLevel := GetByLevel(s, levelId);
    FilterEmpty(byLevel, HasMeaning);
    if i :| 0 <= i < |s.joyo| && HasMeaning(s.joyo[i]) && GradeOf(s.joyo[i]) == LevelKey(levelId) {
      var j := LevelMember(s, levelId, i);
      assert HasMeaning(byLevel[j]);
    }
    if j :| 0 <= j < |byLevel| && HasMeaning(byLevel[j]) {
      var i := IndexIn(byLevel[j], byLevel, s.joyo);
      assert GradeOf(s.joyo[i]) == LevelKey(levelId);
    }
  }

  /** A catalog item of the level is at some position of `getByLevel`. */
  lemma LevelMember(s: Service, levelId: Option<string>, i: nat) returns (j: nat)
    requires i < |s.joyo| && GradeOf(s.joyo[i]) == LevelKey(levelId)
    ensures j < |GetByLevel(s, levelId)| && GetByLevel(s, levelId)[j] == s.joyo[i]
  {
    var byLevel := GetByLevel(s, levelId);
    assert s.joyo[i] in multiset(byLevel);
    j :| 0 <= j < |byLevel| && byLevel[j] == s.joyo[i];
  }

  /** `getRandomKanjis(levelId, count)`: the first `Math.min(count, n)`
      items of a shuffle of the base pool of `n` items (a negative count
      slices from the back). No pool entry is picked more often than it
      occurs. */
  function GetRandomKanjis(s: Service, levelId: Option<string>, count: int, rng: Random, pos: nat)
    : (r: Drawn<seq<Kanji>>)
    ensures count >= 0 ==> |r.value| == Min(count, |BasePool(s, levelId)|)
    ensures count < 0 ==> |r.value| == Max(|BasePool(s, levelId)| + count, 0)
    ensures multiset(r.value) <= multiset(BasePool(s, levelId))
    ensures r.next == pos + DrawsFor(|BasePool(s, levelId)|)
  {
    var base := BasePool(s, levelId);
    var shuffled := Shuffled(base, rng, pos);
    var picked := SliceTo(shuffled, Min(count, |base|));
    PrefixSubMultiset(shuffled, |picked|);
    Drawn(picked, pos + DrawsFor(|base|))
  }

  /** The meanings `createQuizQuestion` picks wrong answers from: those of the
      pool items with a meaning and an id other than the item's, in pool
      order. An item sharing the correct meaning under another id is kept. */
  function DistractorMeanings(k: Kanji, pool: seq<Kanji>): (r: seq<string>)
    ensures |r| <= |pool|
    ensures forall i :: 0 <= i < |r| ==> r[i] != ""
    ensures forall i :: 0 <= i < |pool| && IsDistractor(k)(pool[i]) ==> pool[i].meaning in r
  {
    var meaning := (p: Kanji) => p.meaning;
    var r := Map(Filter(pool, IsDistractor(k)), meaning);
    assert forall i :: 0 <= i < |pool| && IsDistractor(k)(pool[i]) ==> pool[i].meaning in r by {
      forall i | 0 <= i < |pool| && IsDistractor(k)(pool[i]) ensures pool[i].meaning in r {
        FilterMapKeeps(pool, IsDistractor(k), meaning, i);
      }
    }
    r
  }

  /** `p => p.id !== kanji.id && !!p.meaning`: the pool items whose meaning
      may serve as a wrong answer for `k`. */
  function IsDistractor(k: Kanji): Kanji -> bool
  {
    (p: Kanji) => p.id != k.id && HasMeaning(p)
  }

  /** `p => p.id !== kanji.id`: the pool items other than `k` by id. */
  function OtherId(k: Kanji): Kanji -> bool
  {
    (p: Kanji) => p.id != k.id
  }

  /** `q` is the question built for item `k` against `pool`: it carries the
      item's id, glyph, radical, strokes and grade, its meaning is the correct
      answer and among the answers, and the other answers are at most three of
      the distractor meanings, each used no more often than it occurs. */
  predicate QuestionFor(q: Question, k: Kanji, pool: seq<Kanji>)
  {
    && q.id == k.id && q.kanji == k.kanji && q.radical == k.radical
    && q.strokes == k.strokes && q.level == k.grade
    && q.correctAnswer == k.meaning
    && k.meaning in q.answers
    && |q.answers| == 1 + Min(MaxDistractors, |DistractorMeanings(k, pool)|)
    && multiset(q.answers) - multiset{k.meaning} <= multiset(DistractorMeanings(k, pool))
  }

  /** `createQuizQuestion(kanji, pool)`: shuffles the distractor meanings,
      keeps the first three, and shuffles them with the correct meaning. When
      fewer than three distractors exist the question has fewer answers. */
  function CreateQuizQuestion(k: Kanji, pool: seq<Kanji>, rng: Random, pos: nat): (r: Drawn<Question>)
    ensures r.value.correctAnswer == k.meaning && k.meaning in r.value.answers
    ensures |r.value.answers| == 1 + Min(MaxDistractors, |DistractorMeanings(k, pool)|)
    ensures multiset(r.value.answers) - multiset{k.meaning} <= multiset(DistractorMeanings(k, pool))
    ensures r.value.id == k.id && r.value.level == k.grade
    ensures QuestionFor(r.value, k, pool)
  {
    var candidates := DistractorMeanings(k, pool);
    var shuffledWrong := Shuffled(candidates, rng, pos);
    var wrongAnswers := SliceTo(shuffledWrong, MaxDistractors);
    var afterWrong := pos + DrawsFor(|candidates|);
    var answers := Shuffled([k.meaning] + wrongAnswers, rng, afterWrong);
    PrefixSubMultiset(shuffledWrong, |wrongAnswers|);
    assert multiset(answers) == multiset{k.meaning} + multiset(wrongAnswers);
    assert k.meaning in multiset(answers);
    var q := Question(k.id, k.kanji, k.meaning, answers, k.radical, k.strokes, k.grade);
    Drawn(q, afterWrong + DrawsFor(|answers|))
  }

  /** `selected.map(k => createQuizQuestion(k, pool))`, threading the random
      cursor through the calls in order. */
  function BuildQuestions(selected: seq<Kanji>, pool: seq<Kanji>, rng: Random, pos: nat)
    : (r: Drawn<seq<Question>>)
    ensures |r.value| == |selected|
    ensures forall i :: 0 <= i < |selected| ==> QuestionFor(r.value[i], selected[i], pool)
  {
    if selected == [] then Drawn([], pos)
    else
      var first := CreateQuizQuestion(selected[0], pool, rng, pos);
      var rest := BuildQuestions(selected[1..], pool, rng, first.next);
      Drawn([first.value] + rest.value, rest.next)
  }

  /** `generateQuiz(questionCount, levelId)`: question `i` is built for the
      `i`-th item `getRandomKanjis` picks, with distractors from the same base
      pool, so there are as many questions as picked items. */
  function GenerateQuiz(s: Service, count: int, levelId: Option<string>, rng: Random, pos: nat)
    : (r: Drawn<seq<Question>>)
    ensures var selected := GetRandomKanjis(s, levelId, count, rng, pos).value;
      && |r.value| == |selected|
      && forall i :: 0 <= i < |selected| ==> QuestionFor(r.value[i], selected[i], BasePool(s, levelId))
  {
    var basePool := BasePool(s, levelId);
    var selected := GetRandomKanjis(s, levelId, count, rng, pos);
    BuildQuestions(selected.value, basePool, rng, selected.next)
  }
}
