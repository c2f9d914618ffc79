/** The request-decision layer of the trivia API: each handler takes its
    request data, runs one query against an in-memory store, optionally
    paginates, and decides the status code and payload. */
module Api {
  import opened Wrappers
  import opened PyValues
  import opened Pagination
  import opened Records

  /** The JSON payload of a response. */
  datatype Payload =
    | CategoryList(categories: map<int, string>)
    | QuestionList(questions: seq<Question>, totalQuestions: nat, categories: map<int, string>)
    | QuestionDeleted(deleted: nat, message: string)
    | QuestionCreated(message: string)
    | SearchResult(questions: seq<Question>, totalQuestions: nat)
    | CategoryQuestions(questions: seq<Question>, totalQuestions: nat, currentCategory: nat)
    | QuizQuestion(question: Question)
    | ErrorEnvelope(error: int, message: string)

  datatype Response = Response(status: int, payload: Payload) {
    /** The `success` flag of the payload. */
    predicate Success() {
      !payload.ErrorEnvelope?
    }
  }

  /** The registered error handlers: status code to message. */
  const ErrorMessages: map<int, string> := map[
    404 := "Resource not found",
    422 := "Unprocessable request",
    400 := "bad request",
    500 := "An error has occured, please try again"
  ]

  /** The uniform error envelope that `abort(code)`, and any exception
      Flask turns into a 500, produce. */
  function ErrorResponse(code: int): (r: Response)
    requires code in ErrorMessages
    ensures r.status == code && !r.Success()
    ensures r.payload.error == code && r.payload.message == ErrorMessages[code]
  {
    Response(code, ErrorEnvelope(code, ErrorMessages[code]))
  }

  // ---------------------------------------------------------------------
  // Create: reading the new question out of the request body

  /** `data.get(key, '')`, the lookup the create handler uses. */
  function Field(body: Body, key: string): Value {
    Get(body, key, Str(""))
  }

  /** The create handler's validation: one of the four fields is absent or
      equal to `''`. A number, even `0`, is never equal to `''`. */
  predicate HasEmptyField(body: Body) {
    || Field(body, "question") == Str("")
    || Field(body, "answer") == Str("")
    || Field(body, "difficulty") == Str("")
    || Field(body, "category") == Str("")
  }

  /** The values a new row receives. */
  datatype NewQuestion = NewQuestion(question: string, answer: string, category: int, difficulty: int)

  /** The row `Question(...)` followed by `insert()` stores, or `None` when
      validation rejects the body or a column refuses a value (both 422). */
  function ReadNewQuestion(body: Body): (r: Option<NewQuestion>)
    ensures HasEmptyField(body) ==> r.None?
    ensures r.Some? ==>
              && TextColumn(Field(body, "question")) == Some(r.value.question)
              && TextColumn(Field(body, "answer")) == Some(r.value.answer)
              && IntColumn(Field(body, "category")) == Some(r.value.category)
              && IntColumn(Field(body, "difficulty")) == Some(r.value.difficulty)
    ensures r.None? && !HasEmptyField(body) ==>
              || TextColumn(Field(body, "question")).None?
              || TextColumn(Field(body, "answer")).None?
              || IntColumn(Field(body, "category")).None?
              || IntColumn(Field(body, "difficulty")).None?
  {
    if HasEmptyField(body) then None
    else
      var q := TextColumn(Field(body, "question"));
      var a := TextColumn(Field(body, "answer"));
      var c := IntColumn(Field(body, "category"));
      var d := IntColumn(Field(body, "difficulty"));
      if q.Some? && a.Some? && c.Some? && d.Some? then Some(NewQuestion(q.value, a.value, c.value, d.value))
      else None
  }

  /** The body the frontend's "Add" form sends for a question, with the
      numbers sent either as JSON numbers or as numeral strings. */
  function FormBody(n: NewQuestion, numbersAsText: bool): Body {
    map[
      "question" := Str(n.question),
      "answer" := Str(n.answer),
      "difficulty" := if numbersAsText then Str(IntToString(n.difficulty)) else Int(n.difficulty),
      "category" := if numbersAsText then Str(IntToString(n.category)) else Int(n.category)
    ]
  }

  /** Any question with non-empty texts survives the trip through a request
      body unchanged, numbers included, `0` among them. */
  lemma FormBodyRoundTrip(n: NewQuestion, numbersAsText: bool)
    requires n.question != "" && n.answer != ""
    ensures ReadNewQuestion(FormBody(n, numbersAsText)) == Some(n)
  {
    var body := FormBody(n, numbersAsText);
    IntToStringRoundTrip(n.difficulty);
    IntToStringRoundTrip(n.category);
    assert Field(body, "difficulty") != Str("") by {
      if numbersAsText {
        assert |IntToString(n.difficulty)| > 0;
      }
    }
    assert Field(body, "category") != Str("") by {
      if numbersAsText {
        assert |IntToString(n.category)| > 0;
      }
    }
  }

  // ---------------------------------------------------------------------
  // Search

  /** `data.get('searchTerm', None)` */
  function SearchTerm(body: Body): Value {
    Get(body, "searchTerm", Null)
  }

  /** `f'%{search_term}%'` */
  function SearchPattern(term: Value): string
    requires IsScalar(term)
  {
    "%" + PyStr(term) + "%"
  }

  /** For a term without LIKE metacharacters, the search selects all and
      only the questions whose text contains the term, ignoring case; it
      finds nothing exactly when no question contains it. */
  lemma SearchSelectsContaining(qs: seq<Question>, term: Value)
    requires IsScalar(term) && NoLikeMeta(PyStr(term))
    ensures forall q :: q in Matching(qs, SearchPattern(term)) <==>
                          q in qs && ContainsSub(Lower(q.question), Lower(PyStr(term)))
    ensures |Matching(qs, SearchPattern(term))| == 0 <==>
              forall q :: q in qs ==> !ContainsSub(Lower(q.question), Lower(PyStr(term)))
  {
    var selection := Matching(qs, SearchPattern(term));
    forall q ensures q in selection <==> q in qs && ContainsSub(Lower(q.question), Lower(PyStr(term))) {
      ILikeContains(PyStr(term), q.question);
    }
    if |selection| > 0 {
      assert selection[0] in selection;
    }
  }

  // ---------------------------------------------------------------------
  // Quiz

  /** `data.get(key)` */
  function Param(body: Body, key: string): Value {
    Get(body, key, Null)
  }

  /** The candidate questions for the quiz category selector, or `None`
      when evaluating `quiz_category['id']` or the category query raises.
      An id of `null` becomes the query `category IS NULL`, which raises
      nothing and, on a NOT NULL column, finds no row. */
  function QuizCandidates(qs: seq<Question>, quizCategory: Value): (r: Option<seq<Question>>)
    ensures r.Some? <==> quizCategory.Obj? && "id" in quizCategory.fields &&
                         (|| EqualsFalse(quizCategory.fields["id"])
                          || quizCategory.fields["id"] == Null
                          || IntColumn(quizCategory.fields["id"]).Some?)
    ensures r.Some? && EqualsFalse(quizCategory.fields["id"]) ==> r.value == qs
    ensures r.Some? && quizCategory.fields["id"] == Null ==> r.value == []
    ensures r.Some? && !EqualsFalse(quizCategory.fields["id"]) && IntColumn(quizCategory.fields["id"]).Some? ==>
              forall q :: q in r.value <==> q in qs && q.category == IntColumn(quizCategory.fields["id"]).value
  {
    if !quizCategory.Obj? || "id" !in quizCategory.fields then None
    else
      var id := quizCategory.fields["id"];
      if EqualsFalse(id) then Some(qs)
      else if id == Null then Some([])
      else if IntColumn(id).Some? then Some(InCategory(qs, IntColumn(id).value))
      else None
  }

  /** The responses the quiz handler may give: the random pick is any
      candidate. `previous_questions` is only tested for presence. */
  predicate QuizOutcome(qs: seq<Question>, body: Body, r: Response) {
    if Param(body, "previous_questions") == Null || Param(body, "quiz_category") == Null then
      r == ErrorResponse(404)
    else
      var candidates := QuizCandidates(qs, Param(body, "quiz_category"));
      if candidates.None? || |candidates.value| == 0 then r == ErrorResponse(500)
      else r.status == 200 && r.payload.QuizQuestion? && r.payload.question in candidates.value
  }

  /** Replacing one present `previous_questions` list by another changes
      nothing about the possible responses. */
  lemma QuizIgnoresPrevious(qs: seq<Question>, body: Body, p1: Value, p2: Value, r: Response)
    requires p1 != Null && p2 != Null
    ensures QuizOutcome(qs, body["previous_questions" := p1], r) <==> QuizOutcome(qs, body["previous_questions" := p2], r)
  {
  }

  /** A question listed as already asked can be drawn again. */
  lemma QuizMayRepeatPrevious(q: Question)
    ensures var body := map["previous_questions" := Arr([Int(q.id)]), "quiz_category" := Obj(map["id" := Int(0)])];
            QuizOutcome([q], body, Response(200, QuizQuestion(q)))
  {
  }

  // ---------------------------------------------------------------------
  // The store

  class TriviaStore {
    /** The question table, in the order the query returns its rows. */
    var questions: seq<Question>
    /** The category table, seeded outside the API and never changed by it. */
    const categories: seq<Category>
    /** The next value of the question id sequence. */
    var nextId: int

    predicate Valid()
      reads this
    {
      UniqueQuestionIds(questions) && IdsBelow(questions, nextId) && UniqueCategoryIds(categories)
    }

    constructor (categories: seq<Category>, questions: seq<Question>, nextId: int)
      requires UniqueCategoryIds(categories) && UniqueQuestionIds(questions) && IdsBelow(questions, nextId)
      ensures Valid()
      ensures this.categories == categories && this.questions == questions && this.nextId == nextId
    {
      this.categories := categories;
      this.questions := questions;
      this.nextId := nextId;
    }

    /** The `for` loop that fills the id-to-type dictionary. */
    method BuildCategoryMap() returns (m: map<int, string>)
      ensures m == CategoryMapOf(categories)
      ensures m.Keys == set c | c in categories :: c.id
    {
      m := map[];
      for i := 0 to |categories|
        invariant m == CategoryMapOf(categories[..i])
      {
        assert categories[..i + 1][..i] == categories[..i];
        m := m[categories[i].id := categories[i].categoryType];
      }
      assert categories[..|categories|] == categories;
    }

    /** GET /categories */
    method GetAllCategories() returns (r: Response)
      ensures r.status == 200 && r.payload == CategoryList(CategoryMapOf(categories))
      ensures Valid() ==> forall c :: c in categories ==> r.payload.categories[c.id] == c.categoryType
    {
      var m := BuildCategoryMap();
      r := Response(200, CategoryList(m));
      if Valid() {
        CategoryMapOfUnique(categories);
        forall c | c in categories ensures m[c.id] == c.categoryType {
          var i :| 0 <= i < |categories| && categories[i] == c;
        }
      }
    }

    /** GET /questions?page=N */
    method GetAllQuestions(page: Option<int>) returns (r: Response)
      ensures var current := Paginate(PageNumber(page), questions);
              if |current| == 0 then r == ErrorResponse(404)
              else r == Response(200, QuestionList(current, |questions|, CategoryMapOf(categories)))
      ensures PageNumber(page) >= 1 ==>
                (r.status == 404 <==> (PageNumber(page) - 1) * QuestionsPerPage >= |questions|)
      ensures r.status == 200 || r.status == 404
    {
      var total := |questions|;
      var current := Paginate(PageNumber(page), questions);
      var categoryMap := BuildCategoryMap();
      if PageNumber(page) >= 1 {
        PageWindow(PageNumber(page), questions);
      }
      if |current| == 0 {
        r := ErrorResponse(404);
      } else {
        r := Response(200, QuestionList(current, total, categoryMap));
      }
    }

    /** DELETE /questions/<id>. The source's not-found guard tests the class
        rather than the lookup result, so a missing id fails on `None.delete()`
        and the broad `except` answers 500. */
    method DeleteQuestion(id: nat) returns (r: Response)
      requires Valid()
      modifies this`questions
      ensures Valid()
      ensures (exists q :: q in old(questions) && q.id == id) ==>
                && r == Response(200, QuestionDeleted(id, "Question successfully deleted"))
                && questions == WithoutId(old(questions), id)
                && |questions| == |old(questions)| - 1
                && (forall q :: q in questions ==> q.id != id)
                && (exists i :: 0 <= i < |old(questions)| && questions == old(questions)[..i] + old(questions)[i + 1..])
      ensures (forall q :: q in old(questions) ==> q.id != id) ==>
                r == ErrorResponse(500) && questions == old(questions)
    {
      var found := FindId(questions, id);
      if found.None? {
        r := ErrorResponse(500);
        return;
      }
      var i := found.value;
      WithoutIdSplice(questions, i);
      questions := questions[..i] + questions[i + 1..];
      r := Response(200, QuestionDeleted(id, "Question successfully deleted"));
    }

    /** POST /questions */
    method CreateQuestion(body: Body) returns (r: Response)
      requires Valid()
      modifies this`questions, this`nextId
      ensures Valid()
      ensures HasEmptyField(body) ==> r == ErrorResponse(422)
      ensures ReadNewQuestion(body).None? ==>
                r == ErrorResponse(422) && questions == old(questions) && nextId == old(nextId)
      ensures ReadNewQuestion(body).Some? ==>
                var n := ReadNewQuestion(body).value;
                && r == Response(201, QuestionCreated("Question successfully created!"))
                && questions == old(questions) + [Question(old(nextId), n.question, n.answer, n.category, n.difficulty)]
                && nextId == old(nextId) + 1
    {
      var question := Field(body, "question");
      var answer := Field(body, "answer");
      var difficulty := Field(body, "difficulty");
      var category := Field(body, "category");
      if question == Str("") || answer == Str("") || difficulty == Str("") || category == Str("") {
        r := ErrorResponse(422);
        return;
      }
      var q, a, c, d := TextColumn(question), TextColumn(answer), IntColumn(category), IntColumn(difficulty);
      if q.None? || a.None? || c.None? || d.None? {
        // the insert raises and the handler answers 422
        r := ErrorResponse(422);
        return;
      }
      questions := questions + [Question(nextId, q.value, a.value, c.value, d.value)];
      nextId := nextId + 1;
      r := Response(201, QuestionCreated("Question successfully created!"));
    }

    /** POST /questions/search */
    method SearchQuestions(body: Body, page: Option<int>) returns (r: Response)
      requires IsScalar(SearchTerm(body))
      ensures SearchTerm(body) == Str("") ==> r == ErrorResponse(422)
      ensures SearchTerm(body) != Str("") ==>
                var selection := Matching(questions, SearchPattern(SearchTerm(body)));
                if |selection| == 0 then r == ErrorResponse(404)
                else r == Response(200, SearchResult(Paginate(PageNumber(page), selection), |questions|))
      ensures r.status == 200 && NoLikeMeta(PyStr(SearchTerm(body))) ==>
                forall q :: q in r.payload.questions ==>
                  q in questions && ContainsSub(Lower(q.question), Lower(PyStr(SearchTerm(body))))
    {
      var term := SearchTerm(body);
      if term == Str("") {
        r := ErrorResponse(422);
        return;
      }
      var selection := Matching(questions, SearchPattern(term));
      var current := Paginate(PageNumber(page), selection);
      if |selection| == 0 {
        r := ErrorResponse(404);
        return;
      }
      r := Response(200, SearchResult(current, |questions|));
      if NoLikeMeta(PyStr(term)) {
        forall q | q in current
          ensures q in questions && ContainsSub(Lower(q.question), Lower(PyStr(term)))
        {
          ILikeContains(PyStr(term), q.question);
        }
      }
    }

    /** GET /categories/<id>/questions */
    method GetQuestionsByCategory(categoryId: nat, page: Option<int>) returns (r: Response)
      ensures var found := OneOrNone(CategoriesWithId(categories, categoryId));
              var selection := InCategory(questions, categoryId);
              && (found.NoRow? ==> r == ErrorResponse(404))
              && (found.ManyRows? ==> r == ErrorResponse(500))
              && (found.OneRow? ==>
                    r == Response(200, CategoryQuestions(Paginate(PageNumber(page), selection), |selection|, categoryId)))
      ensures r.status == 404 <==> forall c :: c in categories ==> c.id != categoryId
      ensures r.status == 200 ==> forall q :: q in r.payload.questions ==> q in questions && q.category == categoryId
    {
      var rows := CategoriesWithId(categories, categoryId);
      if |rows| > 0 {
        assert rows[0] in rows;
      }
      var found := OneOrNone(rows);
      if found.NoRow? {
        r := ErrorResponse(404);
        return;
      }
      if found.ManyRows? {
        // one_or_none() raises outside any handler's try
        r := ErrorResponse(500);
        return;
      }
      var selection := InCategory(questions, categoryId);
      r := Response(200, CategoryQuestions(Paginate(PageNumber(page), selection), |selection|, categoryId));
    }

    /** POST /quizzes. The pick is a nondeterministic valid index, standing
        for `random.randint(0, len(questions) - 1)`; with no candidate that
        call raises and Flask answers 500. */
    method PlayQuiz(body: Body) returns (r: Response)
      ensures QuizOutcome(questions, body, r)
      ensures Param(body, "previous_questions") == Null || Param(body, "quiz_category") == Null ==>
                r == ErrorResponse(404)
      ensures r.status == 200 ==> r.payload.QuizQuestion? && r.payload.question in questions
    {
      var previous := Param(body, "previous_questions");
      var quizCategory := Param(body, "quiz_category");
      if quizCategory == Null || previous == Null {
        r := ErrorResponse(404);
        return;
      }
      var candidates := QuizCandidates(questions, quizCategory);
      if candidates.None? || |candidates.value| == 0 {
        r := ErrorResponse(500);
        return;
      }
      var k :| 0 <= k < |candidates.value|;
      r := Response(200, QuizQuestion(candidates.value[k]));
    }
  }
}
