# Trivia API request-decision layer, in Dafny

This project models the request handlers of a Flask trivia-question API. The API has a
question bank and a category table. It lists categories, lists questions ten to a page,
deletes and creates questions, runs a case-insensitive substring search, lists the
questions of one category, and picks a quiz question at random. Each handler runs one
lookup or filter over the store, optionally takes a page, and decides the status code
(200, 201, 404, 422 or 500) and the JSON payload. The model replaces the database with an
in-memory store and proves what each handler answers and how it changes the store.

Modules. The last three follow the components of `backend/flaskr/__init__.py`; the
first two are support:

- `Wrappers` (`wrappers.dfy`): the `Option` type.
- `PyValues` (`pyvalues.dfy`): the values a decoded request body holds, and the
  Python semantics the handlers depend on: `dict.get`, comparison with `False`, and
  `str()` of a scalar, with a numeral round trip.
- `Pagination` (`pagination.dfy`): `paginate_questions`. The window is `[(p-1)*10 : (p-1)*10+10]`,
  with Python's slice rules, so the page numbers `0` and below behave as they do in Python.
- `Records` (`records.dfy`): the `Question` and `Category` rows. It also holds the equality
  filter (`filter_by`), the primary-key lookup, `one_or_none`, the SQL `LIKE`/`ILIKE` matcher
  (`%`, `_`, backslash escape), the id-to-type category map, and the column conversion applied
  when a row is inserted.
- `Api` (`api.dfy`): the response payloads, the error envelope, and the `TriviaStore` class.
  The class holds the question table (a `seq` that `DeleteQuestion` and `CreateQuestion`
  reassign), the category table and the id sequence. It has one method per handler.

Behaviour recorded as the code has it:

- Delete tests the class `Question` instead of the lookup result, so a missing id fails on
  `None.delete()`. The broad `except` then answers 500, not 404.
- Create rejects only values equal to `''`, or keys that are absent. The integer `0` passes
  validation.
- The quiz never uses `previous_questions` except to test that it is present. An id equal to
  `False`, which means `False` or `0`, selects every question. An id of `null` becomes
  `category IS NULL` and selects none, so the random pick fails with 500; `''` makes the
  query itself fail, also with 500.
- Search answers 200 with an empty page when there are matches but the page is past them.
  Its `total_questions` is the size of the whole table.
- Listing one category's questions answers 200 on an empty page.

## Model

| member | source | states |
|---|---|---|
| `Pagination.Paginate` | backend/flaskr/__init__.py:13-21 | For any page number, the page holds at most ten items, and every item comes from the list |
| `Pagination.PageWindow` | backend/flaskr/__init__.py:13-21 | For page p ≥ 1, the page is the items from (p-1)*10 on, clamped to the list; it is empty exactly when (p-1)*10 ≥ length, and otherwise holds min(10, rest) items |
| `Pagination.PageOfIndex` | backend/flaskr/__init__.py:10-19 | Item i is shown on page i/10+1 at position i%10 |
| `Pagination.NonPositivePages` | backend/flaskr/__init__.py:14-19 | Page 0 is always empty; page -1 is Python's wrapped slice [-20:-10], which is non-empty for lists of more than ten |
| `PyValues.PyStr` | backend/flaskr/__init__.py:228 | `str()` of a string is the string itself; `str()` of an integer reads back as that integer |
| `PyValues.IntToStringRoundTrip` | backend/flaskr/__init__.py:228 | Parsing Python's decimal numeral for n gives n back |
| `Records.Filter` | backend/flaskr/__init__.py:260 | A filter keeps all and only the rows that satisfy the condition, and is no longer than the table |
| `Records.FindId` | backend/flaskr/__init__.py:147 | The primary-key lookup returns an index holding the id, or reports that no row has it |
| `Records.WithoutIdSplice` | backend/flaskr/__init__.py:147-152 | With unique ids, deleting the row at index i removes exactly that row and keeps the others in their order |
| `Records.WithoutMissingId` | backend/flaskr/__init__.py:147-152 | Deleting an id that no row has leaves the table as it is |
| `Records.LikeContains` | backend/flaskr/__init__.py:228 | For a term without `%`, `_` or backslash, the pattern `%term%` matches exactly the texts that contain the term |
| `Records.ILikeContains` | backend/flaskr/__init__.py:228 | For such a term, `ilike('%term%')` is a substring test after lower-casing both sides |
| `Records.CategoryMapOf` | backend/flaskr/__init__.py:74-76 | The map's keys are exactly the category ids |
| `Records.CategoryMapLastWins` | backend/flaskr/__init__.py:74-76 | Each id maps to the type of its last category in the list, so a later duplicate overwrites an earlier one |
| `Records.CategoryMapOfUnique` | backend/flaskr/__init__.py:119-121 | With unique ids, every category's id maps to its own type |
| `Records.IntColumnReadsNumeral` | backend/flaskr/__init__.py:192-195 | An integer column stores n whether the body sends it as a JSON number or as the numeral `str(n)` |
| `Api.ReadNewQuestion` | backend/flaskr/__init__.py:181-195 | A body with a field that is absent or equal to `''` is rejected; an accepted body yields exactly the four converted field values; any other rejection is a column refusing a value |
| `Api.FormBodyRoundTrip` | backend/flaskr/__init__.py:181-195 | A question with non-empty texts, sent with numbers as JSON numbers or as numeral strings, is read back unchanged, including a difficulty or category of 0 |
| `Api.SearchSelectsContaining` | backend/flaskr/__init__.py:224-232 | For a term without LIKE metacharacters, the search selects all and only the questions whose text contains the term case-insensitively, and finds none exactly when no text contains it |
| `Api.QuizCandidates` | backend/flaskr/__init__.py:291-294 | The candidates are the whole table when the id equals `False`; an id of `null` yields no candidates; otherwise they are exactly the questions of the category the id converts to. Evaluation fails when the selector is not an object with an `id`, or the id is some other value that does not convert |
| `Api.QuizIgnoresPrevious` | backend/flaskr/__init__.py:285-300 | Replacing one present `previous_questions` value by another changes none of the possible quiz responses |
| `Api.QuizMayRepeatPrevious` | backend/flaskr/__init__.py:285-300 | A question whose id is listed in `previous_questions` can still be returned |
| `Api.TriviaStore.BuildCategoryMap` | backend/flaskr/__init__.py:74-76 | The loop builds exactly the category map, with the category ids as its keys |
| `Api.TriviaStore.GetAllCategories` | backend/flaskr/__init__.py:65-85 | Answers 200 with the category map; on a store with unique ids, every category's id maps to its type |
| `Api.TriviaStore.GetAllQuestions` | backend/flaskr/__init__.py:113-133 | Answers 404 when the page is empty, otherwise 200 with the page, the size of the whole table and the category map; for p ≥ 1 it answers 404 exactly when (p-1)*10 ≥ the number of questions |
| `Api.TriviaStore.DeleteQuestion` | backend/flaskr/__init__.py:145-162 | An existing id: 200 with `deleted` equal to the id; exactly that row removed, the rest in order, and the id absent afterwards. A missing id: 500 and the table unchanged. Keeps unique ids |
| `Api.TriviaStore.CreateQuestion` | backend/flaskr/__init__.py:176-206 | A body with an empty or absent field, or a value a column refuses: 422 and the store unchanged. Otherwise 201, and exactly one row is appended with the next id and the four values. Keeps unique ids |
| `Api.TriviaStore.SearchQuestions` | backend/flaskr/__init__.py:220-241 | Term `''`: 422. No match: 404. Otherwise 200 with the page of matches and the size of the whole table. For a term without metacharacters, every returned question contains the term case-insensitively |
| `Api.TriviaStore.GetQuestionsByCategory` | backend/flaskr/__init__.py:254-268 | Answers 404 exactly when no category has the id, and 500 when several do. Otherwise 200 with the page of that category's questions, the unpaginated count and the id echoed; every returned question has that category |
| `Api.TriviaStore.PlayQuiz` | backend/flaskr/__init__.py:282-305 | A missing `quiz_category` or `previous_questions`: 404. No candidate, or a selector that fails: 500. Otherwise 200 with some candidate from the table |

## Left out

- Flask machinery is not modelled. That covers routing, JSON serialisation, `request.get_json()` (the body is always a decoded JSON object), the CORS set-up and `after_request` headers, and the index route `/`. This is framework plumbing with no decisions of its own.
- The database layer is not modelled: SQLAlchemy sessions, `setup_db`, and the persistence inside `insert()`/`delete()`. The tables are sequences that the methods reassign. A query returns rows in table order; the source issues no `ORDER BY`.
- Storage faults are not modelled. The model has no database fault that would take the `except` path of `get_all_categories` (500) or `search_questions` (404). The `except` paths of `delete_question` and `create_question` are taken only for the faults the model has: the missing row on delete (500) and a column refusing a value on create (422).
- `models.py` is not part of this model, so the column declarations are a guess. The model assumes NOT NULL columns: a string column for the two texts and an integer column for category and difficulty. It accepts only strings for the text columns. For the integer columns it accepts integers, and strings of decimal digits with an optional leading `-`. Every other value, `null` included, makes the insert fail with 422. This differs from Postgres in two known ways. First, Postgres converts a number or boolean to text when assigning it to a string column, so `{"question": 5, "answer": "a", "difficulty": 1, "category": 1}` is stored with the question "5" and answers 201, where the model answers 422. Second, Postgres integer input also accepts `"+5"` and `" 5"`, which the model refuses. Integer range limits of the columns are not modelled.
- `Records.Lower`, and therefore `ILike`, folds only the ASCII letters A-Z. The database's Unicode case folding is not modelled.
- `Api.TriviaStore.SearchQuestions`: requires the search term to be `null`, a boolean, an integer or a string. For a list or an object, the prefix `f'%{...}%'` would insert Python's `repr`, which is not modelled.
- `Api.TriviaStore.PlayQuiz`: the pick of `random.randint` is a nondeterministic valid index. Uniformity is not modelled.
- `Api.TriviaStore.DeleteQuestion`: requires unique question ids, as the primary key guarantees. The `MultipleResultsFound` case of `one_or_none()` is therefore not reachable.
- Query-string parsing is not modelled. `Pagination.PageNumber` takes `None` for a missing or non-integer `page`, which Werkzeug turns into 1.
- JSON floating-point numbers are not modelled (for example `0.0 == False` in the quiz).
- Console logging (`print(e)`) is not modelled.
