/** The two stored entities, the queries the handlers run over them
    (equality filters, `ilike`, primary-key lookup) and the id-to-type map
    shown to the frontend. */
module Records {
  import opened Wrappers
  import opened PyValues

  /** A row of the question table, which is also what `question.format()`
      returns. */
  datatype Question = Question(id: int, question: string, answer: string, category: int, difficulty: int)

  /** A row of the category table. */
  datatype Category = Category(id: int, categoryType: string)

  /** Primary keys: no two questions share an id. */
  predicate UniqueQuestionIds(qs: seq<Question>) {
    forall i, j :: 0 <= i < j < |qs| ==> qs[i].id != qs[j].id
  }

  /** Primary keys: no two categories share an id. */
  predicate UniqueCategoryIds(cs: seq<Category>) {
    forall i, j :: 0 <= i < j < |cs| ==> cs[i].id != cs[j].id
  }

  /** Every id lies below the next value of the id sequence. */
  predicate IdsBelow(qs: seq<Question>, next: int) {
    forall i :: 0 <= i < |qs| ==> qs[i].id < next
  }

  // ---------------------------------------------------------------------
  // Filters

  /** The rows of `s` that satisfy `p`, in their order. */
  function Filter<T(!new)>(s: seq<T>, p: T -> bool): (r: seq<T>)
    ensures |r| <= |s|
    ensures forall x :: x in r <==> x in s && p(x)
  {
    if |s| == 0 then []
    else
      assert forall x :: x in s <==> x == s[0] || x in s[1..];
      (if p(s[0]) then [s[0]] else []) + Filter(s[1..], p)
  }

  lemma {:induction false} FilterKeepsAll<T(!new)>(s: seq<T>, p: T -> bool)
    requires forall x :: x in s ==> p(x)
    ensures Filter(s, p) == s
  {
    if |s| > 0 {
      assert s[0] in s;
      assert forall x :: x in s[1..] ==> x in s;
      FilterKeepsAll(s[1..], p);
      assert s == [s[0]] + s[1..];
    }
  }

  /** `Question.query.filter_by(category=c).all()` */
  function InCategory(qs: seq<Question>, c: int): seq<Question> {
    Filter(qs, (q: Question) => q.category == c)
  }

  /** The table once the row with id `id` is deleted. */
  function WithoutId(qs: seq<Question>, id: int): seq<Question> {
    Filter(qs, (q: Question) => q.id != id)
  }

  /** Dropping the first row keeps the ids unique, and none of the others
      has the first row's id. */
  lemma UniqueTail(qs: seq<Question>)
    requires UniqueQuestionIds(qs) && |qs| > 0
    ensures UniqueQuestionIds(qs[1..])
    ensures forall x :: x in qs[1..] ==> x.id != qs[0].id
  {
  }

  lemma WithoutIdUnfold(qs: seq<Question>, id: int)
    requires |qs| > 0
    ensures WithoutId(qs, id) == (if qs[0].id != id then [qs[0]] else []) + WithoutId(qs[1..], id)
  {
  }

  /** With unique ids, deleting the row at index `i` removes that row and
      nothing else, and keeps the others in their order. */
  lemma {:induction false} WithoutIdSplice(qs: seq<Question>, i: nat)
    requires UniqueQuestionIds(qs) && i < |qs|
    ensures WithoutId(qs, qs[i].id) == qs[..i] + qs[i + 1..]
  {
    var id := qs[i].id;
    UniqueTail(qs);
    WithoutIdUnfold(qs, id);
    if i == 0 {
      WithoutMissingId(qs[1..], id);
    } else {
      var rest := qs[1..];
      assert rest[i - 1] == qs[i];
      WithoutIdSplice(rest, i - 1);
      assert qs[..i] + qs[i + 1..] == [qs[0]] + (rest[..i - 1] + rest[i..]);
    }
  }

  /** A table with no row for `id` is left as it is. */
  lemma WithoutMissingId(qs: seq<Question>, id: int)
    requires forall q :: q in qs ==> q.id != id
    ensures WithoutId(qs, id) == qs
  {
    FilterKeepsAll(qs, (q: Question) => q.id != id);
  }

  /** `Question.query.filter(Question.id == id).one_or_none()` on a table
      with unique ids: the index of the row with that id, if any. */
  function FindId(qs: seq<Question>, id: int): (r: Option<nat>)
    ensures r.Some? ==> r.value < |qs| && qs[r.value].id == id
    ensures r.None? ==> forall q :: q in qs ==> q.id != id
  {
    if |qs| == 0 then None
    else if qs[0].id == id then Some(0)
    else
      var r := FindId(qs[1..], id);
      assert forall q :: q in qs ==> q == qs[0] || q in qs[1..];
      if r.Some? then Some(r.value + 1) else None
  }

  /** What `one_or_none()` makes of a query's rows. */
  datatype Lookup<T> = NoRow | OneRow(row: T) | ManyRows

  function OneOrNone<T>(rows: seq<T>): (r: Lookup<T>)
    ensures r.NoRow? <==> |rows| == 0
    ensures r.OneRow? ==> rows == [r.row]
    ensures |rows| == 1 ==> r == OneRow(rows[0])
    ensures r.ManyRows? <==> |rows| >= 2
  {
    if |rows| == 0 then NoRow else if |rows| == 1 then OneRow(rows[0]) else ManyRows
  }

  /** `Category.query.filter_by(id=id)` */
  function CategoriesWithId(cs: seq<Category>, id: int): seq<Category> {
    Filter(cs, (c: Category) => c.id == id)
  }

  // ---------------------------------------------------------------------
  // Case-insensitive LIKE

  function LowerChar(c: char): char {
    if 'A' <= c <= 'Z' then ((c as int) + 32) as char else c
  }

  /** Lower-casing of ASCII letters; other characters are kept. */
  function Lower(s: string): (r: string)
    ensures |r| == |s| && forall i :: 0 <= i < |s| ==> r[i] == LowerChar(s[i])
  {
    seq(|s|, i requires 0 <= i < |s| => LowerChar(s[i]))
  }

  /** SQL `text LIKE pattern` with the default escape character: `%` matches
      any run of characters, `_` any one character, and a backslash makes
      the next character literal. */
  function LikeMatch(pattern: string, text: string): bool
    decreases |pattern| + |text|
  {
    if |pattern| == 0 then |text| == 0
    else if pattern[0] == '%' then
      LikeMatch(pattern[1..], text) || (|text| > 0 && LikeMatch(pattern, text[1..]))
    else if pattern[0] == '_' then
      |text| > 0 && LikeMatch(pattern[1..], text[1..])
    else if pattern[0] == '\\' && |pattern| >= 2 then
      |text| > 0 && text[0] == pattern[1] && LikeMatch(pattern[2..], text[1..])
    else
      |text| > 0 && text[0] == pattern[0] && LikeMatch(pattern[1..], text[1..])
  }

  /** SQL `text ILIKE pattern`. */
  predicate ILike(text: string, pattern: string) {
    LikeMatch(Lower(pattern), Lower(text))
  }

  /** `Question.query.filter(Question.question.ilike(pattern)).all()` */
  function Matching(qs: seq<Question>, pattern: string): seq<Question> {
    Filter(qs, (q: Question) => ILike(q.question, pattern))
  }

  predicate IsLikeMeta(c: char) {
    c == '%' || c == '_' || c == '\\'
  }

  /** A term that LIKE reads literally. */
  predicate NoLikeMeta(t: string) {
    forall i :: 0 <= i < |t| ==> !IsLikeMeta(t[i])
  }

  predicate PrefixOf(p: string, s: string) {
    |p| <= |s| && s[..|p|] == p
  }

  predicate ContainsSub(text: string, sub: string) {
    exists i :: 0 <= i <= |text| && PrefixOf(sub, text[i..])
  }

  lemma {:induction false} LikePercentMatchesAll(text: string)
    ensures LikeMatch("%", text)
    decreases |text|
  {
    if |text| > 0 {
      LikePercentMatchesAll(text[1..]);
    }
  }

  lemma {:induction false} LikeLiteralPrefix(t: string, text: string)
    requires NoLikeMeta(t)
    ensures LikeMatch(t + "%", text) <==> PrefixOf(t, text)
    decreases |t|
  {
    if |t| == 0 {
      assert t + "%" == "%";
      LikePercentMatchesAll(text);
    } else {
      var p := t + "%";
      assert p[0] == t[0] && !IsLikeMeta(t[0]);
      assert p[1..] == t[1..] + "%";
      if |text| > 0 {
        LikeLiteralPrefix(t[1..], text[1..]);
        assert PrefixOf(t, text) <==> text[0] == t[0] && PrefixOf(t[1..], text[1..]) by {
          if PrefixOf(t, text) {
            assert text[1..][..|t| - 1] == text[..|t|][1..];
          }
          if text[0] == t[0] && PrefixOf(t[1..], text[1..]) {
            assert text[..|t|] == [text[0]] + text[1..][..|t| - 1];
          }
        }
      }
    }
  }

  lemma {:induction false} LikeLeadingPercent(q: string, text: string)
    ensures LikeMatch("%" + q, text) <==> exists i :: 0 <= i <= |text| && LikeMatch(q, text[i..])
    decreases |text|
  {
    var p := "%" + q;
    assert p[1..] == q;
    assert text[0..] == text;
    if |text| > 0 {
      LikeLeadingPercent(q, text[1..]);
      assert forall i :: 0 <= i <= |text| - 1 ==> text[1..][i..] == text[i + 1..];
      if exists i :: 0 <= i <= |text| && LikeMatch(q, text[i..]) {
        var i :| 0 <= i <= |text| && LikeMatch(q, text[i..]);
        if i > 0 {
          assert LikeMatch(q, text[1..][i - 1..]);
        }
      }
    }
  }

  /** For a term without LIKE metacharacters, the pattern `%term%` matches
      exactly the texts that contain the term. */
  lemma LikeContains(t: string, text: string)
    requires NoLikeMeta(t)
    ensures LikeMatch("%" + t + "%", text) <==> ContainsSub(text, t)
  {
    assert "%" + t + "%" == "%" + (t + "%");
    LikeLeadingPercent(t + "%", text);
    forall i | 0 <= i <= |text|
      ensures LikeMatch(t + "%", text[i..]) <==> PrefixOf(t, text[i..])
    {
      LikeLiteralPrefix(t, text[i..]);
    }
  }

  /** For a term without LIKE metacharacters, `ilike('%term%')` is a
      case-insensitive substring test. */
  lemma ILikeContains(t: string, text: string)
    requires NoLikeMeta(t)
    ensures ILike(text, "%" + t + "%") <==> ContainsSub(Lower(text), Lower(t))
  {
    assert Lower("%" + t + "%") == "%" + Lower(t) + "%";
    LikeContains(Lower(t), Lower(text));
  }

  // ---------------------------------------------------------------------
  // The category map

  /** The dictionary the handlers build with
      `for category in categories: d[category.id] = category.type`. */
  function CategoryMapOf(cs: seq<Category>): (m: map<int, string>)
    ensures m.Keys == set c | c in cs :: c.id
  {
    if |cs| == 0 then map[]
    else
      var last := cs[|cs| - 1];
      assert forall c :: c in cs <==> c in cs[..|cs| - 1] || c == last;
      CategoryMapOf(cs[..|cs| - 1])[last.id := last.categoryType]
  }

  /** Each id is mapped to the type of its last category in the list: a
      later duplicate overwrites an earlier one. */
  lemma {:induction false} CategoryMapLastWins(cs: seq<Category>, i: nat)
    requires i < |cs|
    requires forall j :: i < j < |cs| ==> cs[j].id != cs[i].id
    ensures cs[i].id in CategoryMapOf(cs) && CategoryMapOf(cs)[cs[i].id] == cs[i].categoryType
  {
    if i < |cs| - 1 {
      CategoryMapLastWins(cs[..|cs| - 1], i);
    }
  }

  /** With unique ids, every category's id maps to its own type. */
  lemma CategoryMapOfUnique(cs: seq<Category>)
    requires UniqueCategoryIds(cs)
    ensures forall i :: 0 <= i < |cs| ==> CategoryMapOf(cs)[cs[i].id] == cs[i].categoryType
  {
    forall i | 0 <= i < |cs| ensures CategoryMapOf(cs)[cs[i].id] == cs[i].categoryType {
      CategoryMapLastWins(cs, i);
    }
  }

  // ---------------------------------------------------------------------
  // Column conversion

  /** What a text column stores for a JSON value. The column declarations
      are not part of this model; this assumes a NOT NULL string column that
      accepts strings only. */
  function TextColumn(v: Value): Option<string> {
    if v.Str? then Some(v.s) else None
  }

  /** What an integer column stores for a JSON value: an integer, or a
      string of decimal digits with an optional leading `-`. Assumes a NOT NULL integer
      column, as for `TextColumn`. */
  function IntColumn(v: Value): (r: Option<int>)
    ensures v.Int? ==> r == Some(v.n)
    ensures v.Str? ==> r == ParseInt(v.s)
    ensures r.Some? ==> v.Int? || (v.Str? && ParseInt(v.s) == r)
  {
    match v
    case Int(n) => Some(n)
    case Str(s) => ParseInt(s)
    case _ => None
  }

  /** An integer column stores `n` whether the body sends it as a JSON
      number or as the numeral `str(n)`. */
  lemma IntColumnReadsNumeral(n: int)
    ensures IntColumn(Int(n)) == Some(n)
    ensures IntColumn(Str(IntToString(n))) == Some(n)
  {
    IntToStringRoundTrip(n);
  }
}
