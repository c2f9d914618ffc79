/** The fixed ten-item page window that every listing handler applies to
    its result set, with Python's slice semantics for the window bounds. */
module Pagination {
  import opened Wrappers

  const QuestionsPerPage: nat := 10

  /** The page number `request.args.get('page', 1, type=int)` yields: `None`
      stands for a missing or non-integer query parameter. */
  function PageNumber(arg: Option<int>): int {
    if arg.Some? then arg.value else 1
  }

  /** Python's normalisation of one slice bound against a length `n`:
      negative bounds count from the end, and both ends are clamped. */
  function SliceBound(i: int, n: nat): (b: nat)
    ensures b <= n
  {
    if i < 0 then (if i + n < 0 then 0 else i + n)
    else if i > n then n
    else i
  }

  /** Python's `s[start:end]`. */
  function PySlice<T>(s: seq<T>, start: int, end: int): seq<T> {
    var a, b := SliceBound(start, |s|), SliceBound(end, |s|);
    if a < b then s[a..b] else []
  }

  /** The page of `items` numbered `page`, as `questions[start:end]` with
      `start = (page - 1) * 10` and `end = start + 10`. Whatever the page
      number, it is a run of at most ten items of the list. */
  function Paginate<T>(page: int, items: seq<T>): (r: seq<T>)
    ensures |r| <= QuestionsPerPage
    ensures forall x :: x in r ==> x in items
  {
    var start := (page - 1) * QuestionsPerPage;
    var a, b := SliceBound(start, |items|), SliceBound(start + QuestionsPerPage, |items|);
    assert a < b ==> forall x :: x in items[a..b] ==> x in items;
    PySlice(items, start, start + QuestionsPerPage)
  }

  function Min(a: int, b: int): int {
    if a < b then a else b
  }

  /** For a page number of at least one, the page is the window of items
      `start .. start + 10` clamped to the list: empty exactly when `start`
      is past the end, otherwise ten items or the rest of the list. */
  lemma PageWindow<T>(page: int, items: seq<T>)
    requires page >= 1
    ensures var start := (page - 1) * QuestionsPerPage;
            var r := Paginate(page, items);
            && (|r| == 0 <==> start >= |items|)
            && (start < |items| ==> |r| == Min(QuestionsPerPage, |items| - start))
            && (forall k :: 0 <= k < |r| ==> r[k] == items[start + k])
  {
  }

  /** Item `i` of the list is shown on page `i / 10 + 1`, at position `i % 10`. */
  lemma PageOfIndex<T>(items: seq<T>, i: nat)
    requires i < |items|
    ensures var r := Paginate(i / QuestionsPerPage + 1, items);
            i % QuestionsPerPage < |r| && r[i % QuestionsPerPage] == items[i]
  {
  }

  /** Page numbers below one are not rejected: page 0 is always empty, and
      page -1 is Python's wrapped slice `[-20:-10]`, which holds items when
      the list has more than ten. */
  lemma NonPositivePages<T>(items: seq<T>)
    ensures Paginate(0, items) == []
    ensures |items| > QuestionsPerPage ==>
              Paginate(-1, items) == items[(if |items| < 20 then 0 else |items| - 20)..|items| - 10]
  {
  }
}
