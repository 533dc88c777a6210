/**
 * The course documents of the `courses` collection, their chapters, and the
 * per-course rating aggregate recomputed from the chapters.
 */
module Catalog {
  import opened Wrappers
  import opened Ratings

  /**
   * A chapter: its content fields, opaque to the service and never including
   * `rating`, and its optional rating sub-document.
   */
  datatype Chapter = Chapter(fields: map<string, string>, rating: Option<Rating>)

  /**
   * A course document. `chapters` and `rating` are optional because nothing
   * but the seed loader puts them there; `_id` is never exposed and is left out.
   */
  datatype Course = Course(
    name: string,
    date: string,
    description: string,
    domain: string,
    chapters: Option<seq<Chapter>>,
    rating: Option<Rating>)

  /** A listed course: the projection `{name, date, description, domain}` without `_id`. */
  datatype Summary = Summary(name: string, date: string, description: string, domain: string)

  function Summarize(c: Course): Summary {
    Summary(c.name, c.date, c.description, c.domain)
  }

  /** The collection, in its natural (insertion) order. */
  type Store = seq<Course>

  /** Python truthiness of a chapter dictionary: it is not empty. */
  predicate Truthy(ch: Chapter) {
    |ch.fields| > 0 || ch.rating.Some?
  }

  /** Every chapter carries a rating, so `chapter["rating"]` never raises. */
  predicate AllRated(chs: seq<Chapter>) {
    forall i :: 0 <= i < |chs| ==> chs[i].rating.Some?
  }

  /** Every rating that is present keeps its total within its count. */
  predicate AllBounded(chs: seq<Chapter>) {
    forall i :: 0 <= i < |chs| ==> chs[i].rating.Some? ==> Bounded(chs[i].rating.value)
  }

  /**
   * The sum of the chapters' ratings, `None` standing for the `KeyError` of an
   * unrated chapter. Defined when and only when every chapter is rated, and
   * bounded when every chapter rating is.
   */
  function ChapterSum(chs: seq<Chapter>): (r: Option<Rating>)
    ensures r.Some? <==> AllRated(chs)
    ensures r.Some? && AllBounded(chs) ==> Bounded(r.value)
    decreases |chs|
  {
    if |chs| == 0 then Some(Zero)
    else match (chs[0].rating, ChapterSum(chs[1..]))
      case (Some(first), Some(rest)) => Some(Plus(first, rest))
      case _ => None
  }

  /** Sums of optional ratings, failing when either part fails. */
  function Join(a: Option<Rating>, b: Option<Rating>): Option<Rating> {
    match (a, b)
    case (Some(x), Some(y)) => Some(Plus(x, y))
    case _ => None
  }

  /** The aggregate of a concatenation is the sum of the aggregates. */
  lemma {:induction false} ChapterSumAppend(a: seq<Chapter>, b: seq<Chapter>)
    ensures ChapterSum(a + b) == Join(ChapterSum(a), ChapterSum(b))
    decreases |a|
  {
    if |a| == 0 {
      assert a + b == b;
    } else {
      assert (a + b)[0] == a[0];
      assert (a + b)[1..] == a[1..] + b;
      ChapterSumAppend(a[1..], b);
    }
  }

  /** A single chapter contributes exactly its own rating. */
  lemma ChapterSumSingle(ch: Chapter)
    ensures ChapterSum([ch]) == ch.rating
  {
    assert [ch][1..] == [];
  }

  /**
   * The accumulation loop of the course listing, as written: running `total`
   * and `count` from zero, stopping with a `KeyError` at the first unrated
   * chapter. It computes the chapter aggregate.
   */
  method RecomputeCourseRating(chs: seq<Chapter>) returns (r: Option<Rating>)
    ensures r == ChapterSum(chs)
    ensures r.Some? <==> AllRated(chs)
  {
    var total, count := 0, 0;
    var i := 0;
    while i < |chs|
      invariant 0 <= i <= |chs|
      invariant ChapterSum(chs[..i]) == Some(Rating(total, count))
    {
      assert chs[..i + 1] == chs[..i] + [chs[i]];
      ChapterSumAppend(chs[..i], [chs[i]]);
      ChapterSumSingle(chs[i]);
      match chs[i].rating {
        case None =>
          ChapterSumAppend(chs[..i + 1], chs[i + 1..]);
          assert chs[..i + 1] + chs[i + 1..] == chs;
          return None;
        case Some(x) =>
          total := total + x.total;
          count := count + x.count;
      }
      i := i + 1;
    }
    assert chs[..i] == chs;
    r := Some(Rating(total, count));
  }

  /**
   * Replacing one chapter's rating by `x` moves the aggregate by exactly the
   * difference between `x` and the rating replaced.
   */
  lemma {:induction false} ChapterSumUpdate(chs: seq<Chapter>, k: nat, x: Rating)
    requires AllRated(chs) && k < |chs|
    ensures ChapterSum(chs[k := chs[k].(rating := Some(x))]) == Some(Rating(
      ChapterSum(chs).value.total - chs[k].rating.value.total + x.total,
      ChapterSum(chs).value.count - chs[k].rating.value.count + x.count))
    decreases |chs|
  {
    var chs' := chs[k := chs[k].(rating := Some(x))];
    if k == 0 {
      assert chs'[1..] == chs[1..];
    } else {
      assert chs'[1..] == chs[1..][k - 1 := chs[k].(rating := Some(x))];
      ChapterSumUpdate(chs[1..], k - 1, x);
    }
  }

  /** A vote `v` on one rated chapter moves the aggregate by exactly `{total: v, count: 1}`. */
  lemma VoteMovesSum(chs: seq<Chapter>, k: nat, v: int)
    requires AllRated(chs) && k < |chs|
    ensures ChapterSum(chs[k := chs[k].(rating := Some(Cast(chs[k].rating, v)))])
         == Some(Plus(ChapterSum(chs).value, Rating(v, 1)))
  {
    ChapterSumUpdate(chs, k, Cast(chs[k].rating, v));
  }

  /** A course whose rating can be recomputed: it has a chapter list and every chapter is rated. */
  predicate Aggregable(c: Course) {
    c.chapters.Some? && AllRated(c.chapters.value)
  }

  /** The course with its `rating` field overwritten by the chapter aggregate. */
  function Reaggregated(c: Course): Course
    requires Aggregable(c)
  {
    c.(rating := ChapterSum(c.chapters.value))
  }

  /**
   * The store invariant: every course has a chapter list, every chapter and
   * the course itself are rated, and every rating keeps `|total| <= count`.
   */
  predicate WellRated(c: Course) {
    && Aggregable(c)
    && AllBounded(c.chapters.value)
    && c.rating.Some?
    && Bounded(c.rating.value)
  }

  predicate Consistent(store: Store) {
    forall i :: 0 <= i < |store| ==> WellRated(store[i])
  }

  /** A re-aggregated well-rated course stays well rated. */
  lemma ReaggregatedWellRated(c: Course)
    requires WellRated(c)
    ensures WellRated(Reaggregated(c))
  {
  }
}
