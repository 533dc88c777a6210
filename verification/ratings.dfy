/**
 * The rating sub-document `{total, count}` that chapters and courses carry,
 * and the arithmetic of a single vote.
 */
module Ratings {
  import opened Wrappers

  /** The sum of the votes cast and the number of votes cast. */
  datatype Rating = Rating(total: int, count: int)

  /** The zeroed rating written by the seed loader. */
  const Zero: Rating := Rating(0, 0)

  /** The rating route accepts a vote only under its query constraint `gt=-2, lt=2`. */
  predicate IsVote(v: int) {
    -2 < v < 2
  }

  /** No more votes in either direction than votes cast (so the count is never negative). */
  predicate Bounded(r: Rating) {
    -r.count <= r.total <= r.count
  }

  /** Field-wise sum of two ratings, as the course aggregation accumulates them. */
  function Plus(a: Rating, b: Rating): Rating {
    Rating(a.total + b.total, a.count + b.count)
  }

  /** The rating a chapter is treated as having before a vote: an absent one reads as zero. */
  function Prior(r: Option<Rating>): Rating {
    r.GetOr(Zero)
  }

  /**
   * The rating of a chapter after vote `v`: the `KeyError` branch that writes
   * `{total: v, count: 1}` is the in-place update applied to a zero rating, and
   * a vote keeps the bound between total and count.
   */
  function Cast(prior: Option<Rating>, v: int): (r: Rating)
    ensures r == Plus(Prior(prior), Rating(v, 1))
    ensures r.count > Prior(prior).count
    ensures IsVote(v) && Bounded(Prior(prior)) ==> Bounded(r)
  {
    match prior
    case None => Rating(v, 1)
    case Some(x) => Rating(x.total + v, x.count + 1)
  }

  /** The accepted votes are exactly -1, 0 and 1. */
  lemma VoteValues(v: int)
    ensures IsVote(v) <==> v == -1 || v == 0 || v == 1
  {
  }

  /** A vote of 1 and then a vote of -1 on an unrated chapter leave it at `{total: 0, count: 2}`. */
  lemma UpThenDown()
    ensures Cast(None, 1) == Rating(1, 1)
    ensures Cast(Some(Cast(None, 1)), -1) == Rating(0, 2)
  {
  }
}
