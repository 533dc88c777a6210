/**
 * Walks through the routes: what an absent course answers on the single-course
 * and chapter routes, and the life of one seeded course from seeding through a
 * vote to the next listing.
 */
module Scenarios {
  import opened Wrappers
  import opened Ratings
  import opened Catalog
  import opened Indexing
  import opened Server
  import opened Seed

  /**
   * For a course that is not there, the read route and the rating route
   * disagree: reading answers 404, rating a well-formed id raises the
   * uncaught `TypeError` (a 500), and rating a malformed id answers 404
   * because `int()` fails first.
   */
  lemma AbsentCourseOutcomes(store: Store, name: string)
    requires FindCourse(store, name).None?
    ensures GetCourse(store, name) == NotFound(CourseNotFound)
    ensures GetChapter(store, name, "0") == NotFound(ChapterNotFound)
    ensures RateChapter(store, name, "0", 1).response == ServerError
    ensures RateChapter(store, name, "x", 1).response == NotFound(RateChapterNotFound)
    ensures RateChapter(store, name, "0", 2).response == Rejected
  {
    assert IsNumeral("0");
    assert "x"[0] == 'x' && !IsDigit('x');
    assert !IsSignedNumeral("x");
  }

  /** A course from the data file that the seed loader accepts and that has a first chapter. */
  predicate Seedable(c: Course) {
    HasChapters(c) && |c.chapters.value| > 0
  }

  /** Seeding an empty collection with one such course inserts it zeroed and answers `True`. */
  lemma SeedOne(c: Course)
    requires Seedable(c)
    ensures PopulateDb(Some([]), [c]) == SeedRun(Some([ZeroRatings(c)]), Seeded)
  {
    assert [c][1..] == [];
    var inserted := Zeroed([c]);
    assert inserted == [ZeroRatings(c)];
    assert [] + inserted == [ZeroRatings(c)];
  }

  /**
   * Its first chapter, asked for by any id that reads as 0 (`0`, `00`, `+0`,
   * `-0`), then reads with its own fields and `{total: 0, count: 0}`.
   */
  lemma ReadAfterSeed(c: Course, id: string)
    requires Seedable(c) && ParseInt(id) == Some(0)
    ensures GetChapter([ZeroRatings(c)], c.name, id) == Ok(Chapter(c.chapters.value[0].fields, Some(Zero)))
  {
    var seeded := [ZeroRatings(c)];
    var chs := ZeroRatings(c).chapters.value;
    assert Locate(seeded, c.name) == 0;
    assert FindChapters(seeded, c.name) == Some(chs);
    assert 0 % |chs| == 0;
    assert FindChapter(seeded, c.name, id) == Some(chs[0]);
    assert chs[0] == Chapter(c.chapters.value[0].fields, Some(Zero));
  }

  /** A freshly seeded course is consistent, its chapter `id` resolves, and its chapters sum to zero. */
  lemma SeededReady(c: Course, id: string)
    requires Seedable(c) && ParseInt(id) == Some(0)
    ensures Consistent([ZeroRatings(c)])
    ensures FindChapter([ZeroRatings(c)], c.name, id).Some?
    ensures ChapterSum(FindChapters([ZeroRatings(c)], c.name).value) == Some(Zero)
  {
    var seeded := [ZeroRatings(c)];
    ReadAfterSeed(c, id);
    assert Locate(seeded, c.name) == 0;
    assert FindChapters(seeded, c.name) == Some(ZeroRatings(c).chapters.value);
  }

  /** A vote of 1 on a freshly seeded course leaves the next listing's copy of it at `{total: 1, count: 1}`. */
  lemma SeededVoteAggregate(c: Course, id: string)
    requires Seedable(c) && ParseInt(id) == Some(0)
    ensures
      var rated := RateChapter([ZeroRatings(c)], c.name, id, 1).store;
      var found := FindCourse(GetCourses(rated, DefaultSortBy, None).store, c.name);
      found.Some? && found.value.rating == Some(Rating(1, 1))
  {
    SeededReady(c, id);
    UpVoteOnZero([ZeroRatings(c)], c.name, id);
  }

  /** On a consistent store, a vote of 1 on a course whose chapters sum to zero lists it at `{total: 1, count: 1}`. */
  lemma UpVoteOnZero(store: Store, name: string, id: string)
    requires Consistent(store) && FindChapter(store, name, id).Some?
    requires ChapterSum(FindChapters(store, name).value) == Some(Zero)
    ensures
      var rated := RateChapter(store, name, id, 1).store;
      var found := FindCourse(GetCourses(rated, DefaultSortBy, None).store, name);
      found.Some? && found.value.rating == Some(Rating(1, 1))
  {
    VoteReachesCourse(store, name, id, 1, DefaultSortBy, None);
    var rated := RateChapter(store, name, id, 1).store;
    var listed := GetCourses(rated, DefaultSortBy, None).store;
    PlusZeroVote(ChapterSum(FindChapters(store, name).value), FindCourse(listed, name).value.rating);
  }

  /** The aggregate `{0, 0}` moved by one vote of 1 is `{1, 1}`. */
  lemma PlusZeroVote(sum: Option<Rating>, moved: Option<Rating>)
    requires sum == Some(Zero) && moved == Some(Plus(sum.value, Rating(1, 1)))
    ensures moved == Some(Rating(1, 1))
  {
  }

  /**
   * After a vote of 1 on that chapter and the next listing, the course,
   * seeded at `{total: 0, count: 0}`, shows a rating of 1.
   */
  lemma ListAfterRate(c: Course, id: string)
    requires Seedable(c) && ParseInt(id) == Some(0)
    ensures
      var rated := RateChapter([ZeroRatings(c)], c.name, id, 1).store;
      var view := GetCourse(GetCourses(rated, DefaultSortBy, None).store, c.name);
      view.Ok? && view.body.rating == Number(1)
  {
    SeededVoteAggregate(c, id);
  }
}
