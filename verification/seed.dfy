/**
 * The seed loader: every course read from the data file gets a zeroed rating,
 * as does each of its chapters, and is inserted into the collection.
 */
module Seed {
  import opened Wrappers
  import opened Ratings
  import opened Catalog
  import opened Seqs

  /**
   * How `populate_db` ends: it returns `True`, returns `False` because the
   * collection is undefined, or raises the `TypeError` of iterating the
   * `None` that `course.get("chapters")` gives for a course without chapters.
   */
  datatype SeedOutcome = Seeded | NoCollection | Raised

  /** The collection after seeding (absent when it was undefined) and how seeding ended. */
  datatype SeedRun = SeedRun(collection: Option<Store>, outcome: SeedOutcome)

  predicate HasChapters(c: Course) {
    c.chapters.Some?
  }

  /**
   * A course as it is inserted: every field but `rating` unchanged, the
   * chapters in the same number and order with only their `rating` zeroed.
   * The result is well rated and its rating already equals its chapter
   * aggregate.
   */
  function ZeroRatings(c: Course): (r: Course)
    requires HasChapters(c)
    ensures Summarize(r) == Summarize(c)
    ensures r.rating == Some(Zero)
    ensures r.chapters.Some? && |r.chapters.value| == |c.chapters.value|
    ensures forall i :: 0 <= i < |c.chapters.value| ==>
      r.chapters.value[i] == Chapter(c.chapters.value[i].fields, Some(Zero))
    ensures WellRated(r)
    ensures ChapterSum(r.chapters.value) == r.rating
  {
    c.(rating := Some(Zero), chapters := Some(ZeroChapters(c.chapters.value)))
  }

  /** Each chapter's rating set to `{total: 0, count: 0}`, its fields kept; they sum to zero. */
  function ZeroChapters(chs: seq<Chapter>): (r: seq<Chapter>)
    ensures |r| == |chs|
    ensures forall i :: 0 <= i < |chs| ==> r[i] == Chapter(chs[i].fields, Some(Zero))
    ensures ChapterSum(r) == Some(Zero)
  {
    var zeroed := seq(|chs|, i requires 0 <= i < |chs| => chs[i].(rating := Some(Zero)));
    AllZeroSum(zeroed);
    zeroed
  }

  /** Chapters all rated zero sum to zero. */
  lemma {:induction false} AllZeroSum(chs: seq<Chapter>)
    requires forall i :: 0 <= i < |chs| ==> chs[i].rating == Some(Zero)
    ensures ChapterSum(chs) == Some(Zero)
    decreases |chs|
  {
    if |chs| > 0 {
      AllZeroSum(chs[1..]);
    }
  }

  /**
   * The courses the insert loop gets through, zeroed: one per input course,
   * in input order, up to the first course without a chapter list.
   */
  function Zeroed(courses: seq<Course>): (r: seq<Course>)
    ensures |r| == PrefixWhile(courses, HasChapters)
    ensures forall i :: 0 <= i < |r| ==> HasChapters(courses[i]) && r[i] == ZeroRatings(courses[i])
    decreases |courses|
  {
    if |courses| == 0 || !HasChapters(courses[0]) then []
    else
      var rest := Zeroed(courses[1..]);
      assert forall i :: 1 <= i < |courses| ==> courses[i] == courses[1..][i - 1];
      [ZeroRatings(courses[0])] + rest
  }

  /**
   * `populate_db`: with no collection nothing is inserted and the answer is
   * `False`; otherwise every course is inserted, zeroed, after the existing
   * documents, unless one without chapters raises part way.
   */
  function PopulateDb(collection: Option<Store>, courses: seq<Course>): (r: SeedRun)
    ensures r.outcome == NoCollection <==> collection.None?
    ensures r.collection.Some? <==> collection.Some?
    ensures collection.Some? ==>
      var k := PrefixWhile(courses, HasChapters);
      && (r.outcome == Seeded <==> k == |courses|)
      && |r.collection.value| == |collection.value| + k
      && r.collection.value[..|collection.value|] == collection.value
      && (forall i :: 0 <= i < k ==> r.collection.value[|collection.value| + i] == ZeroRatings(courses[i]))
  {
    match collection
    case None => SeedRun(None, NoCollection)
    case Some(store) =>
      var inserted := Zeroed(courses);
      SeedRun(Some(store + inserted), if |inserted| == |courses| then Seeded else Raised)
  }

  /**
   * Seeding a consistent collection with courses that all have chapter lists
   * succeeds, and the collection is consistent afterwards: every chapter is
   * rated and every rating keeps `|total| <= count`.
   */
  lemma SeedingEstablishesConsistency(store: Store, courses: seq<Course>)
    requires Consistent(store)
    requires forall i :: 0 <= i < |courses| ==> HasChapters(courses[i])
    ensures PopulateDb(Some(store), courses).outcome == Seeded
    ensures Consistent(PopulateDb(Some(store), courses).collection.value)
  {
    PrefixWhileAll(courses, HasChapters);
    var after := PopulateDb(Some(store), courses).collection.value;
    forall i | 0 <= i < |after|
      ensures WellRated(after[i])
    {
      if i < |store| {
        assert after[i] == after[..|store|][i];
      } else {
        assert after[i] == ZeroRatings(courses[i - |store|]);
      }
    }
  }
}
