/**
 * The four HTTP routes of the course service and their helpers, as pure
 * functions over the collection. A route that writes returns the collection
 * after its writes together with its response.
 */
module Server {
  import opened Wrappers
  import opened Ratings
  import opened Catalog
  import opened Indexing
  import opened Seqs

  /**
   * What a route answers: a body, a 404 with its detail text, a 422 from the
   * query validation, or a 500 from an exception nobody catches.
   */
  datatype Response<T> = Ok(body: T) | NotFound(detail: string) | Rejected | ServerError

  /** The collection after a route ran, and the route's response. */
  datatype Handled<T> = Handled(store: Store, response: Response<T>)

  const CourseNotFound := "Course not found."
  const ChapterNotFound := "Chapter not found."
  /** The rating route spells its 404 detail without the final full stop. */
  const RateChapterNotFound := "Chapter not found"
  const NotRatedYet := "Not rated yet."

  // ---------------------------------------------------------------- lookups

  /**
   * The position of the first course called `name`, or `|store|` when there
   * is none: the document `find_one` and `update_one` with the filter
   * `{"name": name}` both select.
   */
  function Locate(store: Store, name: string): (k: nat)
    ensures k <= |store|
    ensures forall j :: 0 <= j < k ==> store[j].name != name
    ensures k < |store| ==> store[k].name == name
  {
    PrefixWhile(store, (c: Course) => c.name != name)
  }

  /** `find_course`: the first course with that name, if any. */
  function FindCourse(store: Store, name: string): (r: Option<Course>)
    ensures r.Some? <==> exists i :: 0 <= i < |store| && store[i].name == name
    ensures r.Some? ==> r.value.name == name && r.value in store
    ensures r.Some? ==> exists k :: 0 <= k < |store| && store[k] == r.value &&
                                    forall j :: 0 <= j < k ==> store[j].name != name
  {
    var k := Locate(store, name);
    if k < |store| then Some(store[k]) else None
  }

  /** `find_chapters`: the chapter list of the course, absent with the course or with its list. */
  function FindChapters(store: Store, name: string): (r: Option<seq<Chapter>>)
    ensures r.Some? <==> FindCourse(store, name).Some? && FindCourse(store, name).value.chapters.Some?
    ensures r.Some? ==> r == FindCourse(store, name).value.chapters
  {
    match FindCourse(store, name)
    case None => None
    case Some(c) => c.chapters
  }

  /**
   * `find_chapter`: every failure (absent course, absent or empty list,
   * unparsable id, index out of range) gives `None`; otherwise the chapter at
   * the id read with Python's negative-index rule.
   */
  function FindChapter(store: Store, name: string, id: string): (r: Option<Chapter>)
    ensures r.Some? <==>
      && FindChapters(store, name).Some?
      && ParseInt(id).Some?
      && -|FindChapters(store, name).value| <= ParseInt(id).value < |FindChapters(store, name).value|
    ensures r.Some? ==>
      var chs := FindChapters(store, name).value;
      r.value == chs[ParseInt(id).value % |chs|]
  {
    var chapters := FindChapters(store, name);
    if chapters.None? || |chapters.value| == 0 then None
    else match ParseInt(id)
      case None => None
      case Some(i) =>
        match Resolve(|chapters.value|, i)
        case None => None
        case Some(k) => Some(chapters.value[k])
  }

  /** The collection with the chapter list of the first course called `name` replaced: `update_one` with `$set`. */
  function SetChapters(store: Store, name: string, chs: seq<Chapter>): (r: Store)
    ensures |r| == |store|
    ensures forall j :: 0 <= j < |store| && j != Locate(store, name) ==> r[j] == store[j]
    ensures Locate(store, name) < |store| ==>
      r[Locate(store, name)] == store[Locate(store, name)].(chapters := Some(chs))
  {
    var k := Locate(store, name);
    if k < |store| then store[k := store[k].(chapters := Some(chs))] else store
  }

  /** Two collections with the same names in the same order locate every name alike. */
  lemma SameNamesSameLocate(a: Store, b: Store, name: string)
    requires |a| == |b|
    requires forall i :: 0 <= i < |a| ==> a[i].name == b[i].name
    ensures Locate(a, name) == Locate(b, name)
  {
  }

  // ------------------------------------------------------- GET /courses

  datatype Order = Ascending | Descending

  /** The sort key and direction handed to the database. */
  datatype SortSpec = SortSpec(field: string, order: Order)

  /**
   * The listing: the domain filter and sort chosen, and the summaries of the
   * matching courses in collection order, before the database sorts them.
   */
  datatype Listing = Listing(filter: Option<string>, sort: SortSpec, rows: seq<Summary>)

  const DefaultSortBy := "date"

  /** The `sort_by` selection: by date or by rating total descending, otherwise by name ascending. */
  function SortFor(sortBy: string): (r: SortSpec)
    ensures r.field == "date" <==> sortBy == "date"
    ensures r.field == "rating.total" <==> sortBy == "rating"
    ensures r.field == "name" <==> sortBy != "date" && sortBy != "rating"
    ensures r.order == Ascending <==> r.field == "name"
  {
    if sortBy == "date" then SortSpec("date", Descending)
    else if sortBy == "rating" then SortSpec("rating.total", Descending)
    else SortSpec("name", Ascending)
  }

  /** The query filter: `{"domain": domain}` exactly when `domain` is given and non-empty. */
  function DomainFilter(domain: Option<string>): (f: Option<string>)
    ensures f.Some? <==> domain.Some? && domain.value != ""
    ensures f.Some? ==> f == domain
  {
    if domain.Some? && |domain.value| > 0 then domain else None
  }

  predicate Matches(c: Course, filter: Option<string>) {
    filter.None? || c.domain == filter.value
  }

  /** The summaries of exactly the courses the filter matches, in collection order. */
  function Select(store: Store, filter: Option<string>): (rows: seq<Summary>)
    ensures |rows| <= |store|
    ensures forall row :: row in rows <==>
      exists i :: 0 <= i < |store| && Matches(store[i], filter) && row == Summarize(store[i])
    ensures filter.None? ==> |rows| == |store|
    decreases |store|
  {
    if |store| == 0 then []
    else
      var rest := Select(store[1..], filter);
      assert forall i :: 1 <= i < |store| ==> store[i] == store[1..][i - 1];
      if Matches(store[0], filter) then [Summarize(store[0])] + rest else rest
  }

  /** The outcome of the rating recompute: the collection after its writes, and whether it finished. */
  datatype Refreshed = Refreshed(store: Store, ok: bool)

  /**
   * The recompute loop of the listing: each course in turn gets the aggregate
   * of its chapters written to `rating`, until a course without a chapter
   * list or with an unrated chapter raises `KeyError`; the writes already
   * made stay.
   */
  function Refresh(store: Store): (r: Refreshed)
    ensures |r.store| == |store|
    ensures r.ok <==> PrefixWhile(store, Aggregable) == |store|
    ensures forall i :: 0 <= i < PrefixWhile(store, Aggregable) ==> r.store[i] == Reaggregated(store[i])
    ensures forall i :: PrefixWhile(store, Aggregable) <= i < |store| ==> r.store[i] == store[i]
    decreases |store|
  {
    if |store| == 0 then Refreshed([], true)
    else if !Aggregable(store[0]) then Refreshed(store, false)
    else
      var rest := Refresh(store[1..]);
      Refreshed([Reaggregated(store[0])] + rest.store, rest.ok)
  }

  /**
   * `GET /courses`: recompute every course rating, then list the matching
   * courses. A `KeyError` during the recompute becomes a server error with the
   * writes made so far kept.
   */
  function GetCourses(store: Store, sortBy: string, domain: Option<string>): (r: Handled<Listing>)
    ensures r.store == Refresh(store).store
    ensures r.response.Ok? || r.response.ServerError?
    ensures r.response.ServerError? <==> exists i :: 0 <= i < |store| && !Aggregable(store[i])
    ensures r.response.Ok? ==>
      && r.response.body.filter == DomainFilter(domain)
      && r.response.body.sort == SortFor(sortBy)
      && (forall i :: 0 <= i < |store| ==> r.store[i] == Reaggregated(store[i]))
      && (forall row :: row in r.response.body.rows <==>
            exists i :: 0 <= i < |r.store| && Matches(r.store[i], DomainFilter(domain)) && row == Summarize(r.store[i]))
  {
    var refreshed := Refresh(store);
    PrefixWhileAll(store, Aggregable);
    if !refreshed.ok then Handled(refreshed.store, ServerError)
    else
      var filter := DomainFilter(domain);
      Handled(refreshed.store, Ok(Listing(filter, SortFor(sortBy), Select(refreshed.store, filter))))
  }

  // ------------------------------------------------ GET /courses/{name}

  /** A displayed rating: the course's total, or a text. */
  datatype Shown = Number(n: int) | Text(s: string)

  /** A course as shown singly: without its chapters, the rating reduced to its total. */
  datatype CourseView = CourseView(name: string, date: string, description: string, domain: string, rating: Shown)

  /** `GET /courses/{name}`: 404 for an absent course, otherwise its view. */
  function GetCourse(store: Store, name: string): (r: Response<CourseView>)
    ensures r.NotFound? <==> FindCourse(store, name).None?
    ensures r.NotFound? ==> r.detail == CourseNotFound
    ensures r.Ok? || r.NotFound?
    ensures r.Ok? ==>
      var c := FindCourse(store, name).value;
      && r.body.name == name
      && Summary(r.body.name, r.body.date, r.body.description, r.body.domain) == Summarize(c)
      && (r.body.rating == Text(NotRatedYet) <==> c.rating.None?)
      && (c.rating.Some? ==> r.body.rating == Number(c.rating.value.total))
  {
    match FindCourse(store, name)
    case None => NotFound(CourseNotFound)
    case Some(c) =>
      var shown := match c.rating
        case Some(x) => Number(x.total)
        case None => Text(NotRatedYet);
      Ok(CourseView(c.name, c.date, c.description, c.domain, shown))
  }

  // --------------------------------------- GET /courses/{name}/{chapter_id}

  /** `GET /courses/{name}/{chapter_id}`: the chapter if found and not an empty document, otherwise 404. */
  function GetChapter(store: Store, name: string, id: string): (r: Response<Chapter>)
    ensures r.Ok? <==> FindChapter(store, name, id).Some? && Truthy(FindChapter(store, name, id).value)
    ensures r.Ok? ==> Some(r.body) == FindChapter(store, name, id)
    ensures !r.Ok? ==> r == NotFound(ChapterNotFound)
  {
    var chapter := FindChapter(store, name, id);
    if chapter.Some? && Truthy(chapter.value) then Ok(chapter.value) else NotFound(ChapterNotFound)
  }

  // -------------------------------------- POST /courses/{name}/{chapter_id}

  /**
   * `POST /courses/{name}/{chapter_id}?rating=v`. The vote is validated before
   * anything else. `int(chapter_id)` is evaluated before the subscript, so a
   * bad id is a 404 even for an absent course; subscripting the `None` that
   * stands for an absent course or chapter list raises an uncaught
   * `TypeError`. Otherwise the resolved chapter takes the vote and the whole
   * list is written back and returned.
   */
  function RateChapter(store: Store, name: string, id: string, vote: int): (r: Handled<seq<Chapter>>)
    ensures r.response.Rejected? <==> !IsVote(vote)
    ensures r.response.ServerError? <==>
      IsVote(vote) && ParseInt(id).Some? && FindChapters(store, name).None?
    ensures r.response.Ok? <==> IsVote(vote) && FindChapter(store, name, id).Some?
    ensures r.response.NotFound? ==> r.response.detail == RateChapterNotFound
    ensures !r.response.Ok? ==> r.store == store
    ensures r.response.Ok? ==>
      var chs := FindChapters(store, name).value;
      var k := ParseInt(id).value % |chs|;
      var updated := r.response.body;
      && k < |chs| == |updated|
      && updated[k].fields == chs[k].fields
      && updated[k].rating == Some(Cast(chs[k].rating, vote))
      && Some(chs[k]) == FindChapter(store, name, id)
      && (forall j :: 0 <= j < |chs| && j != k ==> updated[j] == chs[j])
      && r.store == SetChapters(store, name, updated)
      && FindChapters(r.store, name) == Some(updated)
  {
    if !IsVote(vote) then Handled(store, Rejected)
    else
      var chapters := FindChapters(store, name);
      match ParseInt(id)
      case None => Handled(store, NotFound(RateChapterNotFound))
      case Some(i) =>
        if chapters.None? then Handled(store, ServerError)
        else match Resolve(|chapters.value|, i)
          case None => Handled(store, NotFound(RateChapterNotFound))
          case Some(k) =>
            var chs := chapters.value;
            var updated := chs[k := chs[k].(rating := Some(Cast(chs[k].rating, vote)))];
            SameNamesSameLocate(SetChapters(store, name, updated), store, name);
            Handled(SetChapters(store, name, updated), Ok(updated))
  }

  // ------------------------------------------------------------ invariants

  /**
   * On a consistent collection the recompute never meets a `KeyError`: it
   * finishes, writes every course's chapter aggregate, and the collection
   * stays consistent.
   */
  lemma RefreshKeepsConsistency(store: Store)
    requires Consistent(store)
    ensures Refresh(store).ok
    ensures Consistent(Refresh(store).store)
    ensures forall i :: 0 <= i < |store| ==>
      Refresh(store).store[i].rating == ChapterSum(store[i].chapters.value)
  {
    PrefixWhileAll(store, Aggregable);
    var r := Refresh(store);
    forall i | 0 <= i < |store|
      ensures WellRated(r.store[i])
    {
      ReaggregatedWellRated(store[i]);
    }
  }

  /** Hence on a consistent collection the listing always answers. */
  lemma ListingAnswersWhenConsistent(store: Store, sortBy: string, domain: Option<string>)
    requires Consistent(store)
    ensures GetCourses(store, sortBy, domain).response.Ok?
    ensures Consistent(GetCourses(store, sortBy, domain).store)
  {
    RefreshKeepsConsistency(store);
  }

  /** Casting an accepted vote keeps every chapter rated and every rating bounded. */
  lemma RateKeepsConsistency(store: Store, name: string, id: string, vote: int)
    requires Consistent(store)
    ensures Consistent(RateChapter(store, name, id, vote).store)
  {
    var r := RateChapter(store, name, id, vote);
    if r.response.Ok? {
      var k := Locate(store, name);
      var chs := store[k].chapters.value;
      var j := ParseInt(id).value % |chs|;
      var updated := r.response.body;
      assert Bounded(Prior(chs[j].rating));
      forall i | 0 <= i < |updated|
        ensures updated[i].rating.Some? && Bounded(updated[i].rating.value)
      {
        if i != j {
          assert updated[i] == chs[i];
        }
      }
      assert WellRated(r.store[k]);
    }
  }

  /** In a consistent collection every chapter is rated, so it is never shown as an empty document. */
  lemma GetChapterWhenConsistent(store: Store, name: string, id: string)
    requires Consistent(store)
    ensures GetChapter(store, name, id).Ok? <==> FindChapter(store, name, id).Some?
  {
    var r := FindChapter(store, name, id);
    if r.Some? {
      var k := Locate(store, name);
      assert WellRated(store[k]);
      var chs := store[k].chapters.value;
      assert r.value == chs[ParseInt(id).value % |chs|];
    }
  }

  /** In a consistent collection a present course always shows a number. */
  lemma GetCourseWhenConsistent(store: Store, name: string)
    requires Consistent(store)
    ensures GetCourse(store, name).Ok? ==> GetCourse(store, name).body.rating.Number?
  {
    if FindCourse(store, name).Some? {
      assert WellRated(store[Locate(store, name)]);
    }
  }

  /**
   * After a vote, reading the same id finds the same chapter with the vote
   * applied: the list returned is the list persisted.
   */
  lemma RateThenRead(store: Store, name: string, id: string, vote: int)
    requires IsVote(vote) && FindChapter(store, name, id).Some?
    ensures
      var before := FindChapter(store, name, id).value;
      FindChapter(RateChapter(store, name, id, vote).store, name, id)
        == Some(before.(rating := Some(Cast(before.rating, vote))))
  {
  }

  /**
   * On a consistent collection, after a listing the course called `name`
   * carries the aggregate of its chapters as its rating.
   */
  lemma ListingShowsAggregate(store: Store, name: string, sortBy: string, domain: Option<string>)
    requires Consistent(store) && FindCourse(store, name).Some?
    ensures
      var listed := GetCourses(store, sortBy, domain).store;
      && FindCourse(listed, name).Some?
      && FindCourse(listed, name).value.rating == ChapterSum(FindChapters(store, name).value)
  {
    RefreshKeepsConsistency(store);
    var listed := GetCourses(store, sortBy, domain).store;
    SameNamesSameLocate(listed, store, name);
    var k := Locate(store, name);
    assert WellRated(store[k]);
    assert FindCourse(listed, name) == Some(listed[k]);
  }

  /**
   * On a consistent collection, the listing that follows a vote `v` shows the
   * course's aggregate moved by exactly `{total: v, count: 1}`.
   */
  lemma VoteReachesCourse(store: Store, name: string, id: string, vote: int, sortBy: string, domain: Option<string>)
    requires Consistent(store)
    requires IsVote(vote) && FindChapter(store, name, id).Some?
    ensures
      var rated := RateChapter(store, name, id, vote).store;
      var listed := GetCourses(rated, sortBy, domain).store;
      && FindCourse(listed, name).Some?
      && FindCourse(listed, name).value.rating
         == Some(Plus(ChapterSum(FindChapters(store, name).value).value, Rating(vote, 1)))
  {
    var k := Locate(store, name);
    var chs := store[k].chapters.value;
    assert WellRated(store[k]);
    var j := ParseInt(id).value % |chs|;
    var rated := RateChapter(store, name, id, vote);
    assert rated.response.body == chs[j := chs[j].(rating := Some(Cast(chs[j].rating, vote)))];
    VoteMovesSum(chs, j, vote);
    RateKeepsConsistency(store, name, id, vote);
    ListingShowsAggregate(rated.store, name, sortBy, domain);
  }
}
