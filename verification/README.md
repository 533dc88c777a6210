# Course catalog service: rating and lookup logic

A Dafny model of the document logic inside a small FastAPI/MongoDB course
catalog (`playing_fast_api`). The service keeps one collection of course
documents. Each course has an ordered list of chapters. Each chapter may carry a
rating sub-document `{total, count}`. Clients can vote -1, 0 or +1 on a chapter.
Every course listing recomputes each course's rating as the sum of its
chapters' ratings.

The database is a value here. The collection is a `seq<Course>` in natural
order. Each route is a pure function of the collection and the request. A
route that writes returns the collection after its writes together with its
`Response`; a read-only route returns only the `Response`. A `Response` is `Ok`,
`NotFound` (404 with its detail text), `Rejected` (422 from query validation)
or `ServerError` (an uncaught exception, 500). Python's missing keys, `None`
and `KeyError` become `Option` fields and `None` results.

Modules:

- `Wrappers` (`wrappers.dfy`): `Option`.
- `Seqs` (`seqs.dfy`): `PrefixWhile`, the point where a front-to-back loop stops at its first failing element.
- `Ratings` (`ratings.dfy`): the rating pair, vote validation, one vote's arithmetic, and the bound `|total| <= count`.
- `Indexing` (`indexing.dfy`): `int(chapter_id)` as a signed decimal parser, and Python's negative-index subscript.
- `Catalog` (`catalog.dfy`): chapter and course documents, the chapter aggregate, and the store invariant.
- `Server` (`server.dfy`): `find_course`, `find_chapters`, `find_chapter` and the four routes, with the invariant lemmas.
- `Seed` (`seed.dfy`): `DBSeed.populate_db`.
- `Scenarios` (`scenarios.dfy`): what an absent course gets on the single-course and chapter routes, and any seeded course taken through a vote and a listing.

The store invariant `Consistent` has three parts:

- every course has a chapter list;
- every chapter and every course carries a rating;
- every rating satisfies `|total| <= count`.

Seeding establishes it (`SeedingEstablishesConsistency`). Voting preserves it
(`RateKeepsConsistency`), and so does the listing's recompute
(`RefreshKeepsConsistency`). Under it, the recompute loop never raises
`KeyError` (`ListingAnswersWhenConsistent`).

Some of the code's behaviour is easy to misread from the route signatures
alone. The model follows the code in each of these cases:

- The chapter id is not restricted to non-negative numbers. It goes through
  `int()` and a Python subscript, so `-len <= i < len` is accepted and negative
  ids count from the end.
- On the rating route, a course that is absent, or has no chapter list, is not
  a 404. `chapters` is then `None`, and subscripting it raises a `TypeError`
  that nothing catches: a 500. But `int(chapter_id)` is evaluated before the
  subscript, so a malformed id still gives a 404 for an absent course. The
  read route answers 404 in all these cases. `Scenarios.AbsentCourseOutcomes`
  pins down the difference.
- A listing whose recompute raises part way does not undo anything. The
  courses recomputed before the failing one keep their new ratings, because
  each `update_one` is awaited before the next course is read.
- The rating route's 404 detail is `Chapter not found`, without the final full
  stop that the read route's detail has.
- The read route also answers 404 when the chapter found is an empty
  document, since an empty dictionary is falsy (`Catalog.Truthy`).

## Model

| member | source | states |
|---|---|---|
| Ratings.Cast | playing_fast_api/server.py:130-134 | A vote adds the vote to `total` and 1 to `count`. An absent rating behaves exactly like `{total: 0, count: 0}`, which gives `{total: v, count: 1}`. An accepted vote keeps `|total| <= count`. |
| Ratings.UpThenDown | playing_fast_api/server.py:130-134 | Voting 1 then -1 on an unrated chapter gives `{1, 1}` and then `{0, 2}`. |
| Ratings.VoteValues | playing_fast_api/server.py:107 | The constraint `-2 < rating < 2` accepts exactly -1, 0 and 1. |
| Indexing.ParseInt | playing_fast_api/server.py:126 | `int(chapter_id)` succeeds exactly on an optional sign followed by decimal digits. The result is negative only after a `-`. |
| Indexing.NumeralRoundTrip | playing_fast_api/server.py:157 | Reading the canonical decimal digits of a natural number gives that number back. |
| Indexing.ParseSigned | playing_fast_api/server.py:126 | A run of digits reads as its positional value. A `+` in front changes nothing, and a `-` in front negates it, so `-0` reads as 0. |
| Indexing.NumeralAppend | playing_fast_api/server.py:126 | Decimal reading is positional: the value of `a` followed by `b` is the value of `a` times ten to the length of `b`, plus the value of `b`. |
| Indexing.ZerosValue | playing_fast_api/server.py:126 | A run of zeros reads as 0. |
| Indexing.LeadingZeros | playing_fast_api/server.py:126 | Leading zeros do not change the value: `007` reads as 7. |
| Indexing.ParseShowRoundTrip | playing_fast_api/server.py:157 | Every integer, written the way Python's `str` writes it, parses back to itself. So every valid chapter position has an id that reaches it. |
| Indexing.Resolve | playing_fast_api/server.py:157 | The subscript succeeds exactly when `-len <= i < len`. The position it selects is `i` modulo `len`. |
| Indexing.NegativeAlias | playing_fast_api/server.py:126 | Index `k` and index `k - len` select the same chapter. |
| Indexing.EmptyHasNoIndex | playing_fast_api/server.py:155-159 | An empty chapter list has no valid index. |
| Catalog.ChapterSum | playing_fast_api/server.py:34-36 | The chapter aggregate exists exactly when every chapter is rated, so `chapter["rating"]` raises nothing. When all chapter ratings are bounded, so is the aggregate. |
| Catalog.ChapterSumAppend | playing_fast_api/server.py:34-36 | The aggregate of two chapter lists joined is the field-wise sum of their aggregates. With `ChapterSumSingle`, this makes it the sum of the chapters' totals and counts. The empty list gives `{0, 0}`. |
| Catalog.RecomputeCourseRating | playing_fast_api/server.py:31-36 | The accumulation loop computes the chapter aggregate. It runs `total`/`count` from zero and stops at the first unrated chapter. |
| Catalog.ChapterSumUpdate | playing_fast_api/server.py:34-36 | Replacing one chapter's rating moves the aggregate by exactly the difference between the new and old rating. |
| Catalog.VoteMovesSum | playing_fast_api/server.py:130-134 | A vote `v` on one chapter moves the course aggregate by exactly `{total: v, count: 1}`. |
| Server.Locate | playing_fast_api/server.py:143 | The document that `find_one`/`update_one` select by name is the first with that name. No earlier document has it. |
| Server.FindCourse | playing_fast_api/server.py:142-143 | A course is found exactly when some document has that name. The one found is the first document in collection order with that name. |
| Server.FindChapters | playing_fast_api/server.py:145-151 | The result is absent exactly when the course is absent or has no chapter list. Otherwise it is that course's chapter list. |
| Server.FindChapter | playing_fast_api/server.py:153-162 | The result is absent exactly when the chapter list is absent, the id does not parse, or the index is outside `[-len, len)`. The empty list falls in the last case. Otherwise it is the chapter at the index modulo `len` (up to the digit limit under Left out). |
| Server.SetChapters | playing_fast_api/server.py:136 | `$set` of `chapters` replaces the chapter list of the first course with that name. Every other document is unchanged. |
| Server.SortFor | playing_fast_api/server.py:43-51 | `date` gives `date` descending and `rating` gives `rating.total` descending. Any other string gives `name`, and the order is ascending exactly for `name`. |
| Server.DomainFilter | playing_fast_api/server.py:53-55 | The `domain` filter is present exactly when `domain` is given and non-empty. It is then an exact match on that value. |
| Server.Select | playing_fast_api/server.py:57-62 | The listed rows are exactly the `{name, date, description, domain}` projections of the courses the filter matches. With no filter, every course is listed. |
| Server.Refresh | playing_fast_api/server.py:29-41 | The recompute writes the chapter aggregate onto each course in order, up to the first course without a chapter list or with an unrated chapter. Courses from there on are untouched. It finishes exactly when no such course exists. |
| Server.GetCourses | playing_fast_api/server.py:16-62 | The listing fails exactly when some course cannot be recomputed, and the writes already made are kept. Otherwise every course carries its chapter aggregate, and the listing carries the chosen filter, sort and matching rows. |
| Server.GetCourse | playing_fast_api/server.py:65-85 | 404 `Course not found.` exactly for an absent course. Otherwise the course's fields are shown. The rating is shown as its total, or as `Not rated yet.` exactly when the course has no rating. |
| Server.GetChapter | playing_fast_api/server.py:87-104 | The chapter is returned exactly when `find_chapter` finds a non-empty document. Every other case is the same 404 `Chapter not found.` (up to the digit limit under Left out). |
| Server.RateChapter | playing_fast_api/server.py:106-137 | An out-of-range vote is rejected. A well-formed id on an absent course or chapter list is a 500. Every other failure is a 404, and no failure writes anything. The call succeeds exactly when `find_chapter` would find the chapter. Only the chapter at the resolved index changes, and it gets the vote. Length, order and other chapters are unchanged. The returned list is what is stored and what the next lookup reads. All of this holds up to the digit limit under Left out. |
| Server.RefreshKeepsConsistency | playing_fast_api/server.py:30-41 | On a consistent collection the recompute finishes. It writes each course's chapter aggregate, and the collection stays consistent. |
| Server.ListingAnswersWhenConsistent | playing_fast_api/server.py:34-36 | On a consistent collection the listing never hits a `KeyError`. |
| Server.RateKeepsConsistency | playing_fast_api/server.py:130-136 | A vote keeps every chapter rated and every rating within `|total| <= count`. |
| Server.GetChapterWhenConsistent | playing_fast_api/server.py:100-104 | On a consistent collection the read route answers exactly when `find_chapter` finds the chapter. |
| Server.GetCourseWhenConsistent | playing_fast_api/server.py:81-84 | On a consistent collection a present course always shows a number, never `Not rated yet.`. |
| Server.RateThenRead | playing_fast_api/server.py:136-137 | After a vote, reading the same id returns the same chapter with the vote applied. |
| Server.ListingShowsAggregate | playing_fast_api/server.py:34-40 | On a consistent collection, after a listing every course found by name carries its chapters' aggregate as its rating. |
| Server.VoteReachesCourse | playing_fast_api/server.py:31-40 | On a consistent collection, the listing after a vote `v` shows the course's aggregate moved by exactly `{total: v, count: 1}`. |
| Seed.ZeroRatings | playing_fast_api/seeds/db_seed.py:37-39 | A seeded course keeps its name, date, description and domain. Its rating is `{0, 0}`. Each chapter keeps its fields and position and has rating `{0, 0}`. The result is well rated, and its rating equals its chapter aggregate. |
| Seed.ZeroChapters | playing_fast_api/seeds/db_seed.py:38-39 | Every chapter keeps its fields and position and gets rating `{0, 0}`; the chapters then aggregate to `{0, 0}`. |
| Seed.AllZeroSum | playing_fast_api/seeds/db_seed.py:38-39 | Chapters all rated zero aggregate to zero. |
| Seed.Zeroed | playing_fast_api/seeds/db_seed.py:36-41 | The loop inserts one zeroed document per input course, in input order. It stops at the first course without a chapter list. |
| Seed.PopulateDb | playing_fast_api/seeds/db_seed.py:22-47 | With no collection nothing is inserted and the answer is `False`. Otherwise the existing documents stay and the zeroed courses follow them in input order. It answers `True` exactly when no course lacked a chapter list; otherwise it raises part way. |
| Seed.SeedingEstablishesConsistency | playing_fast_api/seeds/db_seed.py:36-41 | Seeding courses that all have chapter lists into a consistent collection succeeds and leaves it consistent. |
| Scenarios.AbsentCourseOutcomes | playing_fast_api/server.py:65-128 | For an absent course: reading the course is a 404 with `Course not found.`, reading chapter `0` is a 404, and rating it is a 500. Rating id `x` is a 404, and rating with vote 2 is rejected. |
| Scenarios.SeedOne | playing_fast_api/seeds/db_seed.py:33-44 | Seeding an empty collection with one course that has chapters inserts it zeroed and answers `True`. |
| Scenarios.ReadAfterSeed | playing_fast_api/server.py:100-102 | The seeded course's first chapter, asked for by any id that reads as 0, comes back with its own fields and rating `{0, 0}`. |
| Scenarios.UpVoteOnZero | playing_fast_api/server.py:31-40 | On a consistent collection, a vote of 1 on a course whose chapters aggregate to `{0, 0}` makes the next listing carry that course at `{1, 1}`. |
| Scenarios.ListAfterRate | playing_fast_api/server.py:81-82 | After a vote of 1 on that chapter and a listing, the course shows a rating of 1. |

## Left out

- Database I/O failures: Motor/pymongo calls always succeed here. `find`, `find_one`, `update_one`, `insert_one`, `create_index` and `close` are values, not calls that can fail. A connectivity error would be a 500 on every route.
- The sort itself: the listing records the sort key and direction chosen. Ordering the rows under BSON comparison is the database's work.
- Server.Select: states which projections appear, not their multiplicity or order. The order is the database sort above.
- Server.GetCourses: the rows are listed in collection order, before the database sorts them.
- `create_index("name")`: a non-unique index changes no result. Duplicate names are handled by taking the first match, as `find_one` and `update_one` both do in natural order.
- Python `int()` in full: leading and trailing whitespace, underscores between digits and non-ASCII digits are not accepted by `Indexing.ParseInt`.
- Indexing.ParseInt: accepts numerals of any length. CPython 3.11 and later (and 3.10.7) raise `ValueError` in `int()` above 4300 digits (`sys.get_int_max_str_digits`). The limit counts leading zeros. So an over-long id is a 404 on both chapter routes in CPython, even when its value is in range: 4300 zeros followed by `1` is one example. In the model, `Server.GetChapter` returns that chapter and `Server.RateChapter` writes the vote. On an absent course, `Server.RateChapter` answers 500 for such an id, where CPython answers 404.
- Documents of unexpected shape: a rating sub-document missing only one of `total`/`count`, or one that is not a dictionary, is not representable. The same goes for a `chapters` value that is not a list, and for the `_id` field. A rating is either absent or a full pair. A course has exactly a name, date, description, domain, chapter list and rating. Other fields are not representable, though the seed loader would insert them and the single-course view would pass them through. A missing `date`, `description` or `domain` is not representable either.
- Chapter content: chapter fields are an opaque `map<string, string>`. Only whether it is empty matters, for the read route's truthiness test.
- The lost-update race between concurrent votes on one course: the model is sequential. Each rating call reads and writes the collection in one step.
- JSON loading of the seed file, the `MongoClient` connection check and logging: I/O with no logic. The seed data is a parameter of `Seed.PopulateDb`, and an undefined collection is `None`.
- FastAPI routing, parameter coercion and the 422 body: a vote is an `int`, and a vote outside the constraint is `Rejected`.
