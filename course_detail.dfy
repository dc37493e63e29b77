/** The course detail page: the five-minute cache gate, the derived average rating and tutor flag,
    the review filters, the grid layout, the reviewer's display name, and the bookmark toggle that
    writes the user record, the saved-courses cache entry and `isSaved` in turn. */
module CourseDetail {
  import opened Wrappers
  import opened Seqs
  import opened ListUpdates
  import opened Ratings

  /** `5 * 60 * 1000`: how long a cached course stays usable, in milliseconds. */
  const CacheExpiry: int := 5 * 60 * 1000

  datatype Professor = Professor(id: string, firstName: string, lastName: string)

  /** The expanded author of a review; the name parts may be missing. */
  datatype User = User(id: string, firstName: Option<string>, lastName: Option<string>)

  /** A review with its expanded author and professors; `user` is `review.expand?.user` and
      `professors` is `review.expand?.professors`. */
  datatype Review = Review(id: string, rating: Option<real>, syllabus: Option<string>,
                           anonymous: bool, user: Option<User>,
                           professors: Option<seq<Professor>>)

  /** The `expand` part of a course record: its reviews and professors, when expanded. */
  datatype Expand = Expand(reviews: Option<seq<Review>>, professors: Option<seq<Professor>>)

  /** A course record as fetched or cached; `cachedAt` is set when the record is cached. */
  datatype CourseRecord = CourseRecord(id: string, code: string, name: string,
                                       expand: Option<Expand>, tutors: Option<seq<string>>,
                                       averageRating: Option<real>, cachedAt: Option<int>)

  /** A string field is truthy when present and not empty. */
  predicate Truthy(s: Option<string>) {
    s.Some? && s.value != ""
  }

  /** `foundCourse && now - foundCourse.cachedAt < cacheExpiry`; a missing `cachedAt` makes the
      difference NaN, which compares false. */
  predicate IsFresh(found: Option<CourseRecord>, now: int) {
    found.Some? && found.value.cachedAt.Some? && now - found.value.cachedAt.value < CacheExpiry
  }

  /** The course `fetchCourse` shows, if any, and the record it writes to the cache, if any. */
  datatype FetchOutcome = FetchOutcome(course: Option<CourseRecord>, cacheWrite: Option<CourseRecord>)

  /** `fetchCourse`: the cached record when fresh; otherwise the fetched record, stamped with
      `now`, is written back to the cache and shown. `fetched` is `None` when the fetch throws and
      `cacheWriteOk` is false when writing the cache throws; either way the `catch` runs, nothing
      is cached and no course is shown. */
  function FetchCourse(found: Option<CourseRecord>, now: int, fetched: Option<CourseRecord>,
                       cacheWriteOk: bool): (r: FetchOutcome)
    ensures IsFresh(found, now) ==> r == FetchOutcome(found, None)
    ensures r.course.Some? <==> IsFresh(found, now) || (fetched.Some? && cacheWriteOk)
    ensures r.cacheWrite.Some? <==> !IsFresh(found, now) && fetched.Some? && cacheWriteOk
    ensures r.cacheWrite.Some?
        ==> r.cacheWrite == Some(fetched.value.(cachedAt := Some(now))) && r.course == r.cacheWrite
  {
    if IsFresh(found, now) then FetchOutcome(found, None)
    else if fetched.Some? && cacheWriteOk then
      var stamped := fetched.value.(cachedAt := Some(now));
      FetchOutcome(Some(stamped), Some(stamped))
    else FetchOutcome(None, None)
  }

  /** A record written at `now` serves every later load strictly within five minutes, without a
      refetch, and none after that. */
  lemma RefetchFreshForExpiry(found: Option<CourseRecord>, now: int, fetched: Option<CourseRecord>,
                              later: int, again: Option<CourseRecord>, againOk: bool)
    requires !IsFresh(found, now) && fetched.Some?
    ensures IsFresh(FetchCourse(found, now, fetched, true).cacheWrite, later)
        <==> later - now < CacheExpiry
    ensures later - now < CacheExpiry
        ==> FetchCourse(FetchCourse(found, now, fetched, true).cacheWrite, later, again, againOk)
            == FetchOutcome(FetchCourse(found, now, fetched, true).course, None)
  {
  }

  /** The ratings of the reviews, in order. */
  function RatingsOf(reviews: seq<Review>): (rs: seq<Option<real>>)
    ensures |rs| == |reviews|
    ensures forall i :: 0 <= i < |reviews| ==> rs[i] == reviews[i].rating
  {
    seq(|reviews|, i requires 0 <= i < |reviews| => reviews[i].rating)
  }

  /** The average of `initializeState`: the mean of the expanded reviews' ratings (missing ones as
      0) when there are any, else `averageRating || 0`. When `expand` is present but holds no
      `reviews`, reading `reviews.reduce` throws and no average is set. */
  function AverageRating(c: CourseRecord): (r: Result<real, string>)
    ensures r.Err? <==> c.expand.Some? && c.expand.value.reviews.None?
    ensures r.Ok? && c.expand.Some? && |c.expand.value.reviews.value| > 0
        ==> r.value == Mean(RatingsOf(c.expand.value.reviews.value))
    ensures r.Ok? && (c.expand.None? || |c.expand.value.reviews.value| == 0)
        ==> r.value == OrZero(c.averageRating)
  {
    match c.expand
    case None => Ok(OrZero(c.averageRating))
    case Some(e) =>
      match e.reviews
      case None => Err("TypeError")
      case Some(reviews) =>
        if |reviews| > 0 then Ok(Ratio(Sum(RatingsOf(reviews)), |reviews|))
        else Ok(OrZero(c.averageRating))
  }

  /** With every rating on the 0 to 5 scale, so is the displayed average. */
  lemma AverageInScale(c: CourseRecord)
    requires InScale(c.averageRating)
    requires c.expand.Some? && c.expand.value.reviews.Some?
         ==> AllInScale(RatingsOf(c.expand.value.reviews.value))
    ensures AverageRating(c).Ok? ==> 0.0 <= AverageRating(c).value <= 5.0
  {
    if c.expand.Some? && c.expand.value.reviews.Some? && |c.expand.value.reviews.value| > 0 {
      MeanInScale(RatingsOf(c.expand.value.reviews.value));
    }
  }

  /** `currentUserId ? (courseData.tutors || []).includes(currentUserId) : false`. */
  function IsTutor(currentUserId: Option<string>, tutors: Option<seq<string>>): (r: bool)
    ensures r <==> Truthy(currentUserId) && currentUserId.value in tutors.GetOr([])
  {
    if Truthy(currentUserId) then currentUserId.value in tutors.GetOr([]) else false
  }

  /** `${professor.firstName} ${professor.lastName}`. */
  function FullName(p: Professor): string {
    p.firstName + " " + p.lastName
  }

  /** Off for `""`; otherwise some expanded professor has that full name. A review without
      expanded professors does not match. */
  predicate ProfessorMatches(r: Review, selectedProfessor: string) {
    selectedProfessor == ""
    || (r.professors.Some? && exists p :: p in r.professors.value && FullName(p) == selectedProfessor)
  }

  /** Off for 0 or less; otherwise the rating is at least the threshold. */
  predicate ReviewRatingMatches(r: Review, selectedRating: real) {
    selectedRating > 0.0 ==> r.rating.Some? && r.rating.value >= selectedRating
  }

  /** Off for `false`; otherwise the review has a syllabus. */
  predicate SyllabusMatches(r: Review, hasSyllabus: bool) {
    hasSyllabus ==> Truthy(r.syllabus)
  }

  predicate ReviewMatches(r: Review, selectedProfessor: string, selectedRating: real,
                          hasSyllabus: bool)
  {
    && ProfessorMatches(r, selectedProfessor)
    && ReviewRatingMatches(r, selectedRating)
    && SyllabusMatches(r, hasSyllabus)
  }

  function ReviewFilter(selectedProfessor: string, selectedRating: real, hasSyllabus: bool)
    : Review -> bool
  {
    r => ReviewMatches(r, selectedProfessor, selectedRating, hasSyllabus)
  }

  /** `filteredReviews`: the reviews passing all three filters, in their order. */
  function FilteredReviews(reviews: seq<Review>, selectedProfessor: string, selectedRating: real,
                           hasSyllabus: bool): (r: seq<Review>)
    ensures forall i :: 0 <= i < |r| ==>
              r[i] in reviews && ReviewMatches(r[i], selectedProfessor, selectedRating, hasSyllabus)
    ensures forall i :: 0 <= i < |reviews|
              && ReviewMatches(reviews[i], selectedProfessor, selectedRating, hasSyllabus)
              ==> reviews[i] in r
  {
    Filter(reviews, ReviewFilter(selectedProfessor, selectedRating, hasSyllabus))
  }

  /** Every copy of a matching review is kept and none of the others. */
  lemma FilteredReviewsCount(reviews: seq<Review>, selectedProfessor: string,
                             selectedRating: real, hasSyllabus: bool, x: Review)
    ensures multiset(FilteredReviews(reviews, selectedProfessor, selectedRating, hasSyllabus))[x]
         == if ReviewMatches(x, selectedProfessor, selectedRating, hasSyllabus)
            then multiset(reviews)[x] else 0
  {
    FilterCount(reviews, ReviewFilter(selectedProfessor, selectedRating, hasSyllabus), x);
  }

  /** The filter works piecewise: the kept reviews stay in their original order. */
  lemma FilteredReviewsConcat(a: seq<Review>, b: seq<Review>, selectedProfessor: string,
                              selectedRating: real, hasSyllabus: bool)
    ensures FilteredReviews(a + b, selectedProfessor, selectedRating, hasSyllabus)
         == FilteredReviews(a, selectedProfessor, selectedRating, hasSyllabus)
          + FilteredReviews(b, selectedProfessor, selectedRating, hasSyllabus)
  {
    FilterConcat(a, b, ReviewFilter(selectedProfessor, selectedRating, hasSyllabus));
  }

  /** With every filter off (`""`, a threshold of 0, `false`) all reviews are shown. */
  lemma FiltersOffShowAll(reviews: seq<Review>, selectedRating: real)
    requires selectedRating <= 0.0
    ensures FilteredReviews(reviews, "", selectedRating, false) == reviews
  {
    FilterKeepsAll(reviews, ReviewFilter("", selectedRating, false));
  }

  const GridOne: string := "grid grid-cols-1 gap-6"
  const GridTwo: string := "grid grid-cols-1 md:grid-cols-2 gap-6"
  const GridThree: string :=
    "grid grid-cols-1 md:grid-cols-2 lg:grid-cols-2 xl:grid-cols-3 gap-4 md:gap-6 lg:gap-8"

  /** `gridClasses`: one column for 0 or 1 shown reviews, two for exactly 2, three for 3 or more. */
  method GridClasses(shown: nat) returns (gridClasses: string)
    ensures shown <= 1 ==> gridClasses == GridOne
    ensures shown == 2 ==> gridClasses == GridTwo
    ensures shown >= 3 ==> gridClasses == GridThree
  {
    gridClasses := GridOne;
    if shown == 2 {
      gridClasses := GridTwo;
    } else if shown >= 3 {
      gridClasses := GridThree;
    }
  }

  /** The author's first and last name are both present and non-empty. */
  predicate HasFullName(user: Option<User>) {
    user.Some? && Truthy(user.value.firstName) && Truthy(user.value.lastName)
  }

  /** The name shown on a review card: `'Anonymous'` for an anonymous review or an author without
      both name parts, else `"first last"`. */
  function DisplayName(r: Review): (name: string)
    ensures name == "Anonymous" <==> r.anonymous || !HasFullName(r.user)
    ensures name != "Anonymous"
        ==> name == r.user.value.firstName.value + " " + r.user.value.lastName.value
  {
    if r.anonymous then "Anonymous"
    else if HasFullName(r.user) then
      var full := r.user.value.firstName.value + " " + r.user.value.lastName.value;
      assert full[|r.user.value.firstName.value|] == ' ';
      assert forall i :: 0 <= i < |"Anonymous"| ==> "Anonymous"[i] != ' ';
      full
    else "Anonymous"
  }

  /** The saved-courses cache entry: the ids of the saved courses and when it was written. */
  datatype SavedCache = SavedCache(savedCourses: seq<string>, cachedAt: int)

  const LoginToSave: string := "You must be logged in to save this course."

  /** The state `toggleSaveCourse` reads and writes: the user's saved courses as stored in the
      backend, the user's saved-courses cache entry, the bookmark flag and the popup message. */
  class CoursePage {
    var storedSaved: seq<string>
    var savedCache: Option<SavedCache>
    var isSaved: bool
    var popupMessage: string

    constructor (storedSaved: seq<string>, savedCache: Option<SavedCache>)
      ensures this.storedSaved == storedSaved && this.savedCache == savedCache
      ensures !isSaved && popupMessage == ""
    {
      this.storedSaved := storedSaved;
      this.savedCache := savedCache;
      isSaved := false;
      popupMessage := "";
    }

    /** `checkIfSaved`: with a user and a course, the flag says whether the course is saved.
        `readOk` says whether `getOne` succeeds; when it throws, the `catch` leaves the flag. */
    method CheckIfSaved(currentUserId: Option<string>, courseId: Option<string>, readOk: bool)
      modifies this`isSaved
      ensures Truthy(currentUserId) && Truthy(courseId) && readOk
        ==> isSaved == (courseId.value in storedSaved)
      ensures !(Truthy(currentUserId) && Truthy(courseId) && readOk) ==> isSaved == old(isSaved)
    {
      if Truthy(currentUserId) && Truthy(courseId) && readOk {
        isSaved := courseId.value in storedSaved;
      }
    }

    /** `toggleSaveCourse`: without a user only the popup is set; otherwise the stored list, then
        the cache entry (created empty if missing, stamped `now`), then the flag are updated,
        removing every copy of the course when it was saved and appending it once when not. */
    method ToggleSaveCourse(currentUserId: Option<string>, courseId: string, now: int)
      modifies this
      ensures !Truthy(currentUserId) ==>
        && popupMessage == LoginToSave
        && storedSaved == old(storedSaved) && savedCache == old(savedCache) && isSaved == old(isSaved)
      ensures Truthy(currentUserId) ==>
        && storedSaved == UpdateSaved(old(storedSaved), courseId, old(isSaved))
        && savedCache == Some(SavedCache(UpdateSaved(CachedIds(old(savedCache)), courseId,
                                                     old(isSaved)), now))
        && isSaved == !old(isSaved)
        && popupMessage == old(popupMessage)
      ensures Truthy(currentUserId) ==> (courseId in CachedIds(savedCache) <==> isSaved)
      ensures Truthy(currentUserId) && old(isSaved) == (courseId in old(storedSaved))
        ==> (courseId in storedSaved <==> isSaved)
    {
      if !Truthy(currentUserId) {
        popupMessage := LoginToSave;
        return;
      }
      storedSaved := UpdateSaved(storedSaved, courseId, isSaved);
      var cached := if savedCache.Some? then savedCache.value else SavedCache([], now);
      savedCache := Some(SavedCache(UpdateSaved(cached.savedCourses, courseId, isSaved), now));
      isSaved := !isSaved;
    }
  }

  /** The ids in a saved-courses cache entry; none when there is no entry. */
  function CachedIds(cache: Option<SavedCache>): seq<string> {
    if cache.Some? then cache.value.savedCourses else []
  }
}
