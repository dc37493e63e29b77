/** The course list of the home page: the subject, rating and text filters, the sort by average
    rating, and the list updates behind the filter chips, the subject select and the bookmarks. */
module Home {
  import opened Wrappers
  import opened Seqs
  import opened ListUpdates
  import opened Text
  import opened Ratings

  /** A course as the course list receives it; `averageRating` may be missing. */
  datatype Course = Course(id: string, code: string, name: string, subject: string,
                           averageRating: Option<real>)

  /** `course.averageRating || 0`, the sort key. */
  function SortKey(c: Course): real {
    OrZero(c.averageRating)
  }

  /** `subjectFilters.includes(course.subject)`. */
  predicate SubjectMatches(c: Course, subjectFilters: seq<string>) {
    c.subject in subjectFilters
  }

  /** `course.averageRating >= min`; a missing rating compares false. */
  predicate RatingMatches(c: Course, min: real) {
    c.averageRating.Some? && c.averageRating.value >= min
  }

  /** `searchQuery.toLowerCase().split(' ')`. */
  function QueryWords(q: string): seq<string> {
    SplitOn(ToLower(q), ' ')
  }

  /** Every query word occurs in the lower-cased code or the lower-cased name. */
  predicate SearchMatches(c: Course, words: seq<string>) {
    forall w :: w in words ==> Includes(ToLower(c.code), w) || Includes(ToLower(c.name), w)
  }

  function SubjectFilter(subjectFilters: seq<string>): Course -> bool {
    c => SubjectMatches(c, subjectFilters)
  }

  function RatingFilter(min: real): Course -> bool {
    c => RatingMatches(c, min)
  }

  function SearchFilter(words: seq<string>): Course -> bool {
    c => SearchMatches(c, words)
  }

  /** The three filters, each skipped when it is off: an empty subject list, no rating, an empty
      query. */
  predicate Passes(c: Course, subjectFilters: seq<string>, ratingFilter: Option<real>, q: string) {
    && (|subjectFilters| > 0 ==> SubjectMatches(c, subjectFilters))
    && (ratingFilter.Some? ==> RatingMatches(c, ratingFilter.value))
    && (q != "" ==> SearchMatches(c, QueryWords(q)))
  }

  /** No filter is active, so `filtered` stays the `courses` array itself. */
  predicate NoFilterActive(subjectFilters: seq<string>, ratingFilter: Option<real>, q: string) {
    |subjectFilters| == 0 && ratingFilter.None? && q == ""
  }

  /** The courses the three `filter` calls keep, in their input order. */
  function Selected(courses: seq<Course>, subjectFilters: seq<string>, ratingFilter: Option<real>,
                    q: string): seq<Course>
  {
    var bySubject := if |subjectFilters| > 0 then Filter(courses, SubjectFilter(subjectFilters))
                     else courses;
    var byRating := if ratingFilter.Some? then Filter(bySubject, RatingFilter(ratingFilter.value))
                    else bySubject;
    if q != "" then Filter(byRating, SearchFilter(QueryWords(q))) else byRating
  }

  /** None added, none dropped: every copy of a course that passes all active filters is kept,
      and no copy of one that fails any of them. */
  lemma SelectedCount(courses: seq<Course>, subjectFilters: seq<string>,
                      ratingFilter: Option<real>, q: string, c: Course)
    ensures multiset(Selected(courses, subjectFilters, ratingFilter, q))[c]
         == if Passes(c, subjectFilters, ratingFilter, q) then multiset(courses)[c] else 0
  {
    var bySubject := if |subjectFilters| > 0 then Filter(courses, SubjectFilter(subjectFilters))
                     else courses;
    if |subjectFilters| > 0 {
      FilterCount(courses, SubjectFilter(subjectFilters), c);
    }
    var byRating := if ratingFilter.Some? then Filter(bySubject, RatingFilter(ratingFilter.value))
                    else bySubject;
    if ratingFilter.Some? {
      FilterCount(bySubject, RatingFilter(ratingFilter.value), c);
    }
    if q != "" {
      FilterCount(byRating, SearchFilter(QueryWords(q)), c);
    }
  }

  /** A course is in the result iff it is in the input and passes every active filter. */
  lemma SelectedIff(courses: seq<Course>, subjectFilters: seq<string>,
                    ratingFilter: Option<real>, q: string, c: Course)
    ensures c in Selected(courses, subjectFilters, ratingFilter, q)
        <==> c in courses && Passes(c, subjectFilters, ratingFilter, q)
  {
    SelectedCount(courses, subjectFilters, ratingFilter, q, c);
    assert c in courses <==> multiset(courses)[c] > 0;
  }

  /** Non-increasing in `averageRating || 0`. */
  predicate SortedByRating(s: seq<Course>) {
    forall i, j :: 0 <= i < j < |s| ==> SortKey(s[i]) >= SortKey(s[j])
  }

  /** `a.sort((x, y) => (y.averageRating || 0) - (x.averageRating || 0))`, in place: an insertion
      sort that moves an element left only past strictly lower keys. */
  method SortByRating(a: array<Course>)
    modifies a
    ensures SortedByRating(a[..])
    ensures multiset(a[..]) == multiset(old(a[..]))
  {
    var i := 0;
    while i < a.Length
      invariant 0 <= i <= a.Length
      invariant SortedByRating(a[..i])
      invariant multiset(a[..]) == multiset(old(a[..]))
    {
      InsertAt(a, i);
      i := i + 1;
    }
    assert a[..a.Length] == a[..];
  }

  /** One insertion step: `a[..i]` is sorted, and `a[i]` moves left to its place. */
  method InsertAt(a: array<Course>, i: int)
    requires 0 <= i < a.Length
    requires SortedByRating(a[..i])
    modifies a
    ensures SortedByRating(a[..i + 1])
    ensures multiset(a[..]) == multiset(old(a[..]))
  {
    var j := i;
    while j > 0 && SortKey(a[j - 1]) < SortKey(a[j])
      invariant 0 <= j <= i
      invariant forall k, l :: 0 <= k < l <= i && k != j && l != j ==> SortKey(a[k]) >= SortKey(a[l])
      invariant forall l :: j < l <= i ==> SortKey(a[j]) > SortKey(a[l])
      invariant multiset(a[..]) == multiset(old(a[..]))
    {
      Swap(a, j - 1, j);
      j := j - 1;
    }
  }

  /** Exchanges two neighbouring elements. */
  method Swap(a: array<Course>, i: int, j: int)
    requires 0 <= i < j < a.Length
    modifies a
    ensures a[i] == old(a[j]) && a[j] == old(a[i])
    ensures forall k :: 0 <= k < a.Length && k != i && k != j ==> a[k] == old(a[k])
    ensures multiset(a[..]) == multiset(old(a[..]))
  {
    a[i], a[j] := a[j], a[i];
  }

  /** A fresh array holding `s`: what `Array.prototype.filter` returns. */
  method NewArray(s: seq<Course>) returns (a: array<Course>)
    ensures fresh(a) && a[..] == s
  {
    a := new Course[|s|](i requires 0 <= i < |s| => s[i]);
  }

  /** The `filterCourses` effect: the active filters in turn, each producing a fresh array, then
      the in-place sort. With no filter active nothing is copied and the sort reorders the
      `courses` array itself. */
  method FilterCourses(courses: array<Course>, subjectFilters: seq<string>,
                       ratingFilter: Option<real>, searchQuery: string)
    returns (filtered: array<Course>)
    modifies courses
    ensures SortedByRating(filtered[..])
    ensures multiset(filtered[..])
         == multiset(Selected(old(courses[..]), subjectFilters, ratingFilter, searchQuery))
    ensures NoFilterActive(subjectFilters, ratingFilter, searchQuery) ==> filtered == courses
    ensures !NoFilterActive(subjectFilters, ratingFilter, searchQuery)
        ==> fresh(filtered) && courses[..] == old(courses[..])
  {
    filtered := courses;
    if |subjectFilters| > 0 {
      filtered := NewArray(Filter(filtered[..], SubjectFilter(subjectFilters)));
    }
    if ratingFilter.Some? {
      filtered := NewArray(Filter(filtered[..], RatingFilter(ratingFilter.value)));
    }
    if searchQuery != "" {
      var queryWords := QueryWords(searchQuery);
      filtered := NewArray(Filter(filtered[..], SearchFilter(queryWords)));
    }
    assert filtered[..] == Selected(courses[..], subjectFilters, ratingFilter, searchQuery);
    assert filtered == courses || fresh(filtered);
    SortByRating(filtered);
  }

  /** The text filter in the terms of `includes`: every query word is a substring of the
      lower-cased code or of the lower-cased name. */
  lemma SearchMatchesIff(c: Course, words: seq<string>)
    ensures SearchMatches(c, words)
        <==> forall w :: w in words ==>
               IsSubstring(w, ToLower(c.code)) || IsSubstring(w, ToLower(c.name))
  {
    forall w | w in words
      ensures (Includes(ToLower(c.code), w) || Includes(ToLower(c.name), w))
          <==> (IsSubstring(w, ToLower(c.code)) || IsSubstring(w, ToLower(c.name)))
    {
      IncludesIff(ToLower(c.code), w);
      IncludesIff(ToLower(c.name), w);
    }
  }

  /** Empty query words (from doubled, leading or trailing spaces) match every course. */
  lemma EmptyWordsMatchAll(c: Course, words: seq<string>)
    ensures SearchMatches(c, words) <==> SearchMatches(c, NonEmpty(words))
  {
    IncludesEmpty(ToLower(c.code));
    forall w | w in words && w != "" ensures w in NonEmpty(words) {
      var i :| 0 <= i < |words| && words[i] == w;
    }
  }

  /** The text filter ignores case, in the query and in the course. */
  lemma SearchIgnoresCase(c: Course, q: string)
    ensures SearchMatches(c, QueryWords(ToLower(q))) == SearchMatches(c, QueryWords(q))
    ensures SearchMatches(c.(code := ToLower(c.code), name := ToLower(c.name)), QueryWords(q))
         == SearchMatches(c, QueryWords(q))
  {
    ToLowerIdempotent(q);
    ToLowerIdempotent(c.code);
    ToLowerIdempotent(c.name);
  }

  /** `courses.map(course => course.subject)`. */
  function Subjects(courses: seq<Course>): (r: seq<string>)
    ensures |r| == |courses|
    ensures forall i :: 0 <= i < |courses| ==> r[i] == courses[i].subject
  {
    seq(|courses|, i requires 0 <= i < |courses| => courses[i].subject)
  }

  /** `Array.from(new Set(courses.map(course => course.subject)))`: the options of the subject
      select, each subject once. */
  function CourseSubjects(courses: seq<Course>): (r: seq<string>)
    ensures NoDuplicates(r)
    ensures forall i :: 0 <= i < |courses| ==> courses[i].subject in r
    ensures forall i :: 0 <= i < |r| ==> exists k :: 0 <= k < |courses| && courses[k].subject == r[i]
  {
    Dedup(Subjects(courses))
  }

  /** The subject select's `onChange`: `""` clears the filters; any other subject is added unless
      already present. */
  function SelectSubject(prev: seq<string>, subject: string): (r: seq<string>)
    ensures subject == "" ==> r == []
    ensures subject != "" ==> subject in r
    ensures subject != "" ==> forall x :: x in r <==> x in prev || x == subject
    ensures subject in prev ==> r == prev || subject == ""
    ensures subject != "" && subject !in prev ==> r == prev + [subject]
    ensures NoDuplicates(prev) ==> NoDuplicates(r)
  {
    if subject == "" then []
    else if subject in prev then prev
    else prev + [subject]
  }

  /** What a bookmark click leads to: the list shown at once, and the list `updateSaved` writes
      to the user record and then shows, when that update succeeds. */
  datatype BookmarkOutcome = BookmarkOutcome(shown: seq<string>, written: Option<seq<string>>)

  /** `toggleSaveCourse`, both lists decided by whether `courseId` is in the local list. Without
      a user (`userCookies` still null) reading `userCookies.id` throws before either list
      changes. `stored` is the user record's `savedCourses`, `None` when the field is missing,
      where the `filter` or the spread throws; `remoteOk` says whether `getOne` and `update`
      succeed. A failed update is caught, and only the list shown at once is applied. */
  function ToggleSaveCourse(loggedIn: bool, saved: seq<string>, stored: Option<seq<string>>,
                            remoteOk: bool, courseId: string): (r: BookmarkOutcome)
    ensures !loggedIn ==> r == BookmarkOutcome(saved, None)
    ensures loggedIn ==> (courseId in r.shown <==> courseId !in saved)
    ensures r.written.Some? <==> loggedIn && remoteOk && stored.Some?
    ensures r.written.Some? ==> (courseId in r.written.value <==> courseId !in saved)
    ensures forall x :: x != courseId ==> (x in r.shown <==> x in saved)
    ensures forall x :: x != courseId && r.written.Some?
              ==> (x in r.written.value <==> x in stored.value)
    ensures r.written.Some? && stored.value == saved ==> r.shown == r.written.value
  {
    if !loggedIn then BookmarkOutcome(saved, None)
    else
      var written := if remoteOk && stored.Some?
                     then Some(UpdateSaved(stored.value, courseId, courseId in saved))
                     else None;
      BookmarkOutcome(Toggle(saved, courseId), written)
  }
}
