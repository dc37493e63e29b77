# vandy-class-connect: the derived state of the course pages, in Dafny

vandy-class-connect is a Next.js front end for reviewing university courses. Its pages fetch
records from a PocketBase backend and cache some of them with localforage. Around those calls,
three pages compute derived state, and that logic is what this project models and proves:

- **Home** (`src/app/home/page.tsx`, module `Home` with `ListUpdates`):
  - the `filterCourses` effect: a subject whitelist, a minimum rating and a word search over
    code and name, each skipped when off, then an in-place sort by `averageRating || 0`,
    highest first;
  - the list updates behind the filter chips, the subject select and the bookmarks;
  - the de-duplicated list of subjects.
- **Course detail** (`src/app/course/page.tsx`, module `CourseDetail`):
  - the five-minute cache gate of `fetchCourse`;
  - the average rating and the tutor flag of `initializeState`;
  - the three review filters and the grid-class choice;
  - the reviewer's display name;
  - `checkIfSaved`, and `toggleSaveCourse` with its three state updates.
- **Add review** (`src/app/addReview/page.tsx`, module `AddReview`):
  - the live word count;
  - the ordered checks of `handleSave`;
  - the professor-id and review-id merges;
  - the stored average, as the code computes it;
  - the writes `handleSave` issues, in order, with the `error` and `saving` flags around them.

Supporting modules:

- `Seqs`: `Array.prototype.filter` and `[...new Set(...)]`.
- `Text`: JavaScript's `trim`, `split(/\s+/)`, `split(' ')`, `toLowerCase` and `includes`.
- `Ratings`: sums and means of ratings, a missing rating counting as 0.
- `Wrappers`: `Option` and `Result`.

Representation:

- Ratings are `real`. A missing field (`undefined`) is `None`.
- Backend answers, cached records and the clock are parameters.
- A backend that can throw is modelled by how many writes it accepts before a call fails.

Where the code uses an in-place effect, so does the model:

- `Home.FilterCourses` sorts an `array`. With no filter active, that array is the `courses`
  array itself.
- `CourseDetail.CoursePage` and `AddReview.ReviewForm` are classes whose methods update the
  page's state fields in the order the code does.

The stored average of the add-review page is modelled exactly as written. The review list is
fetched after the new review is created, so the new rating is counted twice:
`AddReview.NewAverageCountsNewReviewTwice` proves this, and `AddReview.NewAverageIsMeanIff`
characterises when the stored value still equals the true mean.

## Model

| member | source | states |
|---|---|---|
| Home.FilterCourses | src/app/home/page.tsx:86-106 | The result is sorted by `averageRating \|\| 0`, highest first. Its multiset equals that of the courses passing every active filter. With no filter active it is the `courses` array itself, sorted in place. Otherwise it is a fresh array and `courses` is untouched. |
| Home.Selected | src/app/home/page.tsx:87-103 | The three `filter` calls in turn, each skipped when its filter is off (no subjects, no rating, an empty query), keeping input order. |
| Home.SelectedIff | src/app/home/page.tsx:87-103 | A course survives the filters iff it is in the input and passes each active filter: subject listed, rating present and at least the minimum, every query word in the lower-cased code or name. |
| Home.SelectedCount | src/app/home/page.tsx:87-103 | The filters add nothing and drop nothing: a passing course keeps its multiplicity and a failing one has none. |
| Home.SortByRating | src/app/home/page.tsx:104 | The in-place sort leaves the array non-increasing in `averageRating \|\| 0` and a permutation of what it was. |
| Home.SearchMatchesIff | src/app/home/page.tsx:95-103 | The text filter holds iff every query word is a substring of the lower-cased code or of the lower-cased name. |
| Home.EmptyWordsMatchAll | src/app/home/page.tsx:96-102 | Empty query words, from doubled, leading or trailing spaces, match every course. |
| Home.SearchIgnoresCase | src/app/home/page.tsx:96-101 | Lower-casing the query, or the course's code and name, does not change the text filter. |
| Home.CourseSubjects | src/app/home/page.tsx:74 | The subject options have no duplicates. Every course's subject is among them, and each one is some course's subject. |
| Home.SelectSubject | src/app/home/page.tsx:207-217 | `""` clears the list. Any other subject is in the result, together with exactly the previous ones. A new subject is appended after the previous ones, kept in order; a subject already present leaves the list unchanged, and no duplicate is ever introduced. |
| Home.ToggleSaveCourse | src/app/home/page.tsx:124-153 | Without a user nothing changes, because reading `userCookies.id` throws first. With a user, the list shown at once holds `courseId` iff the local list did not. The list written to the user record exists iff `getOne` and `update` succeed and the record has `savedCourses`; it holds `courseId` iff the local list did not, and it keeps every other stored id. Every other shown id is kept, and the two lists agree when they started equal. |
| ListUpdates.Toggle | src/app/home/page.tsx:116-122 | After the toggle, `x` is in the list iff it was not before. |
| ListUpdates.ToggleTwice | src/app/home/page.tsx:116-122 | Toggling twice restores a list that lacked `x`. A list that held `x` ends with all other elements in order and one `x` at the end. |
| ListUpdates.RemoveAll | src/app/home/page.tsx:156-160 | `x` is removed entirely. Every other element stays, and nothing is added. |
| ListUpdates.RemoveAllCount | src/app/home/page.tsx:156-160 | Removal drops all copies of `x` and keeps every copy of every other element. |
| ListUpdates.RemoveAllConcat | src/app/home/page.tsx:156-160 | Removal works piecewise, so the remaining elements keep their relative order. |
| ListUpdates.RemoveAllAbsent | src/app/home/page.tsx:156-160 | Removing an absent element changes nothing. |
| ListUpdates.UpdateSaved | src/app/home/page.tsx:130-134 | Afterwards `x` is present iff it was not saved before. When it was not, the old list is kept as a prefix and `x` is appended once at the end. |
| ListUpdates.UpdateSavedCount | src/app/home/page.tsx:130-134 | The update touches only `x`: it removes every copy or adds exactly one, and leaves all other counts unchanged. |
| Seqs.Dedup | src/app/addReview/page.tsx:111 | `[...new Set(s)]` has no duplicates and holds exactly the elements of `s`. |
| Seqs.DedupPrefix | src/app/addReview/page.tsx:111 | Appending elements only extends the result: earlier first occurrences keep their places. |
| Seqs.DedupOfDistinct | src/app/addReview/page.tsx:111 | A list without duplicates is unchanged. |
| Text.Trim | src/app/addReview/page.tsx:68 | The trimmed comment is empty iff the comment is all whitespace. |
| Text.WordCount | src/app/addReview/page.tsx:29-31 | `comment.trim().split(/\s+/).filter(Boolean).length`, built from the models of `trim`, `split(/\s+/)` and `filter(Boolean)`. |
| Text.WordCountIsWordStarts | src/app/addReview/page.tsx:29-31 | The word count, computed as `trim`, `split(/\s+/)` and `filter(Boolean)`, equals the number of positions where a word starts, counted independently. |
| Text.SplitWsCountsStarts | src/app/addReview/page.tsx:29 | The non-empty pieces of `split(/\s+/)` number exactly the word starts. |
| Text.TrimKeepsStarts | src/app/addReview/page.tsx:29 | Trimming removes no word start. |
| Text.WordCountZeroIffBlank | src/app/addReview/page.tsx:27-31 | The word count is 0 iff the text is blank. |
| Text.JoinSplitOn | src/app/home/page.tsx:96 | `split(' ')` loses nothing: joining the pieces with `' '` gives the text back. |
| Text.IncludesIff | src/app/home/page.tsx:99-100 | `includes` holds iff the needle occurs at some position of the text. |
| Text.ToLowerIdempotent | src/app/home/page.tsx:96-100 | Lower-casing twice is lower-casing once. |
| Ratings.Sum | src/app/course/page.tsx:328-331 | `reviews.reduce((sum, review) => sum + (review.rating \|\| 0), 0)`: the ratings added from the left, a missing rating counting as 0. |
| Ratings.SumPermutation | src/app/addReview/page.tsx:117-122 | Two rating lists with the same multiset have the same sum, so the order in which the backend lists the reviews does not matter. |
| Ratings.SumConcat | src/app/course/page.tsx:328-331 | The sum of a concatenation is the sum of the parts. |
| Ratings.Mean | src/app/course/page.tsx:332-333 | `totalRating / reviews.length` for a non-empty list. |
| Ratings.SumBounds | src/app/course/page.tsx:137-140 | With every rating from 0 to 5, the `reduce` sum lies between 0 and 5 times the count. |
| Ratings.MeanInScale | src/app/course/page.tsx:137-143 | With every rating from 0 to 5, so is the mean. |
| CourseDetail.IsFresh | src/app/course/page.tsx:107 | A cached course is usable iff it exists, has a `cachedAt`, and `now - cachedAt < 300000`. |
| CourseDetail.FetchCourse | src/app/course/page.tsx:101-130 | A fresh cached course is shown with nothing written. Otherwise, when the fetch and the cache write both succeed, the fetched course stamped `cachedAt = now` is written to the cache and shown. When either throws, nothing is cached and no course is shown. |
| CourseDetail.RefetchFreshForExpiry | src/app/course/page.tsx:101-124 | A record cached at `now` counts as fresh at `later` iff `later - now < 300000`, and while fresh it is served without a refetch, whatever a new fetch would return. |
| CourseDetail.AverageRating | src/app/course/page.tsx:328-335 | Non-empty expanded reviews give the mean of their ratings, a missing rating counting as 0. Otherwise the result is `averageRating \|\| 0`. When `expand` holds no reviews list, the `reduce` call throws. |
| CourseDetail.AverageInScale | src/app/course/page.tsx:137-143 | With ratings from 0 to 5, the displayed average is from 0 to 5. |
| CourseDetail.IsTutor | src/app/course/page.tsx:337-338 | The flag holds iff there is a current user id and the tutor list, empty if missing, contains it. |
| CourseDetail.FilteredReviews | src/app/course/page.tsx:356-368 | Every shown review is a review that matches the professor, rating and syllabus filters, each of which holds when switched off. Every matching review is shown. |
| CourseDetail.FilteredReviewsCount | src/app/course/page.tsx:356-368 | Each matching review keeps its multiplicity and no other review is shown. |
| CourseDetail.FilteredReviewsConcat | src/app/course/page.tsx:356-368 | The filter works piecewise, so shown reviews keep their order. |
| CourseDetail.FiltersOffShowAll | src/app/course/page.tsx:356-368 | With every filter off (`""`, a threshold of 0 or less, `false`), all reviews are shown. |
| CourseDetail.GridClasses | src/app/course/page.tsx:371-377 | One column for 0 or 1 shown reviews, two for exactly 2, three for 3 or more. |
| CourseDetail.DisplayName | src/app/course/page.tsx:653-657 | The name is `'Anonymous'` iff the review is anonymous or its author lacks either name part. Otherwise it is `"first last"`. |
| CourseDetail.CoursePage.constructor | src/app/course/page.tsx:88-94 | The page starts with the bookmark flag false (`useState(false)`) and an empty popup message (`useState('')`); the stored list and the cache entry are the given ones. |
| CourseDetail.CoursePage.CheckIfSaved | src/app/course/page.tsx:232-250 | With a user, a course and a successful `getOne`, the flag says whether the stored list holds the course. Without a user or a course, or when `getOne` throws and the `catch` runs, the flag keeps its value. |
| CourseDetail.CoursePage.ToggleSaveCourse | src/app/course/page.tsx:172-229 | Without a user, only the login popup is set. Otherwise the user's stored list and then the cache entry (created empty when missing, stamped `now`) are updated, then the flag flips. Unsaving removes every copy and saving appends one. The cache then holds the course iff the flag is set. |
| AddReview.Validate | src/app/addReview/page.tsx:57-71 | The first failing check wins: more than 400 words, then a rating of 0 or less, then a blank comment. No error iff all three pass. |
| AddReview.BlankCommentIffNoWords | src/app/addReview/page.tsx:58-71 | The blank-comment check fails iff the word count is 0, so a comment over the word limit is never blank. |
| AddReview.MergeProfessors | src/app/addReview/page.tsx:110-111 | The merged professor ids have no duplicates and hold exactly the existing ids and the new one. |
| AddReview.MergeProfessorsOfDistinct | src/app/addReview/page.tsx:110-111 | On a duplicate-free list, the merge appends the professor only when new and otherwise returns the list unchanged. |
| AddReview.AppendId | src/app/addReview/page.tsx:113-114 | The existing ids, empty if missing, then the new id at the end. |
| AddReview.NewAverage | src/app/addReview/page.tsx:122-123 | The stored average as written: the fetched ratings' sum (missing as 0) plus the new rating, over the fetched count plus one. |
| AddReview.NewAverageCountsNewReviewTwice | src/app/addReview/page.tsx:117-123 | When the fetched list holds the prior reviews and the new one, in any order, the stored average is (prior sum + 2 × new rating) / (prior count + 2). |
| AddReview.NewAverageIsMeanIff | src/app/addReview/page.tsx:117-123 | For such a fetched list, in any order, the stored average equals the true mean of all reviews iff the new rating times the prior count equals the prior sum. |
| AddReview.NewAverageInScale | src/app/addReview/page.tsx:122-123 | With ratings from 0 to 5, the stored average is from 0 to 5. |
| AddReview.SaveWrites | src/app/addReview/page.tsx:98-146 | The writes of a save, in order: the review with its one professor, the course's review ids, average and professor ids, the syllabus upload when a file is chosen, and the user's review ids with the new id appended. |
| AddReview.ReviewForm.constructor | src/app/addReview/page.tsx:16-23 | The form starts with rating 0, an empty comment with word count 0, no error, not saving, and no writes. |
| AddReview.ReviewForm.HandleCommentChange | src/app/addReview/page.tsx:27-32 | The comment and its word count change together, so the count stays that of the comment. |
| AddReview.ReviewForm.HandleRatingInput | src/app/addReview/page.tsx:206-213 | An input that does not parse sets the rating to 0. Any parsed value is kept. |
| AddReview.ReviewForm.SendWrites | src/app/addReview/page.tsx:107-146 | The writes go out in order (review, course update, optional syllabus, user's reviews), until the backend stops accepting them. `ok` says all went out, and every write is issued while `saving` holds. |
| AddReview.ReviewForm.HandleSave | src/app/addReview/page.tsx:57-154 | A failed check sets its message, leaves `saving` unchanged and writes nothing. Otherwise the save's writes are issued in order for as long as the backend accepts them, each while `saving` is true. The error is the save error iff one was refused, and `saving` is false at the end. |

## Left out

- PocketBase, localforage and `Date.now()`: the records fetched, the cache entries read and the
  clock are parameters. Which backend writes a save reaches is decided by a count of accepted
  writes. Reads that throw (`getFullList`, `getOne`) are not distinguished from refused writes.
- The professor lookup-or-create in `handleSave` (`src/app/addReview/page.tsx:76-95`) is remote
  I/O: its result is the parameter `professorId`, and a created professor is not logged as a write.
- The syllabus upload's `FormData`, `pb.files.getUrl`, `fetchTutorDetails`, `reportReview`,
  `addTutor`, `copyEmail`, `toggleTutors`, navigation and `setTimeout`: I/O and UI only.
- React scheduling: state setters take effect in the order written, and the `useEffect`
  dependencies and re-renders are not modelled.
- Floating point: ratings are reals. NaN, `parseFloat` beyond "does not parse gives 0",
  `Number()` and `toFixed` are not modelled. A rating is 0 or less or it is positive, so
  `!rating` needs no separate case.
- `toLowerCase` is modelled for ASCII and Latin-1 letters only. Other scripts' case mappings,
  and mappings that change a string's length, are not modelled.
- CourseDetail.FetchCourse: a `localforage.getItem` that throws is not modelled. The cached
  record it reads is a parameter.
- CourseDetail.CoursePage.ToggleSaveCourse:
  - It does not model a backend call that throws part way, which leaves the earlier updates done
    and the later ones skipped.
  - It does not model a missing `savedCourses` field, on which the code's `filter` would throw.
  - Cache entries are modelled by their ids alone, not as `{ id }` objects.
- `src/app/components/NavBar.tsx`, `src/app/layout.tsx`, the JSX and the styling (except the
  grid classes), and the tests under `__tests__/`, which exercise pages outside this model.
- AddReview.ReviewForm.HandleSave: requires and ensures only the write log's invariant. The word
  count invariant is preserved because the method cannot modify the comment or the count.
