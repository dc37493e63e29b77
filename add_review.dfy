/** The review form: the live word count, the checks `handleSave` runs before saving, and the
    ordered backend writes it then issues (the review, the course's review list, average and
    professors, the optional syllabus, the user's review list). */
module AddReview {
  import opened Wrappers
  import opened Seqs
  import opened Text
  import opened Ratings

  const MaxWordCount: nat := 400

  const WordLimitError: string := "Your comment exceeds the maximum word limit of 400 words."
  const RatingError: string := "Please provide a valid rating."
  const CommentError: string := "Please provide a comment."
  const SaveError: string := "Error saving review."

  /** The checks of `handleSave`, first failure wins: the word limit, then a positive rating,
      then a non-blank comment. `None` means the save goes ahead. */
  function Validate(wordCount: nat, rating: real, comment: string): (e: Option<string>)
    ensures wordCount > MaxWordCount ==> e == Some(WordLimitError)
    ensures wordCount <= MaxWordCount && rating <= 0.0 ==> e == Some(RatingError)
    ensures wordCount <= MaxWordCount && rating > 0.0 && IsBlank(comment) ==> e == Some(CommentError)
    ensures e == None <==> wordCount <= MaxWordCount && rating > 0.0 && !IsBlank(comment)
  {
    if wordCount > MaxWordCount then Some(WordLimitError)
    else if rating <= 0.0 then Some(RatingError)
    else if Trim(comment) == "" then Some(CommentError)
    else None
  }

  /** With the word count kept in step with the comment, the blank-comment check fails exactly
      when the comment has no word, and a comment over the word limit is never blank. */
  lemma BlankCommentIffNoWords(comment: string)
    ensures Trim(comment) == "" <==> WordCount(comment) == 0
    ensures WordCount(comment) > MaxWordCount ==> !IsBlank(comment)
  {
    WordCountZeroIffBlank(comment);
  }

  /** `[...new Set([...existingProfessorIds, professorId])]`. */
  function MergeProfessors(existing: seq<string>, professorId: string): (r: seq<string>)
    ensures NoDuplicates(r)
    ensures professorId in r
    ensures forall x :: x in r <==> x in existing || x == professorId
  {
    var all := existing + [professorId];
    assert professorId == all[|all| - 1];
    assert forall x :: x in all <==> x in existing || x == professorId;
    Dedup(all)
  }

  /** On a duplicate-free list the merge keeps the list as it is and appends the professor only
      when new. */
  lemma MergeProfessorsOfDistinct(existing: seq<string>, professorId: string)
    requires NoDuplicates(existing)
    ensures MergeProfessors(existing, professorId)
         == if professorId in existing then existing else existing + [professorId]
  {
    DedupSnoc(existing, professorId);
    DedupOfDistinct(existing);
  }

  /** `[...(ids || []), id]`: the new id at the end of the existing ones. */
  function AppendId(ids: Option<seq<string>>, id: string): (r: seq<string>)
    ensures |r| == |ids.GetOr([])| + 1
    ensures r[..|r| - 1] == ids.GetOr([]) && r[|r| - 1] == id
    ensures multiset(r) == multiset(ids.GetOr([])) + multiset{id}
  {
    ids.GetOr([]) + [id]
  }

  /** The stored average, as written: the fetched reviews' ratings (missing as 0) plus the new
      rating, over the number of fetched reviews plus one. */
  function NewAverage(fetched: seq<Option<real>>, newRating: real): real
  {
    Ratio(Sum(fetched) + newRating, |fetched| + 1)
  }

  /** The reviews are fetched after the new one is created, so the list holds the prior reviews
      and the new one, in whatever order the backend returns them: the formula then counts the
      new rating twice, over the prior count plus two. */
  lemma NewAverageCountsNewReviewTwice(prior: seq<Option<real>>, fetched: seq<Option<real>>,
                                       newRating: real, s: real)
    requires s == Sum(prior)
    requires multiset(fetched) == multiset(prior) + multiset{Some(newRating)}
    ensures NewAverage(fetched, newRating) == Ratio(s + 2.0 * newRating, |prior| + 2)
  {
    FetchedSum(prior, fetched, newRating, s);
    var total := Sum(fetched) + newRating;
    assert NewAverage(fetched, newRating) == Ratio(total, |fetched| + 1);
    RatioCongruence(total, |fetched| + 1, s + 2.0 * newRating, |prior| + 2);
  }

  /** The fetched list holds one review more than before, and its ratings add the new rating to
      the prior sum. */
  lemma FetchedSum(prior: seq<Option<real>>, fetched: seq<Option<real>>, newRating: real, s: real)
    requires s == Sum(prior)
    requires multiset(fetched) == multiset(prior) + multiset{Some(newRating)}
    ensures |fetched| == |prior| + 1 && Sum(fetched) == s + newRating
  {
    assert |fetched| == |multiset(fetched)| == |multiset(prior + [Some(newRating)])|;
    SumPermutation(fetched, prior + [Some(newRating)]);
    SumSnoc(prior, Some(newRating));
  }

  /** Two fractions with positive denominators are equal iff their cross products are. */
  lemma FractionsEqual(a: real, b: real, c: real, d: real)
    requires b > 0.0 && d > 0.0
    ensures a / b == c / d <==> a * d == c * b
  {
    var x, y := a / b, c / d;
    assert x * b == a && y * d == c;
    assert a * d == x * (b * d) && c * b == y * (b * d);
    if a * d == c * b {
      assert (x - y) * (b * d) == 0.0;
    }
  }

  /** The as-written average over `n` prior ratings summing to `s` equals the mean with the new
      rating `r` counted once iff `r` times `n` is `s`. */
  lemma DoubleCountAlgebra(s: real, n: nat, r: real)
    ensures Ratio(s + 2.0 * r, n + 2) == Ratio(s + r, n + 1) <==> r * n as real == s
  {
    var m := n as real;
    FractionsEqual(s + 2.0 * r, (n + 2) as real, s + r, (n + 1) as real);
    assert (n + 2) as real == m + 2.0 && (n + 1) as real == m + 1.0;
    assert (s + 2.0 * r) * (m + 1.0) - (s + r) * (m + 2.0) == r * m - s;
  }

  /** The stored average equals the true mean of all reviews (the new one counted once) exactly
      when there were no prior reviews or the new rating equals the prior mean. */
  lemma NewAverageIsMeanIff(prior: seq<Option<real>>, fetched: seq<Option<real>>, newRating: real,
                            s: real)
    requires s == Sum(prior)
    requires multiset(fetched) == multiset(prior) + multiset{Some(newRating)}
    ensures NewAverage(fetched, newRating) == Mean(fetched) <==> newRating * |prior| as real == s
  {
    FetchedSum(prior, fetched, newRating, s);
    calc {
      NewAverage(fetched, newRating) == Mean(fetched);
    <==> { NewAverageCountsNewReviewTwice(prior, fetched, newRating, s);
           MeanWithNewRating(prior, fetched, newRating, s); }
      Ratio(s + 2.0 * newRating, |prior| + 2) == Ratio(s + newRating, |prior| + 1);
    <==> { DoubleCountAlgebra(s, |prior|, newRating); }
      newRating * |prior| as real == s;
    }
  }

  /** The true mean once the new review is in the list: the prior sum `s` plus the new rating,
      over the prior count plus one. */
  lemma MeanWithNewRating(prior: seq<Option<real>>, fetched: seq<Option<real>>, newRating: real,
                          s: real)
    requires s == Sum(prior)
    requires multiset(fetched) == multiset(prior) + multiset{Some(newRating)}
    ensures |fetched| > 0 && Mean(fetched) == Ratio(s + newRating, |prior| + 1)
  {
    FetchedSum(prior, fetched, newRating, s);
    RatioCongruence(Sum(fetched), |fetched|, s + newRating, |prior| + 1);
  }

  /** With every rating on the 0 to 5 scale, so is the stored average. */
  lemma NewAverageInScale(fetched: seq<Option<real>>, newRating: real)
    requires AllInScale(fetched) && 0.0 <= newRating <= 5.0
    ensures 0.0 <= NewAverage(fetched, newRating) <= 5.0
  {
    SumBounds(fetched);
    RatioTimesCount(Sum(fetched) + newRating, |fetched| + 1);
  }

  /** What the page knows of the course: its relations `professors` and `reviews`, when set. */
  datatype CourseRefs = CourseRefs(id: string, professors: Option<seq<string>>,
                                   reviews: Option<seq<string>>)

  /** The backend's answers during a save: the professor's id (found or created), the new
      review's id, the ratings of the course's reviews as fetched after the review is created,
      the user's review ids, and how many writes it accepts before a request throws. */
  datatype Backend = Backend(professorId: string, newReviewId: string,
                             fetchedRatings: seq<Option<real>>, userReviews: Option<seq<string>>,
                             accepted: nat)

  /** A backend write issued by `handleSave`. */
  datatype Write =
    | CreateReview(courseId: string, rating: real, comment: string, userId: string,
                   withSyllabus: bool, professors: seq<string>)
    | UpdateCourse(courseId: string, reviews: seq<string>, averageRating: real,
                   professors: seq<string>)
    | UploadSyllabus(courseId: string)
    | UpdateUserReviews(userId: string, reviews: seq<string>)

  /** The writes of a save that passes the checks, in the order they are issued. */
  function SaveWrites(userId: string, rating: real, comment: string, withSyllabus: bool,
                      course: CourseRefs, b: Backend): seq<Write>
  {
    [CreateReview(course.id, rating, comment, userId, withSyllabus, [b.professorId]),
     UpdateCourse(course.id, AppendId(course.reviews, b.newReviewId),
                  NewAverage(b.fetchedRatings, rating),
                  MergeProfessors(course.professors.GetOr([]), b.professorId))]
    + (if withSyllabus then [UploadSyllabus(course.id)] else [])
    + [UpdateUserReviews(userId, AppendId(b.userReviews, b.newReviewId))]
  }

  /** The form's state and the log of the backend writes it has issued. */
  class ReviewForm {
    var rating: real
    var comment: string
    var wordCount: nat
    var error: string
    var saving: bool
    var writes: seq<Write>
    /** The value of `saving` when each write was issued. */
    ghost var savingAtWrite: seq<bool>

    /** The word count is that of the current comment. */
    ghost predicate CountInStep()
      reads this`wordCount, this`comment
    {
      wordCount == WordCount(comment)
    }

    /** Every write has its `saving` record. */
    ghost predicate LogInStep()
      reads this`writes, this`savingAtWrite
    {
      |savingAtWrite| == |writes|
    }

    /** The word count is in step, and every write has its `saving` record. */
    ghost predicate Valid()
      reads this`wordCount, this`comment, this`writes, this`savingAtWrite
    {
      CountInStep() && LogInStep()
    }

    constructor ()
      ensures Valid()
      ensures rating == 0.0 && comment == "" && error == "" && !saving && writes == []
    {
      rating := 0.0;
      comment := "";
      wordCount := 0;
      error := "";
      saving := false;
      writes := [];
      savingAtWrite := [];
      assert SplitWs("") == [""];
      assert NonEmpty([""]) == [];
    }

    /** `handleCommentChange`: the comment and its word count change together. */
    method HandleCommentChange(newComment: string)
      requires Valid()
      modifies this`comment, this`wordCount
      ensures Valid()
      ensures comment == newComment && wordCount == WordCount(newComment)
    {
      comment := newComment;
      wordCount := |NonEmpty(SplitWs(Trim(newComment)))|;
    }

    /** The rating input's `onChange`: a value that does not parse (NaN) sets 0, any other value
        is kept. */
    method HandleRatingInput(parsed: Option<real>)
      modifies this`rating
      ensures parsed.None? ==> rating == 0.0
      ensures parsed.Some? ==> rating == parsed.value
    {
      if parsed.Some? {
        rating := parsed.value;
      } else {
        rating := 0.0;
      }
    }

    /** One awaited backend call: `w`, the write at position `k` of the save's `plan`, is issued
        when the backend still accepts a write (`budget > 0`); otherwise the call throws. */
    method Issue(ghost before: seq<Write>, ghost plan: seq<Write>, ghost k: nat, w: Write,
                 budget: nat)
      returns (ok: bool)
      requires LogInStep()
      requires k < |plan| && plan[k] == w && writes == before + plan[..k]
      modifies this`writes, this`savingAtWrite
      ensures LogInStep()
      ensures ok == (budget > 0)
      ensures writes == before + plan[..if ok then k + 1 else k]
      ensures savingAtWrite == old(savingAtWrite) + (if ok then [saving] else [])
    {
      ok := budget > 0;
      if ok {
        writes := writes + [w];
        savingAtWrite := savingAtWrite + [saving];
        assert plan[..k + 1] == plan[..k] + [plan[k]];
      }
    }

    /** The writes of a save, in order, each issued only while the backend accepts them; `ok`
        is false once one throws. */
    method SendWrites(userId: string, withSyllabus: bool, course: CourseRefs, b: Backend)
      returns (ok: bool)
      requires LogInStep()
      modifies this`writes, this`savingAtWrite
      ensures LogInStep()
      ensures var plan := SaveWrites(userId, rating, comment, withSyllabus, course, b);
        && ok == (b.accepted >= |plan|)
        && writes == old(writes) + plan[..if ok then |plan| else b.accepted]
      ensures forall i :: |old(writes)| <= i < |writes| ==> savingAtWrite[i] == saving
    {
      ghost var plan := SaveWrites(userId, rating, comment, withSyllabus, course, b);
      ghost var before := writes;
      ghost var k := 0;
      assert before + plan[..0] == before;
      var budget := b.accepted;
      ok := Issue(before, plan, 0,
                  CreateReview(course.id, rating, comment, userId, withSyllabus, [b.professorId]),
                  budget);
      if ok {
        k, budget := 1, budget - 1;
        var reviews := AppendId(course.reviews, b.newReviewId);
        var average := NewAverage(b.fetchedRatings, rating);
        var professors := MergeProfessors(course.professors.GetOr([]), b.professorId);
        ok := Issue(before, plan, 1, UpdateCourse(course.id, reviews, average, professors), budget);
        if ok {
          k := 2;
        }
      }
      assert ok ==> k == 2 && budget == b.accepted - 1;
      assert !ok ==> k == b.accepted;
      if ok && withSyllabus {
        budget := budget - 1;
        ok := Issue(before, plan, 2, UploadSyllabus(course.id), budget);
        if ok {
          k := 3;
        }
      }
      assert ok ==> k == |plan| - 1 && budget == b.accepted - k + 1;
      assert !ok ==> k == b.accepted;
      if ok {
        budget := budget - 1;
        ok := Issue(before, plan, k, UpdateUserReviews(userId, AppendId(b.userReviews, b.newReviewId)),
                    budget);
        if ok {
          k := k + 1;
        }
      }
    }

    /** `handleSave`. A failed check sets its message and returns with nothing written and
        `saving` untouched. Otherwise the error is cleared and `saving` set before the first
        write; the writes go out in order until the backend stops accepting them; a failure
        sets the save error; and `saving` is cleared at the end either way. */
    method HandleSave(userId: string, withSyllabus: bool, course: CourseRefs, b: Backend)
      requires LogInStep()
      modifies this`error, this`saving, this`writes, this`savingAtWrite
      ensures LogInStep()
      ensures Validate(old(wordCount), old(rating), old(comment)).Some? ==>
        && error == Validate(old(wordCount), old(rating), old(comment)).value
        && saving == old(saving) && writes == old(writes)
      ensures Validate(old(wordCount), old(rating), old(comment)).None? ==>
        var plan := SaveWrites(userId, old(rating), old(comment), withSyllabus, course, b);
        && writes == old(writes) + plan[..if b.accepted < |plan| then b.accepted else |plan|]
        && error == (if b.accepted < |plan| then SaveError else "")
        && !saving
      ensures forall i :: |old(writes)| <= i < |writes| ==> savingAtWrite[i]
    {
      var invalid := Validate(wordCount, rating, comment);
      if invalid.Some? {
        error := invalid.value;
        return;
      }
      saving := true;
      error := "";
      var ok := SendWrites(userId, withSyllabus, course, b);
      if !ok {
        error := SaveError;
      }
      saving := false;
    }
  }
}
