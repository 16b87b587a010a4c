/**
 * The navigation logic of the personality assessment page: which questions
 * are still to be answered, the progress figure, which category is shown
 * next, and when the assessment is complete.
 *
 * The page keeps four pieces of state (the active category, the index of
 * the current question among the incomplete ones, the ids answered so far
 * and a completion flag). Its two handlers are methods of
 * `AssessmentState`. A React state update only takes effect on the next
 * render, so every read a handler makes sees the state as it was when the
 * handler started; the methods therefore read their inputs from a snapshot
 * (`old(...)` in the contracts) and the derived question lists are
 * recomputed from the new state afterwards. The functional update that
 * appends an answered id is taken to see the same snapshot, that is, no
 * other render intervenes between a handler's start and its updates.
 *
 * Loading questions, categories and saved responses is not modelled: they
 * are parameters, and `None` stands for data that has not arrived yet.
 */
module PersonalityAssessment {
  import opened Wrappers
  import opened JsMath

  datatype Question = Question(id: string, categoryId: string)

  datatype Category = Category(id: string)

  /** A category id as JavaScript tests it: `null` and the empty string are both false. */
  predicate IsActive(activeCategory: Option<string>)
  {
    activeCategory.Some? && activeCategory.value != ""
  }

  predicate NoDuplicates(ids: seq<string>)
  {
    forall i, j :: 0 <= i < j < |ids| ==> ids[i] != ids[j]
  }

  /** Question ids are primary keys: no two questions share one. */
  predicate DistinctIds(qs: seq<Question>)
  {
    forall i, j :: 0 <= i < j < |qs| ==> qs[i].id != qs[j].id
  }

  function QuestionIds(qs: seq<Question>): set<string>
  {
    set q | q in qs :: q.id
  }

  // ---------------------------------------------------------------------------
  // Derived values recomputed on every render
  // ---------------------------------------------------------------------------

  /** The questions of one category, in their original order. */
  function InCategory(qs: seq<Question>, categoryId: string): (r: seq<Question>)
    ensures forall q :: q in r <==> q in qs && q.categoryId == categoryId
    ensures |r| <= |qs|
    ensures DistinctIds(qs) ==> DistinctIds(r)
  {
    if |qs| == 0 then []
    else
      var rest := InCategory(qs[1..], categoryId);
      assert DistinctIds(qs) ==> forall q :: q in rest ==> q.id != qs[0].id;
      if qs[0].categoryId == categoryId then [qs[0]] + rest else rest
  }

  /** The questions whose id has not been answered, in their original order. */
  function Incomplete(qs: seq<Question>, completed: seq<string>): (r: seq<Question>)
    ensures forall q :: q in r <==> q in qs && q.id !in completed
    ensures |r| <= |qs|
    ensures DistinctIds(qs) ==> DistinctIds(r)
  {
    if |qs| == 0 then []
    else
      var rest := Incomplete(qs[1..], completed);
      assert DistinctIds(qs) ==> forall q :: q in rest ==> q.id != qs[0].id;
      if qs[0].id !in completed then [qs[0]] + rest else rest
  }

  /**
   * The questions on show: none before the questions have loaded, those of
   * the active category when one is set, otherwise all of them.
   */
  function FilteredQuestions(allQuestions: Option<seq<Question>>, activeCategory: Option<string>): (qs: seq<Question>)
    ensures forall q :: q in qs <==>
      allQuestions.Some? && q in allQuestions.value && (IsActive(activeCategory) ==> q.categoryId == activeCategory.value)
    ensures allQuestions.Some? && !IsActive(activeCategory) ==> qs == allQuestions.value
    ensures allQuestions.Some? && DistinctIds(allQuestions.value) ==> DistinctIds(qs)
  {
    if allQuestions.None? then []
    else if IsActive(activeCategory) then InCategory(allQuestions.value, activeCategory.value)
    else allQuestions.value
  }

  /** The shown questions that have not been answered yet; the current question is taken from this list. */
  function IncompleteQuestions(allQuestions: Option<seq<Question>>, activeCategory: Option<string>, completed: seq<string>): (qs: seq<Question>)
    ensures forall q :: q in qs <==>
      allQuestions.Some? && q in allQuestions.value && q.id !in completed &&
      (IsActive(activeCategory) ==> q.categoryId == activeCategory.value)
  {
    Incomplete(FilteredQuestions(allQuestions, activeCategory), completed)
  }

  /** Percentage of questions answered, rounded half up; 0 while there are no questions. */
  function ProgressPercentage(allQuestions: Option<seq<Question>>, completed: seq<string>): (p: int)
    ensures allQuestions.None? || |allQuestions.value| == 0 ==> p == 0
    ensures allQuestions.Some? && |allQuestions.value| > 0 ==>
      |allQuestions.value| * (2 * p - 1) <= 200 * |completed| < |allQuestions.value| * (2 * p + 1)
  {
    if allQuestions.Some? && |allQuestions.value| > 0 then RoundDiv(100 * |completed|, |allQuestions.value|)
    else 0
  }

  /** The questions among `qs` whose id has been answered. */
  function Answered(qs: seq<Question>, completed: seq<string>): (r: seq<Question>)
    ensures |r| <= |qs|
    ensures |r| == |qs| <==> forall q :: q in qs ==> q.id in completed
  {
    if |qs| == 0 then []
    else
      var rest := Answered(qs[1..], completed);
      assert forall q :: q in qs[1..] ==> q in qs;
      if qs[0].id in completed then [qs[0]] + rest else rest
  }

  /**
   * The "completed" mark on the category list: the category has at least
   * one question and every one of them has been answered.
   */
  function CategoryCompleted(allQuestions: Option<seq<Question>>, completed: seq<string>, categoryId: string): (done: bool)
    ensures done <==>
      allQuestions.Some? &&
      (exists q :: q in allQuestions.value && q.categoryId == categoryId) &&
      (forall q :: q in allQuestions.value && q.categoryId == categoryId ==> q.id in completed)
  {
    var categoryQuestions := if allQuestions.Some? then InCategory(allQuestions.value, categoryId) else [];
    var completedCount := |Answered(categoryQuestions, completed)|;
    assert |categoryQuestions| > 0 ==> categoryQuestions[0] in categoryQuestions;
    completedCount == |categoryQuestions| && |categoryQuestions| > 0
  }

  // ---------------------------------------------------------------------------
  // The next-category search, as a function of the snapshot it reads
  // ---------------------------------------------------------------------------

  predicate AllCompleted(qs: seq<Question>, completed: seq<string>)
  {
    forall q :: q in qs ==> q.id in completed
  }

  /** The `every` test of the search agrees with the page's filter: all answered exactly when no question is left unanswered. */
  lemma AllCompletedIffNoneIncomplete(qs: seq<Question>, completed: seq<string>)
    ensures AllCompleted(qs, completed) <==> |Incomplete(qs, completed)| == 0
  {
    var rest := Incomplete(qs, completed);
    if |rest| > 0 {
      assert rest[0] in rest;
    }
  }

  /** Some question of the category is still unanswered. */
  predicate HasIncomplete(qs: seq<Question>, completed: seq<string>, categoryId: string)
  {
    exists q :: q in qs && q.categoryId == categoryId && q.id !in completed
  }

  /**
   * The `some` test of the search agrees with the page's filters: a category
   * has an unanswered question exactly when filtering the unanswered
   * questions down to that category leaves something.
   */
  lemma HasIncompleteIffFilteredNonEmpty(qs: seq<Question>, completed: seq<string>, categoryId: string)
    ensures HasIncomplete(qs, completed, categoryId) <==> |InCategory(Incomplete(qs, completed), categoryId)| > 0
  {
    var rest := InCategory(Incomplete(qs, completed), categoryId);
    if |rest| > 0 {
      assert rest[0] in rest;
    }
  }

  /** No category at index `from` or later has an unanswered question. */
  predicate NoIncompleteFrom(qs: seq<Question>, completed: seq<string>, categories: seq<Category>, from: nat)
  {
    forall j :: from <= j < |categories| ==> !HasIncomplete(qs, completed, categories[j].id)
  }

  /** `k` is the first index at or after `from` whose category has an unanswered question. */
  predicate FirstIncompleteFrom(qs: seq<Question>, completed: seq<string>, categories: seq<Category>, from: nat, k: nat)
  {
    from <= k < |categories| && HasIncomplete(qs, completed, categories[k].id) &&
    forall j :: from <= j < k ==> !HasIncomplete(qs, completed, categories[j].id)
  }

  /** The scan of the category list from index `from` on. */
  function FirstWithIncomplete(qs: seq<Question>, completed: seq<string>, categories: seq<Category>, from: nat): (r: Option<nat>)
    ensures r.Some? ==> FirstIncompleteFrom(qs, completed, categories, from, r.value)
    ensures r.None? <==> NoIncompleteFrom(qs, completed, categories, from)
    decreases |categories| - from
  {
    if from >= |categories| then None
    else if HasIncomplete(qs, completed, categories[from].id) then Some(from)
    else FirstWithIncomplete(qs, completed, categories, from + 1)
  }

  /** `findIndex` on category ids: the first match, or -1. */
  function IndexOfCategory(categories: seq<Category>, categoryId: string): (k: int)
    ensures -1 <= k < |categories|
    ensures k >= 0 ==> categories[k].id == categoryId && forall j :: 0 <= j < k ==> categories[j].id != categoryId
    ensures k == -1 <==> forall j :: 0 <= j < |categories| ==> categories[j].id != categoryId
  {
    if |categories| == 0 then -1
    else if categories[0].id == categoryId then 0
    else
      var k := IndexOfCategory(categories[1..], categoryId);
      if k < 0 then -1 else k + 1
  }

  /** What the next-category search does: nothing, finish, or enter a category at its first question. */
  datatype Move = Stay | Finish | Enter(categoryId: string)

  /**
   * Where the search starts: just after the active category, or (with no
   * active category) past the end, so that only the scan from the start
   * runs. An active id that is not listed gives -1 + 1 = 0.
   */
  function SearchStart(categories: seq<Category>, activeCategory: Option<string>): (start: nat)
    ensures start <= |categories|
    ensures !IsActive(activeCategory) ==> start == |categories|
    ensures IsActive(activeCategory) && 0 < start ==> categories[start - 1].id == activeCategory.value
    ensures IsActive(activeCategory) && start == 0 ==> forall j :: 0 <= j < |categories| ==> categories[j].id != activeCategory.value
  {
    if IsActive(activeCategory) then IndexOfCategory(categories, activeCategory.value) + 1 else |categories|
  }

  function NextMove(allQuestions: Option<seq<Question>>, categories: Option<seq<Category>>, completed: seq<string>,
                    activeCategory: Option<string>): (m: Move)
    ensures m.Stay? <==> allQuestions.None? || categories.None?
    ensures m.Enter? ==> allQuestions.Some? && HasIncomplete(allQuestions.value, completed, m.categoryId)
  {
    if categories.None? || allQuestions.None? then Stay
    else
      var qs, cats := allQuestions.value, categories.value;
      if AllCompleted(qs, completed) then Finish
      else
        var after := FirstWithIncomplete(qs, completed, cats, SearchStart(cats, activeCategory));
        if after.Some? then Enter(cats[after.value].id)
        else
          var first := FirstWithIncomplete(qs, completed, cats, 0);
          if first.Some? then Enter(cats[first.value].id) else Finish
  }

  // ---------------------------------------------------------------------------
  // Page state and the handlers' effect on it
  // ---------------------------------------------------------------------------

  /** The four state variables of the page. */
  datatype View = View(activeCategory: Option<string>, currentQuestionIndex: nat,
                       completedQuestions: seq<string>, isComplete: bool)

  function ApplyMove(v: View, m: Move): (w: View)
    ensures w.completedQuestions == v.completedQuestions
    ensures v.isComplete ==> w.isComplete
    ensures w.isComplete != v.isComplete <==> m.Finish? && !v.isComplete
    ensures w.activeCategory != v.activeCategory ==> w.currentQuestionIndex == 0 && m.Enter?
  {
    match m
    case Stay => v
    case Finish => v.(isComplete := true)
    case Enter(categoryId) => v.(activeCategory := Some(categoryId), currentQuestionIndex := 0)
  }

  /** Record an answer: append the id unless it is already there. */
  function AddCompleted(completed: seq<string>, questionId: string): (r: seq<string>)
    ensures forall x :: x in r <==> x in completed || x == questionId
    ensures NoDuplicates(completed) ==> NoDuplicates(r)
    ensures |r| == if questionId in completed then |completed| else |completed| + 1
  {
    if questionId in completed then completed else completed + [questionId]
  }

  /** The index step after an answer, as written: one further on, back to 0 past the end. */
  function AdvanceIndex(index: nat, length: nat): (r: nat)
    ensures index < length ==> r < length && r == (index + 1) % length
  {
    if index + 1 < length then index + 1 else 0
  }

  /**
   * The index step that keeps pointing at the next unanswered question:
   * the answered question leaves the list, so its successor moves into the
   * same position; past the end it goes back to 0.
   */
  function CorrectedNextIndex(index: nat, length: nat): (r: nat)
    ensures 1 < length && index < length ==> r < length - 1
  {
    if index + 1 < length then index else 0
  }

  /** The state after `handleQuestionComplete(questionId)`, every read taken from `v`. */
  function QuestionComplete(v: View, questionId: string, allQuestions: Option<seq<Question>>,
                            categories: Option<seq<Category>>): (r: View)
    ensures r.completedQuestions == AddCompleted(v.completedQuestions, questionId)
    ensures var incomplete := IncompleteQuestions(allQuestions, v.activeCategory, v.completedQuestions);
      1 < |incomplete| && v.currentQuestionIndex < |incomplete| ==>
        r.currentQuestionIndex < |incomplete| &&
        (r.currentQuestionIndex == v.currentQuestionIndex + 1 ||
         (r.currentQuestionIndex == 0 && v.currentQuestionIndex + 1 == |incomplete|))
    ensures r.activeCategory != v.activeCategory ==>
      r.activeCategory.Some? && r.currentQuestionIndex == 0 && allQuestions.Some? &&
      HasIncomplete(allQuestions.value, v.completedQuestions, r.activeCategory.value)
    ensures r.isComplete != v.isComplete ==> r.isComplete
  {
    var incomplete := IncompleteQuestions(allQuestions, v.activeCategory, v.completedQuestions);
    var recorded := v.(completedQuestions := AddCompleted(v.completedQuestions, questionId));
    if |incomplete| > 1 then
      recorded.(currentQuestionIndex := AdvanceIndex(v.currentQuestionIndex, |incomplete|))
    else if allQuestions.Some? && |v.completedQuestions| + 1 >= |allQuestions.value| then
      recorded.(isComplete := true)
    else
      ApplyMove(recorded, NextMove(allQuestions, categories, v.completedQuestions, v.activeCategory))
  }

  /** The same handler with the corrected index step. */
  function QuestionCompleteCorrected(v: View, questionId: string, allQuestions: Option<seq<Question>>,
                                     categories: Option<seq<Category>>): (r: View)
    ensures r.completedQuestions == AddCompleted(v.completedQuestions, questionId)
    ensures var incomplete := IncompleteQuestions(allQuestions, v.activeCategory, v.completedQuestions);
      1 < |incomplete| && v.currentQuestionIndex < |incomplete| ==>
        r.currentQuestionIndex < |incomplete| - 1
    ensures r.activeCategory != v.activeCategory ==>
      r.activeCategory.Some? && r.currentQuestionIndex == 0 && allQuestions.Some? &&
      HasIncomplete(allQuestions.value, v.completedQuestions, r.activeCategory.value)
    ensures r.isComplete != v.isComplete ==> r.isComplete
  {
    var incomplete := IncompleteQuestions(allQuestions, v.activeCategory, v.completedQuestions);
    var recorded := v.(completedQuestions := AddCompleted(v.completedQuestions, questionId));
    if |incomplete| > 1 then
      recorded.(currentQuestionIndex := CorrectedNextIndex(v.currentQuestionIndex, |incomplete|))
    else if allQuestions.Some? && |v.completedQuestions| + 1 >= |allQuestions.value| then
      recorded.(isComplete := true)
    else
      ApplyMove(recorded, NextMove(allQuestions, categories, v.completedQuestions, v.activeCategory))
  }

  // ---------------------------------------------------------------------------
  // Properties of the derived values
  // ---------------------------------------------------------------------------

  lemma SubsetCard<T>(a: set<T>, b: set<T>)
    requires a <= b
    ensures |a| <= |b|
    decreases a
  {
    if a != {} {
      var x :| x in a;
      SubsetCard(a - {x}, b - {x});
    }
  }

  lemma {:induction false} DistinctCard(ids: seq<string>)
    requires NoDuplicates(ids)
    ensures |set x | x in ids| == |ids|
  {
    if |ids| > 0 {
      var init := ids[..|ids| - 1];
      DistinctCard(init);
      assert (set x | x in ids) == (set x | x in init) + {ids[|ids| - 1]};
    }
  }

  lemma {:induction false} QuestionIdsCard(qs: seq<Question>)
    ensures |QuestionIds(qs)| <= |qs|
  {
    if |qs| > 0 {
      var init := qs[..|qs| - 1];
      QuestionIdsCard(init);
      assert QuestionIds(qs) == QuestionIds(init) + {qs[|qs| - 1].id};
    }
  }

  /** Answered ids that are distinct question ids are at most as many as the questions. */
  lemma CompletedAtMostAll(all: seq<Question>, completed: seq<string>)
    requires NoDuplicates(completed)
    requires forall x :: x in completed ==> x in QuestionIds(all)
    ensures |completed| <= |all|
  {
    DistinctCard(completed);
    SubsetCard((set x | x in completed), QuestionIds(all));
    QuestionIdsCard(all);
  }

  /** While the answered ids are distinct question ids, progress lies in [0, 100]. */
  lemma ProgressInRange(all: seq<Question>, completed: seq<string>)
    requires NoDuplicates(completed)
    requires forall x :: x in completed ==> x in QuestionIds(all)
    ensures 0 <= ProgressPercentage(Some(all), completed) <= 100
  {
    CompletedAtMostAll(all, completed);
    var p := ProgressPercentage(Some(all), completed);
    var n := |all|;
    if n > 0 && p > 100 {
      MulMonotone(n, 201, 2 * p - 1);
    }
  }

  /** Every question belongs to a listed category. */
  predicate CategoriesCover(all: seq<Question>, categories: seq<Category>)
  {
    forall q :: q in all ==> exists k :: 0 <= k < |categories| && categories[k].id == q.categoryId
  }

  /**
   * The search order: the first category after the active one that still
   * has an unanswered question; failing that the first such category from
   * the start; failing that, finish. Answering everything also finishes.
   */
  lemma NextMoveSearchOrder(all: seq<Question>, categories: seq<Category>, completed: seq<string>, activeCategory: Option<string>)
    ensures AllCompleted(all, completed) ==> NextMove(Some(all), Some(categories), completed, activeCategory) == Finish
    ensures !AllCompleted(all, completed) ==>
      forall k: nat :: FirstIncompleteFrom(all, completed, categories, SearchStart(categories, activeCategory), k) ==>
        NextMove(Some(all), Some(categories), completed, activeCategory) == Enter(categories[k].id)
    ensures !AllCompleted(all, completed) && NoIncompleteFrom(all, completed, categories, SearchStart(categories, activeCategory)) ==>
      forall k: nat :: FirstIncompleteFrom(all, completed, categories, 0, k) ==>
        NextMove(Some(all), Some(categories), completed, activeCategory) == Enter(categories[k].id)
    ensures NextMove(Some(all), Some(categories), completed, activeCategory) == Finish <==>
      AllCompleted(all, completed) || NoIncompleteFrom(all, completed, categories, 0)
  {
  }

  /** Given that every question's category is listed, the search only finishes once everything is answered. */
  lemma NextMoveFinishMeansAllAnswered(all: seq<Question>, categories: seq<Category>, completed: seq<string>,
                                       activeCategory: Option<string>)
    requires CategoriesCover(all, categories)
    ensures NextMove(Some(all), Some(categories), completed, activeCategory) == Finish <==> AllCompleted(all, completed)
  {
    if !AllCompleted(all, completed) {
      var q :| q in all && q.id !in completed;
      var k :| 0 <= k < |categories| && categories[k].id == q.categoryId;
      assert HasIncomplete(all, completed, categories[k].id);
    }
  }

  /**
   * The shortcut that finishes when the answered count reaches the number
   * of questions is sound: under the page's invariants (answered ids are
   * distinct question ids, the answered question was not answered before,
   * every question's category is listed), the handler only sets the
   * completion flag once every question has been answered.
   */
  lemma QuestionCompleteFinishMeansAllAnswered(v: View, questionId: string, all: seq<Question>, categories: Option<seq<Category>>)
    requires !v.isComplete
    requires NoDuplicates(v.completedQuestions)
    requires forall x :: x in v.completedQuestions ==> x in QuestionIds(all)
    requires questionId in QuestionIds(all) && questionId !in v.completedQuestions
    requires categories.Some? ==> CategoriesCover(all, categories.value)
    ensures var r := QuestionComplete(v, questionId, Some(all), categories);
      r.isComplete ==> AllCompleted(all, r.completedQuestions)
  {
    var completed := v.completedQuestions;
    var recorded := AddCompleted(completed, questionId);
    var incomplete := IncompleteQuestions(Some(all), v.activeCategory, completed);
    if |incomplete| <= 1 {
      if |completed| + 1 >= |all| {
        var answered := set x | x in recorded;
        DistinctCard(recorded);
        QuestionIdsCard(all);
        SubsetFull(answered, QuestionIds(all));
        forall q | q in all ensures q.id in recorded {
          assert q.id in QuestionIds(all);
        }
      } else if categories.Some? {
        NextMoveFinishMeansAllAnswered(all, categories.value, completed, v.activeCategory);
      }
    }
  }

  /** A subset at least as large as its superset is the whole set. */
  lemma SubsetFull<T>(a: set<T>, b: set<T>)
    requires a <= b && |a| >= |b|
    ensures a == b
  {
    if b - a != {} {
      var x :| x in b - a;
      SubsetCard(a, b - {x});
    }
  }

  /** Answering one more question filters the list once more. */
  lemma {:induction false} IncompleteAddOne(qs: seq<Question>, completed: seq<string>, questionId: string)
    ensures Incomplete(qs, completed + [questionId]) == Incomplete(Incomplete(qs, completed), [questionId])
  {
    if |qs| > 0 {
      IncompleteAddOne(qs[1..], completed, questionId);
    }
  }

  /** With distinct ids, removing one answered id drops exactly that position. */
  lemma {:induction false} RemoveAnswered(qs: seq<Question>, i: nat)
    requires DistinctIds(qs) && i < |qs|
    ensures Incomplete(qs, [qs[i].id]) == Without(qs, i)
  {
    var x := qs[i].id;
    if i == 0 {
      assert forall q :: q in qs[1..] ==> q.id != x by {
        forall q | q in qs[1..] ensures q.id != x {
          var j :| 0 <= j < |qs[1..]| && qs[1..][j] == q;
          assert qs[j + 1] == q;
        }
      }
      NoneAnswered(qs[1..], [x]);
      assert Without(qs, 0) == qs[1..];
    } else {
      var tail := qs[1..];
      assert DistinctIds(tail) by {
        forall a, b | 0 <= a < b < |tail| ensures tail[a].id != tail[b].id {
          assert tail[a] == qs[a + 1] && tail[b] == qs[b + 1];
        }
      }
      assert tail[i - 1] == qs[i];
      RemoveAnswered(tail, i - 1);
      assert qs[0].id != x;
      calc {
        Incomplete(qs, [x]);
        [qs[0]] + Incomplete(tail, [x]);
        [qs[0]] + Without(tail, i - 1);
        { WithoutFront(qs, i); }
        Without(qs, i);
      }
    }
  }

  lemma WithoutFront(qs: seq<Question>, i: nat)
    requires 0 < i < |qs|
    ensures Without(qs, i) == [qs[0]] + Without(qs[1..], i - 1)
  {
    assert qs[..i] == [qs[0]] + qs[1..][..i - 1];
    assert qs[i + 1..] == qs[1..][i..];
  }

  lemma {:induction false} NoneAnswered(qs: seq<Question>, completed: seq<string>)
    requires forall q :: q in qs ==> q.id !in completed
    ensures Incomplete(qs, completed) == qs
  {
    if |qs| > 0 {
      NoneAnswered(qs[1..], completed);
    }
  }

  /** The list with position `i` taken out. */
  function Without(qs: seq<Question>, i: nat): (r: seq<Question>)
    requires i < |qs|
    ensures |r| == |qs| - 1
    ensures forall j :: 0 <= j < |r| ==> r[j] == if j < i then qs[j] else qs[j + 1]
  {
    qs[..i] + qs[i + 1..]
  }

  /** `filter` keeps the original order: filtering a concatenation filters each part in turn. */
  lemma {:induction false} InCategoryAppend(a: seq<Question>, b: seq<Question>, categoryId: string)
    ensures InCategory(a + b, categoryId) == InCategory(a, categoryId) + InCategory(b, categoryId)
    decreases |a|
  {
    if |a| == 0 {
      assert a + b == b;
    } else {
      assert (a + b)[0] == a[0] && (a + b)[1..] == a[1..] + b;
      InCategoryAppend(a[1..], b, categoryId);
    }
  }

  /** The same for the unanswered-question filter, so positions in it follow the questions' order. */
  lemma {:induction false} IncompleteAppend(a: seq<Question>, b: seq<Question>, completed: seq<string>)
    ensures Incomplete(a + b, completed) == Incomplete(a, completed) + Incomplete(b, completed)
    decreases |a|
  {
    if |a| == 0 {
      assert a + b == b;
    } else {
      assert (a + b)[0] == a[0] && (a + b)[1..] == a[1..] + b;
      IncompleteAppend(a[1..], b, completed);
    }
  }

  /** After answering the question at position `i`, the incomplete list is the old one without it. */
  lemma AnsweredLeavesList(all: seq<Question>, activeCategory: Option<string>, completed: seq<string>, i: nat)
    requires DistinctIds(all)
    requires i < |IncompleteQuestions(Some(all), activeCategory, completed)|
    ensures var incomplete := IncompleteQuestions(Some(all), activeCategory, completed);
      IncompleteQuestions(Some(all), activeCategory, AddCompleted(completed, incomplete[i].id)) == Without(incomplete, i)
  {
    var shown := FilteredQuestions(Some(all), activeCategory);
    var incomplete := Incomplete(shown, completed);
    var questionId := incomplete[i].id;
    assert incomplete[i] in incomplete;
    IncompleteAddOne(shown, completed, questionId);
    RemoveAnswered(incomplete, i);
  }

  /**
   * As written, the index moves one further although the answered question
   * leaves the list: the question right after it is passed over, and when
   * the answered question was the last but one the index points past the
   * end, so the page shows no question although one remains.
   */
  lemma AsWrittenIndexSkipsQuestion(v: View, all: seq<Question>, categories: Option<seq<Category>>)
    requires DistinctIds(all)
    requires v.currentQuestionIndex + 1 < |IncompleteQuestions(Some(all), v.activeCategory, v.completedQuestions)|
    ensures var incomplete := IncompleteQuestions(Some(all), v.activeCategory, v.completedQuestions);
      var i := v.currentQuestionIndex;
      var r := QuestionComplete(v, incomplete[i].id, Some(all), categories);
      var after := IncompleteQuestions(Some(all), r.activeCategory, r.completedQuestions);
      |after| == |incomplete| - 1 && r.currentQuestionIndex == i + 1 && after[i] == incomplete[i + 1] &&
      (i + 2 < |incomplete| ==> after[r.currentQuestionIndex] == incomplete[i + 2]) &&
      (i + 2 == |incomplete| ==> r.currentQuestionIndex == |after| && |after| > 0)
  {
    var incomplete := IncompleteQuestions(Some(all), v.activeCategory, v.completedQuestions);
    var i := v.currentQuestionIndex;
    assert incomplete[i] in incomplete;
    AnsweredLeavesList(all, v.activeCategory, v.completedQuestions, i);
    var r := QuestionComplete(v, incomplete[i].id, Some(all), categories);
    assert r.activeCategory == v.activeCategory && r.currentQuestionIndex == i + 1;
  }

  /**
   * With the corrected step the index stays in range and points at the
   * question after the answered one, or at the first question once the
   * answered one was last.
   */
  lemma CorrectedIndexShowsNextQuestion(v: View, all: seq<Question>, categories: Option<seq<Category>>)
    requires DistinctIds(all)
    requires 1 < |IncompleteQuestions(Some(all), v.activeCategory, v.completedQuestions)|
    requires v.currentQuestionIndex < |IncompleteQuestions(Some(all), v.activeCategory, v.completedQuestions)|
    ensures var incomplete := IncompleteQuestions(Some(all), v.activeCategory, v.completedQuestions);
      var i := v.currentQuestionIndex;
      var r := QuestionCompleteCorrected(v, incomplete[i].id, Some(all), categories);
      var after := IncompleteQuestions(Some(all), r.activeCategory, r.completedQuestions);
      r.currentQuestionIndex < |after| &&
      after[r.currentQuestionIndex] == if i + 1 < |incomplete| then incomplete[i + 1] else incomplete[0]
  {
    var incomplete := IncompleteQuestions(Some(all), v.activeCategory, v.completedQuestions);
    var i := v.currentQuestionIndex;
    assert incomplete[i] in incomplete;
    AnsweredLeavesList(all, v.activeCategory, v.completedQuestions, i);
    var r := QuestionCompleteCorrected(v, incomplete[i].id, Some(all), categories);
    assert r.activeCategory == v.activeCategory && r.currentQuestionIndex == CorrectedNextIndex(i, |incomplete|);
  }

  class AssessmentState {
    var activeCategory: Option<string>
    var currentQuestionIndex: nat
    var completedQuestions: seq<string>
    var isComplete: bool

    function Current(): View
      reads this
    {
      View(activeCategory, currentQuestionIndex, completedQuestions, isComplete)
    }

    /** The initial state: no category, first question, nothing answered. */
    constructor ()
      ensures Current() == View(None, 0, [], false)
    {
      activeCategory := None;
      currentQuestionIndex := 0;
      completedQuestions := [];
      isComplete := false;
    }

    /** `handleCategorySelect`: show the chosen category from its first question. */
    method HandleCategorySelect(categoryId: string)
      modifies this
      ensures Current() == ApplyMove(old(Current()), Enter(categoryId))
    {
      activeCategory := Some(categoryId);
      currentQuestionIndex := 0;
    }

    /**
     * `findNextCategoryWithIncompleteQuestions`, reading `completed` (the
     * answered ids as the caller saw them) and the active category.
     */
    method FindNextCategoryWithIncompleteQuestions(allQuestions: Option<seq<Question>>, categories: Option<seq<Category>>,
                                                   completed: seq<string>)
      modifies this
      ensures Current() == ApplyMove(old(Current()), NextMove(allQuestions, categories, completed, old(activeCategory)))
    {
      if categories.None? || allQuestions.None? {
        return;
      }
      var qs, cats := allQuestions.value, categories.value;
      if AllCompleted(qs, completed) {
        isComplete := true;
        return;
      }
      var start := SearchStart(cats, activeCategory);
      if IsActive(activeCategory) {
        var categoryIndex := IndexOfCategory(cats, activeCategory.value);
        var i: nat := categoryIndex + 1;
        while i < |cats|
          invariant start <= i <= |cats|
          invariant FirstWithIncomplete(qs, completed, cats, start) == FirstWithIncomplete(qs, completed, cats, i)
          invariant Current() == old(Current())
        {
          var categoryId := cats[i].id;
          if HasIncomplete(qs, completed, categoryId) {
            activeCategory := Some(categoryId);
            currentQuestionIndex := 0;
            return;
          }
          i := i + 1;
        }
      }
      assert FirstWithIncomplete(qs, completed, cats, start).None?;
      for k := 0 to |cats|
        invariant FirstWithIncomplete(qs, completed, cats, 0) == FirstWithIncomplete(qs, completed, cats, k)
        invariant Current() == old(Current())
      {
        var categoryId := cats[k].id;
        if HasIncomplete(qs, completed, categoryId) {
          activeCategory := Some(categoryId);
          currentQuestionIndex := 0;
          return;
        }
      }
      isComplete := true;
    }

    /** `handleQuestionComplete(questionId)` as written. */
    method HandleQuestionComplete(questionId: string, allQuestions: Option<seq<Question>>, categories: Option<seq<Category>>)
      modifies this
      ensures Current() == QuestionComplete(old(Current()), questionId, allQuestions, categories)
    {
      ghost var v := Current();
      var completed := completedQuestions;
      var incompleteQuestions := IncompleteQuestions(allQuestions, activeCategory, completed);
      ghost var recorded := v.(completedQuestions := AddCompleted(completed, questionId));
      if questionId !in completed {
        completedQuestions := completed + [questionId];
      }
      assert Current() == recorded;
      if |incompleteQuestions| > 1 {
        var nextIndex := currentQuestionIndex + 1;
        if nextIndex < |incompleteQuestions| {
          currentQuestionIndex := nextIndex;
        } else {
          currentQuestionIndex := 0;
        }
        assert Current() == recorded.(currentQuestionIndex := AdvanceIndex(v.currentQuestionIndex, |incompleteQuestions|));
      } else if allQuestions.Some? && |completed| + 1 >= |allQuestions.value| {
        isComplete := true;
      } else {
        FindNextCategoryWithIncompleteQuestions(allQuestions, categories, completed);
        assert Current() == ApplyMove(recorded, NextMove(allQuestions, categories, completed, v.activeCategory));
      }
    }

    /** `handleQuestionComplete` with the corrected index step. */
    method HandleQuestionCompleteCorrected(questionId: string, allQuestions: Option<seq<Question>>,
                                           categories: Option<seq<Category>>)
      modifies this
      ensures Current() == QuestionCompleteCorrected(old(Current()), questionId, allQuestions, categories)
    {
      ghost var v := Current();
      var completed := completedQuestions;
      var incompleteQuestions := IncompleteQuestions(allQuestions, activeCategory, completed);
      ghost var recorded := v.(completedQuestions := AddCompleted(completed, questionId));
      if questionId !in completed {
        completedQuestions := completed + [questionId];
      }
      assert Current() == recorded;
      if |incompleteQuestions| > 1 {
        currentQuestionIndex := CorrectedNextIndex(currentQuestionIndex, |incompleteQuestions|);
        assert Current() == recorded.(currentQuestionIndex := CorrectedNextIndex(v.currentQuestionIndex, |incompleteQuestions|));
      } else if allQuestions.Some? && |completed| + 1 >= |allQuestions.value| {
        isComplete := true;
      } else {
        FindNextCategoryWithIncompleteQuestions(allQuestions, categories, completed);
        assert Current() == ApplyMove(recorded, NextMove(allQuestions, categories, completed, v.activeCategory));
      }
    }
  }
}
