/**
 * The learning page (src/pages/Learn.tsx): which lessons the user has
 * completed and the counts behind the progress bar. The percentage
 * itself is a floating-point division; the model keeps its two integer
 * operands.
 */
module Learn {
  import Lists

  /** A `lessons` row, reduced to what the rules use. */
  datatype Lesson = Lesson(id: string, title: string)

  /** A `user_progress` row as the page selects it: `lesson_id, completed`. */
  datatype ProgressEntry = ProgressEntry(lessonId: string, completed: bool)

  /** `userProgress.some((p) => p.lesson_id === lessonId && p.completed)`. */
  function IsLessonCompleted(progress: seq<ProgressEntry>, lessonId: string): (b: bool)
    ensures b <==> exists i :: 0 <= i < |progress| && progress[i].lessonId == lessonId && progress[i].completed
  {
    if progress == [] then false
    else if progress[0].lessonId == lessonId && progress[0].completed then true
    else
      var rest := IsLessonCompleted(progress[1..], lessonId);
      assert forall i :: 1 <= i < |progress| ==> progress[i] == progress[1..][i - 1];
      rest
  }

  /** An entry for another lesson, or one not completed, never changes whether a lesson counts as completed. */
  lemma IrrelevantEntry(before: seq<ProgressEntry>, e: ProgressEntry, after: seq<ProgressEntry>, lessonId: string)
    requires e.lessonId != lessonId || !e.completed
    ensures IsLessonCompleted(before + [e] + after, lessonId) == IsLessonCompleted(before + after, lessonId)
  {
    var p := before + [e] + after;
    var q := before + after;
    if IsLessonCompleted(p, lessonId) {
      var i :| 0 <= i < |p| && p[i].lessonId == lessonId && p[i].completed;
      if i < |before| {
        assert q[i] == p[i];
      } else {
        assert i > |before| && q[i - 1] == p[i];
      }
    }
    if IsLessonCompleted(q, lessonId) {
      var i :| 0 <= i < |q| && q[i].lessonId == lessonId && q[i].completed;
      if i < |before| {
        assert p[i] == q[i];
      } else {
        assert p[i + 1] == q[i];
      }
    }
  }

  /**
   * Once the refreshed progress holds the entry `markAsComplete` wrote,
   * wherever the database returns it, the lesson counts as completed.
   */
  lemma MarkedLessonCompleted(progress: seq<ProgressEntry>, lessonId: string)
    requires ProgressEntry(lessonId, true) in progress
    ensures IsLessonCompleted(progress, lessonId)
  {
    var i :| 0 <= i < |progress| && progress[i] == ProgressEntry(lessonId, true);
    assert progress[i].lessonId == lessonId && progress[i].completed;
  }

  /** `userProgress.filter((p) => p.completed).length`: every completed entry, whatever its lesson. */
  function CompletedCount(progress: seq<ProgressEntry>): (n: nat)
    ensures n <= |progress|
    ensures n == Lists.Count(progress, (p: ProgressEntry) => p.completed)
  {
    |Lists.Filter(progress, (p: ProgressEntry) => p.completed)|
  }

  /** Completed entries of two lists add up. */
  lemma CompletedCountAppend(a: seq<ProgressEntry>, b: seq<ProgressEntry>)
    ensures CompletedCount(a + b) == CompletedCount(a) + CompletedCount(b)
  {
    Lists.FilterAppend(a, b, (p: ProgressEntry) => p.completed);
  }

  /**
   * The operands of `completionPercentage`: the completed count over the
   * number of lessons, or 0 over 1 when there are no lessons (the page
   * shows 0 then).
   */
  function CompletionFraction(lessons: seq<Lesson>, progress: seq<ProgressEntry>): (r: (nat, nat))
    ensures r.1 > 0
    ensures lessons == [] ==> r == (0, 1)
    ensures lessons != [] ==> r == (CompletedCount(progress), |lessons|)
  {
    if |lessons| > 0 then (CompletedCount(progress), |lessons|) else (0, 1)
  }

  /**
   * The numerator counts entries, not lessons: two completed entries
   * for the one lesson give a numerator of 2 over 1 lesson, i.e. 200%.
   */
  lemma NumeratorCanExceedLessons(lesson: Lesson)
    ensures var progress := [ProgressEntry(lesson.id, true), ProgressEntry(lesson.id, true)];
      CompletionFraction([lesson], progress) == (2, 1)
  {
    var progress := [ProgressEntry(lesson.id, true), ProgressEntry(lesson.id, true)];
    CompletedCountAppend([progress[0]], [progress[1]]);
    assert progress == [progress[0]] + [progress[1]];
  }

  /** The lesson dialog's button: disabled, and labelled "Completed", exactly when the lesson is completed. */
  datatype MarkButton = MarkButton(disabled: bool, caption: string)

  function MarkButtonFor(progress: seq<ProgressEntry>, lesson: Lesson): (b: MarkButton)
    ensures b.disabled <==> IsLessonCompleted(progress, lesson.id)
    ensures b.caption == (if b.disabled then "Completed" else "Mark as Complete")
  {
    var done := IsLessonCompleted(progress, lesson.id);
    MarkButton(done, if done then "Completed" else "Mark as Complete")
  }
}
