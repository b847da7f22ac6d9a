/**
 * The per-visitor progress record kept by the server (the `UserProgress`
 * interface of server/storage.ts) and the two ways the store rewrites a
 * record in place: recording a lesson completion and recording an enrollment.
 */
module ProgressRecord {
  import opened Common

  /**
   * One visitor's progress. `completedLessons` keeps arrival order;
   * `enrolledAt`, `name` and `email` are absent until the visitor enrolls.
   * Timestamps are ISO strings supplied by the caller.
   */
  datatype UserProgress = UserProgress(
    id: string,
    visitorId: string,
    completedLessons: seq<int>,
    xp: int,
    streak: int,
    lastVisit: string,
    quizScores: map<int, int>,
    enrolledAt: Option<string>,
    name: Option<string>,
    email: Option<string>)

  /** The filter `p => p.enrolledAt` of the enrollment listing. */
  predicate IsEnrolled(p: UserProgress)
  {
    Truthy(p.enrolledAt)
  }

  /** The fields of a record that nobody has touched yet. */
  ghost predicate IsZeroState(p: UserProgress)
  {
    && p.completedLessons == []
    && p.xp == 0
    && p.streak == 1
    && p.quizScores == map[]
    && p.enrolledAt == None
    && p.name == None
    && p.email == None
  }

  /** The record the store creates for a visitor it has never seen. */
  function NewProgress(id: string, visitorId: string, now: string): UserProgress
  {
    UserProgress(id, visitorId, [], 0, 1, now, map[], None, None, None)
  }

  lemma NewProgressIsZeroState(id: string, visitorId: string, now: string)
    ensures IsZeroState(NewProgress(id, visitorId, now))
    ensures NewProgress(id, visitorId, now).visitorId == visitorId
  {
  }

  /**
   * Recording that lesson `lessonId` was completed: the lesson is appended
   * only if it is not yet listed, xp grows only on that first completion,
   * and the visit is restamped.
   */
  function WithLessonCompleted(p: UserProgress, lessonId: int, xpEarned: int, now: string): (r: UserProgress)
    ensures lessonId in r.completedLessons
    ensures lessonId in p.completedLessons ==> r.completedLessons == p.completedLessons && r.xp == p.xp
    ensures lessonId !in p.completedLessons ==>
              r.completedLessons == p.completedLessons + [lessonId] && r.xp == p.xp + xpEarned
    ensures Distinct(p.completedLessons) ==> Distinct(r.completedLessons)
    ensures r.lastVisit == now
    ensures r.(completedLessons := p.completedLessons, xp := p.xp, lastVisit := p.lastVisit) == p
  {
    var q := if lessonId in p.completedLessons then p
             else p.(completedLessons := p.completedLessons + [lessonId], xp := p.xp + xpEarned);
    q.(lastVisit := now)
  }

  /** A repeated completion of the same lesson, with any xp, changes nothing but the stamp. */
  lemma CompletionIsIdempotent(p: UserProgress, lessonId: int, x: int, y: int, t1: string, t2: string)
    ensures WithLessonCompleted(WithLessonCompleted(p, lessonId, x, t1), lessonId, y, t2)
         == WithLessonCompleted(p, lessonId, x, t2)
  {
  }

  /** Completing the lessons `ls` one after another. */
  function CompleteEach(p: UserProgress, ls: seq<int>, xpEarned: int, now: string): UserProgress
    decreases |ls|
  {
    if ls == [] then p
    else CompleteEach(WithLessonCompleted(p, ls[0], xpEarned, now), ls[1..], xpEarned, now)
  }

  /**
   * Completing distinct lessons that were not yet completed appends them in
   * order and awards `xpEarned` for each of them.
   */
  lemma {:induction false} CompletingNewLessons(p: UserProgress, ls: seq<int>, xpEarned: int, now: string)
    requires Distinct(ls)
    requires forall i :: 0 <= i < |ls| ==> ls[i] !in p.completedLessons
    ensures CompleteEach(p, ls, xpEarned, now).completedLessons == p.completedLessons + ls
    ensures CompleteEach(p, ls, xpEarned, now).xp == p.xp + |ls| * xpEarned
    decreases |ls|
  {
    if ls != [] {
      var q := WithLessonCompleted(p, ls[0], xpEarned, now);
      assert q.completedLessons == p.completedLessons + [ls[0]];
      forall i | 0 <= i < |ls[1..]|
        ensures ls[1..][i] !in q.completedLessons
      {
        assert ls[1..][i] == ls[i + 1];
      }
      assert Distinct(ls[1..]) by {
        forall i, j | 0 <= i < j < |ls[1..]| ensures ls[1..][i] != ls[1..][j] {
          assert ls[1..][i] == ls[i + 1] && ls[1..][j] == ls[j + 1];
        }
      }
      CompletingNewLessons(q, ls[1..], xpEarned, now);
      assert p.completedLessons + [ls[0]] + ls[1..] == p.completedLessons + ls;
      assert q.xp + |ls[1..]| * xpEarned == p.xp + |ls| * xpEarned by {
        assert |ls| * xpEarned == (|ls[1..]| + 1) * xpEarned == |ls[1..]| * xpEarned + xpEarned;
      }
    }
  }

  /**
   * Completing any lessons, repeated or not, never yields a duplicate
   * lesson id, and xp never falls while every award is non-negative.
   */
  lemma {:induction false} CompleteEachKeepsDistinct(p: UserProgress, ls: seq<int>, xpEarned: int, now: string)
    requires Distinct(p.completedLessons)
    ensures Distinct(CompleteEach(p, ls, xpEarned, now).completedLessons)
    ensures xpEarned >= 0 ==> CompleteEach(p, ls, xpEarned, now).xp >= p.xp
    decreases |ls|
  {
    if ls != [] {
      CompleteEachKeepsDistinct(WithLessonCompleted(p, ls[0], xpEarned, now), ls[1..], xpEarned, now);
    }
  }

  /**
   * Recording an enrollment: name, email and the enrollment time are set;
   * lessons, xp, streak and quiz scores are kept.
   */
  function WithEnrollment(p: UserProgress, name: string, email: string, now: string): (r: UserProgress)
    ensures r.name == Some(name) && r.email == Some(email) && r.enrolledAt == Some(now)
    ensures now != "" ==> IsEnrolled(r)
    ensures r.(name := p.name, email := p.email, enrolledAt := p.enrolledAt) == p
  {
    p.(name := Some(name), email := Some(email), enrolledAt := Some(now))
  }

  /** Enrolling twice is the same as enrolling once with the later details. */
  lemma EnrollmentOverwrites(p: UserProgress, n1: string, e1: string, t1: string, n2: string, e2: string, t2: string)
    ensures WithEnrollment(WithEnrollment(p, n1, e1, t1), n2, e2, t2) == WithEnrollment(p, n2, e2, t2)
  {
  }

  /** Enrollment and lesson completion touch disjoint fields, so their order does not matter. */
  lemma EnrollmentCommutesWithCompletion(p: UserProgress, lessonId: int, x: int, t: string, name: string, email: string, t2: string)
    ensures WithEnrollment(WithLessonCompleted(p, lessonId, x, t), name, email, t2)
         == WithLessonCompleted(WithEnrollment(p, name, email, t2), lessonId, x, t)
  {
  }
}
