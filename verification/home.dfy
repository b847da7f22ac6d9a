/**
 * The landing page that wires the sections together: it reads the visitor's
 * progress fetched from the server, falls back to defaults while nothing is
 * known, derives the current course stage, and sends every lesson completion
 * to the server with a fixed XP award.
 */
module Home {
  import opened Common
  import opened ProgressRecord
  import FreeTrialCourse
  import ProgressDashboard
  import RoadmapSection
  import Routes

  /** XP the page asks for on every lesson completion. */
  const XpPerCompletion := 50

  /** Stages on the dashboard's "Course Stage" meter. */
  const TotalStages := 3

  /** The figures the page derives from the fetched progress. */
  datatype PageProgress = PageProgress(completedLessons: seq<int>, xp: int, streak: int)

  /**
   * The answer of `GET /api/progress`, or `None` while it is loading:
   * lessons fall back to none and xp to 0, and the streak falls back to 1
   * both when it is missing and when it is 0, since the page uses `||`.
   */
  function PageProgressOf(fetched: Option<Routes.Reply>): (r: PageProgress)
    ensures fetched.None? ==> r == PageProgress([], 0, 1)
    ensures fetched.Some? && fetched.value.Record? ==>
              var p := fetched.value.progress;
              r.completedLessons == p.completedLessons && r.xp == p.xp
              && r.streak == (if p.streak == 0 then 1 else p.streak)
    ensures fetched.Some? && fetched.value.ZeroState? ==>
              r.completedLessons == fetched.value.completedLessons && r.xp == fetched.value.xp
              && r.streak == (if fetched.value.streak == 0 then 1 else fetched.value.streak)
    ensures r.streak != 0
  {
    match fetched
    case None => PageProgress([], 0, 1)
    case Some(Record(p)) => PageProgress(p.completedLessons, p.xp, if p.streak == 0 then 1 else p.streak)
    case Some(ZeroState(_, lessons, xp, streak, _, _)) => PageProgress(lessons, xp, if streak == 0 then 1 else streak)
    case Some(_) => PageProgress([], 0, 1)
  }

  /** Stage 2 is reached with five completed lessons, stage 1 before that. */
  function CurrentStage(completedLessons: seq<int>): (r: int)
    ensures r == 2 <==> |completedLessons| >= 5
    ensures r == 1 <==> |completedLessons| < 5
  {
    if |completedLessons| >= 5 then 2 else 1
  }

  /** The stages the page reports as completed to the roadmap: none. */
  function CompletedStages(): seq<int>
  {
    []
  }

  /** The request body the page sends for a lesson completion. */
  function CompletionRequest(visitorId: string, lessonId: int): (r: Routes.Json)
    ensures r.JObj? && r.fields.Keys == {"visitorId", "lessonId", "xpEarned"}
  {
    Routes.JObj(map["visitorId" := Routes.JStr(visitorId),
                    "lessonId" := Routes.JNum(lessonId),
                    "xpEarned" := Routes.JNum(XpPerCompletion)])
  }

  /** The server reads that body as a completion worth 50 XP. */
  lemma CompletionRequestIsAccepted(visitorId: string, lessonId: int)
    ensures Routes.ParseLessonCompletion(CompletionRequest(visitorId, lessonId))
         == Routes.Parsed(Routes.LessonCompletion(visitorId, lessonId, 50))
  {
    var body := CompletionRequest(visitorId, lessonId);
    assert Routes.Field(body, "xpEarned") == Some(Routes.JNum(50));
  }

  /**
   * A completion button is offered only for a lesson the record does not
   * list yet, so the completion the page then sends always adds that lesson
   * and its 50 XP; a completed lesson offers no button, and completing it
   * again would change neither list nor xp.
   */
  lemma OfferedCompletionAddsLesson(p: UserProgress, lesson: FreeTrialCourse.Lesson, now: string)
    ensures var r := WithLessonCompleted(p, lesson.id, XpPerCompletion, now);
            FreeTrialCourse.OffersMarkComplete(FreeTrialCourse.IsCompleted(p.completedLessons, lesson))
            ==> r.completedLessons == p.completedLessons + [lesson.id] && r.xp == p.xp + 50
    ensures var r := WithLessonCompleted(p, lesson.id, XpPerCompletion, now);
            !FreeTrialCourse.OffersMarkComplete(FreeTrialCourse.IsCompleted(p.completedLessons, lesson))
            ==> r.completedLessons == p.completedLessons && r.xp == p.xp
  {
  }

  /**
   * A visitor the server does not know, and a page still loading, both show
   * no lessons, 0 XP, a 1-day streak and stage 1.
   */
  lemma NewVisitorPage(visitorId: string, now: string)
    ensures var r := PageProgressOf(Some(Routes.ProgressReply(None, visitorId, now)));
            r == PageProgress([], 0, 1) && CurrentStage(r.completedLessons) == 1
    ensures PageProgressOf(None) == PageProgress([], 0, 1)
  {
  }

  /** A stored streak of 0 is shown as 1 because of the `||` fallback. */
  lemma ZeroStreakShowsAsOne(p: UserProgress)
    requires p.streak == 0
    ensures PageProgressOf(Some(Routes.Record(p))).streak == 1
  {
  }

  /**
   * The dashboard is told there are as many lessons as the catalogue holds,
   * which is the five that unlock stage 2; so with catalogue lessons and no
   * repeats, "Trial Complete", "Quick Learner", stage 2 and "Job Ready" all
   * arrive together, exactly when every catalogue lesson is completed.
   */
  lemma StageTwoIsTrialComplete(completedLessons: seq<int>, streak: int)
    requires Distinct(completedLessons)
    requires forall i :: 0 <= i < |completedLessons| ==> completedLessons[i] in FreeTrialCourse.CatalogueIds()
    ensures var total := |FreeTrialCourse.FreeTrialLessons()|;
            && (CurrentStage(completedLessons) == 2
                <==> ProgressDashboard.Earned(ProgressDashboard.TrialComplete, |completedLessons|, total, streak))
            && (CurrentStage(completedLessons) == 2
                <==> ProgressDashboard.Earned(ProgressDashboard.QuickLearner, |completedLessons|, total, streak))
            && (CurrentStage(completedLessons) == 2
                <==> ProgressDashboard.JobReadyText(CurrentStage(completedLessons)) == ProgressDashboard.Ready)
    ensures CurrentStage(completedLessons) == 2
        <==> forall id :: id in FreeTrialCourse.CatalogueIds() ==> id in completedLessons
  {
    FreeTrialCourse.CatalogueShape();
    FreeTrialCourse.ProgressOfCatalogueLessons(completedLessons);
    DistinctWithin(completedLessons, FreeTrialCourse.CatalogueIds());
  }

  /**
   * A lesson completion never lowers the page's stage, so the props the
   * roadmap receives after the refetch keep its invariant.
   */
  lemma CompletionNeverLowersStage(p: UserProgress, lessonId: int, xpEarned: int, now: string)
    ensures var r := WithLessonCompleted(p, lessonId, xpEarned, now);
            CurrentStage(r.completedLessons) >= CurrentStage(p.completedLessons)
            && |r.completedLessons| >= |p.completedLessons|
  {
  }

  /** The roadmap as the page draws it: no stage is ever marked completed. */
  lemma RoadmapOfPage(completedLessons: seq<int>, stageId: int)
    ensures RoadmapSection.StatusOf(CompletedStages(), CurrentStage(completedLessons), stageId)
            != RoadmapSection.Completed
    ensures |completedLessons| < 5 ==>
              (RoadmapSection.StatusOf(CompletedStages(), CurrentStage(completedLessons), stageId) == RoadmapSection.Current
               <==> stageId == 1)
    ensures |completedLessons| >= 5 ==>
              RoadmapSection.StatusOf(CompletedStages(), CurrentStage(completedLessons), 1) == RoadmapSection.Unlocked
              && RoadmapSection.StatusOf(CompletedStages(), CurrentStage(completedLessons), 2) == RoadmapSection.Current
              && RoadmapSection.StatusOf(CompletedStages(), CurrentStage(completedLessons), 3) == RoadmapSection.Locked
  {
  }

  /**
   * The totals the page hands the dashboard agree with the ones the server
   * reports for the course.
   */
  lemma PageAgreesWithCourseSummary()
    ensures TotalStages == Routes.CourseTotalStages
    ensures |FreeTrialCourse.FreeTrialLessons()| == Routes.CourseTotalLessons
  {
  }
}
