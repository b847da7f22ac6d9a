/**
 * The "Your Progress" dashboard: three progress meters and four
 * achievements, all computed from the counts the page hands it.
 */
module ProgressDashboard {
  import Percent

  /** The "Free Trial Progress" meter, `completed / totalLessons * 100`. */
  function LessonsProgress(completedCount: nat, totalLessons: nat): (r: real)
    requires totalLessons > 0
    ensures r * (totalLessons as real) == 100.0 * (completedCount as real)
    ensures completedCount <= totalLessons ==> 0.0 <= r <= 100.0
    ensures r == 100.0 <==> completedCount == totalLessons
  {
    Percent.Percent(completedCount, totalLessons)
  }

  /** The "Course Stage" meter, `currentStage / totalStages * 100`. */
  function StageProgress(currentStage: nat, totalStages: nat): (r: real)
    requires totalStages > 0
    ensures r * (totalStages as real) == 100.0 * (currentStage as real)
    ensures currentStage <= totalStages ==> 0.0 <= r <= 100.0
  {
    Percent.Percent(currentStage, totalStages)
  }

  /** The figures printed beside those two meters, `Math.round` of the meter. */
  function ShownPercent(part: nat, whole: nat): (r: int)
    requires whole > 0
    ensures part <= whole ==> 0 <= r <= 100
    ensures 2 * whole * r <= 200 * part + whole < 2 * whole * (r + 1)
  {
    Percent.RoundedPercent(part, whole)
  }

  /**
   * The "Job Ready" meter: full from stage 2 on, half a meter per stage
   * before that.
   */
  function JobReadyProgress(currentStage: int): (r: real)
    ensures currentStage >= 0 ==> 0.0 <= r <= 100.0
    ensures r >= 100.0 <==> currentStage >= 2
    ensures currentStage < 2 ==> r == 50.0 * (currentStage as real)
  {
    if currentStage >= 2 then 100.0 else (currentStage as real) / 2.0 * 100.0
  }

  /** What the "Job Ready" row prints: "Ready!" or a rounded percentage. */
  datatype JobReadyLabel = Ready | ShownPercentLabel(percent: int)

  function JobReadyText(currentStage: int): (r: JobReadyLabel)
    ensures r == Ready <==> currentStage >= 2
    ensures currentStage < 2 ==> r == ShownPercentLabel(50 * currentStage)
  {
    if JobReadyProgress(currentStage) >= 100.0 then Ready
    else ShownPercentLabel(50 * currentStage)
  }

  /** The four achievements on the dashboard. */
  datatype Achievement = FirstSteps | QuickLearner | TrialComplete | ThreeDayStreak

  /** Whether an achievement is earned for the given counts. */
  predicate Earned(a: Achievement, completedCount: nat, totalLessons: nat, streak: int)
  {
    match a
    case FirstSteps => completedCount > 0
    case QuickLearner => completedCount >= 5
    case TrialComplete => completedCount >= totalLessons
    case ThreeDayStreak => streak >= 3
  }

  /** The set of earned achievements. */
  function EarnedAchievements(completedCount: nat, totalLessons: nat, streak: int): (r: set<Achievement>)
    ensures forall a :: a in r <==> Earned(a, completedCount, totalLessons, streak)
  {
    set a: Achievement | a in {FirstSteps, QuickLearner, TrialComplete, ThreeDayStreak}
                         && Earned(a, completedCount, totalLessons, streak)
  }

  /** The thresholds of the four achievements. */
  lemma AchievementThresholds(completedCount: nat, totalLessons: nat, streak: int)
    ensures Earned(FirstSteps, completedCount, totalLessons, streak) <==> completedCount >= 1
    ensures Earned(QuickLearner, completedCount, totalLessons, streak) <==> completedCount >= 5
    ensures Earned(TrialComplete, completedCount, totalLessons, streak) <==> completedCount >= totalLessons
    ensures Earned(ThreeDayStreak, completedCount, totalLessons, streak) <==> streak >= 3
  {
  }

  /** "Trial Complete" is missing one lesson short of the total and earned at the total. */
  lemma TrialCompleteBoundary(totalLessons: nat, streak: int)
    requires totalLessons > 0
    ensures !Earned(TrialComplete, totalLessons - 1, totalLessons, streak)
    ensures Earned(TrialComplete, totalLessons, totalLessons, streak)
  {
  }

  /** More lessons and a longer streak never take an achievement away. */
  lemma AchievementsAreMonotone(c1: nat, c2: nat, totalLessons: nat, s1: int, s2: int)
    requires c1 <= c2 && s1 <= s2
    ensures EarnedAchievements(c1, totalLessons, s1) <= EarnedAchievements(c2, totalLessons, s2)
  {
  }

  /** Two lessons of five fill 40% of the trial meter. */
  lemma TwoOfFiveIsForty()
    ensures LessonsProgress(2, 5) == 40.0
    ensures ShownPercent(2, 5) == 40
  {
  }
}
