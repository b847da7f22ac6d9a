/**
 * The learning roadmap: each stage's status and progress, derived from the
 * stages marked completed and the current stage, and the one-stage-at-a-time
 * expansion of stage cards.
 */
module RoadmapSection {
  import opened Common

  datatype StageStatus = Completed | Current | Unlocked | Locked

  /** A completed stage first, then the current one, then position relative to it. */
  function StatusOf(completedStages: seq<int>, currentStage: int, stageId: int): (r: StageStatus)
    ensures r == Completed <==> stageId in completedStages
    ensures r == Current <==> stageId !in completedStages && stageId == currentStage
    ensures r == Unlocked <==> stageId !in completedStages && stageId < currentStage
    ensures r == Locked <==> stageId !in completedStages && stageId > currentStage
  {
    if stageId in completedStages then Completed
    else if stageId == currentStage then Current
    else if stageId <= currentStage then Unlocked
    else Locked
  }

  /** The percentage on a stage card. */
  function ProgressOf(completedStages: seq<int>, currentStage: int, stageId: int): (r: int)
    ensures r == 100 <==> StatusOf(completedStages, currentStage, stageId) == Completed
    ensures r == 35 <==> StatusOf(completedStages, currentStage, stageId) == Current
    ensures r == 0 <==> StatusOf(completedStages, currentStage, stageId) in {Unlocked, Locked}
  {
    if stageId in completedStages then 100
    else if stageId == currentStage then 35
    else 0
  }

  /** A stage card draws its bar only when its progress is positive. */
  function ShowsBar(completedStages: seq<int>, currentStage: int, stageId: int): (r: bool)
    ensures r <==> StatusOf(completedStages, currentStage, stageId) in {Completed, Current}
  {
    ProgressOf(completedStages, currentStage, stageId) > 0
  }

  predicate IsLocked(completedStages: seq<int>, currentStage: int, stageId: int)
  {
    StatusOf(completedStages, currentStage, stageId) == Locked
  }

  /**
   * The roadmap component: the props it was last rendered with and the
   * expanded stage, which survives re-renders; stage 1 starts open.
   */
  class Roadmap {
    var completedStages: seq<int>
    var currentStage: int
    var expandedStage: Option<int>

    /** Only stage 1, which starts open, can be expanded while locked. */
    ghost predicate Valid()
      reads this
    {
      expandedStage.Some? && expandedStage.value != 1 ==> !IsLocked(completedStages, currentStage, expandedStage.value)
    }

    constructor (completedStages: seq<int>, currentStage: int)
      ensures Valid()
      ensures this.completedStages == completedStages && this.currentStage == currentStage
      ensures expandedStage == Some(1)
    {
      this.completedStages := completedStages;
      this.currentStage := currentStage;
      expandedStage := Some(1);
    }

    /**
     * A re-render with new props keeps the expanded stage. The invariant
     * survives as long as progress does not go back: no completed stage is
     * dropped and the current stage does not fall.
     */
    method PropsChanged(completedStages: seq<int>, currentStage: int)
      modifies this
      ensures this.completedStages == completedStages && this.currentStage == currentStage
      ensures expandedStage == old(expandedStage)
      ensures (old(Valid()) && currentStage >= old(this.currentStage)
               && forall s :: s in old(this.completedStages) ==> s in completedStages)
              ==> Valid()
    {
      this.completedStages := completedStages;
      this.currentStage := currentStage;
    }

    /** Clicking a stage header toggles it, unless the stage is locked. */
    method HeaderClick(stageId: int)
      modifies this
      ensures old(Valid()) ==> Valid()
      ensures completedStages == old(completedStages) && currentStage == old(currentStage)
      ensures IsLocked(completedStages, currentStage, stageId) ==> expandedStage == old(expandedStage)
      ensures !IsLocked(completedStages, currentStage, stageId) ==>
                expandedStage == if old(expandedStage) == Some(stageId) then None else Some(stageId)
    {
      if !IsLocked(completedStages, currentStage, stageId) {
        expandedStage := if expandedStage == Some(stageId) then None else Some(stageId);
      }
    }

    /** A stage shows its details when it is expanded and not locked. */
    function ShowsDetails(stageId: int): (r: bool)
      reads this
      ensures r ==> expandedStage == Some(stageId)
      ensures r ==> StatusOf(completedStages, currentStage, stageId) != Locked
      ensures Valid() && expandedStage == Some(stageId) && stageId != 1 ==> r
    {
      expandedStage == Some(stageId) && !IsLocked(completedStages, currentStage, stageId)
    }

    /** The "Try Free Lessons" button sits in stage 1's details. */
    function ShowsStartLesson(stageId: int): (r: bool)
      reads this
      ensures r ==> stageId == 1 && expandedStage == Some(1)
      ensures r ==> StatusOf(completedStages, currentStage, 1) != Locked
    {
      ShowsDetails(stageId) && stageId == 1
    }
  }

  /**
   * A falling current stage can lock the expanded stage: stage 2 may be
   * opened at stage 2 and is locked once the stage falls back to 1, while
   * the expanded stage stays as it was.
   */
  lemma StageDropLocksStageTwo()
    ensures !IsLocked([], 2, 2)
    ensures IsLocked([], 1, 2)
  {
  }

  /** With nothing marked completed, exactly the stages up to the current one are open. */
  lemma NoCompletedStages(currentStage: int, stageId: int)
    ensures StatusOf([], currentStage, stageId) != Completed
    ensures IsLocked([], currentStage, stageId) <==> stageId > currentStage
  {
  }
}
