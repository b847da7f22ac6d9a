/**
 * The free-trial course on the landing page: the catalogue of five lessons,
 * the lesson dialog, and the little state machine behind each kind of
 * lesson (explainer, flashcards, quiz, matching puzzle, code walk-through).
 * Each React component's `useState` hooks become the fields of a class and
 * each event handler a method.
 */
module FreeTrialCourse {
  import opened Common
  import Percent

  /** A flashcard; only its prompt side matters to the model. */
  datatype Card = Card(front: string)

  /**
   * A multiple-choice question: how many options it offers and the index of
   * the right one (the question and option texts are not modelled).
   */
  datatype Question = Question(optionCount: nat, correctIndex: int)

  /** One left/right pair of a matching puzzle. */
  datatype MatchPair = MatchPair(left: string, right: string)

  /**
   * The content of a lesson, tagged by the lesson's `type`. An explainer
   * records only whether it carries narration text.
   */
  datatype LessonContent =
    | Explainer(narrated: bool)
    | Flashcards(cards: seq<Card>)
    | Quiz(questions: seq<Question>)
    | Puzzle(items: seq<MatchPair>)
    | Code(language: string, runnable: bool)

  datatype Lesson = Lesson(id: int, title: string, isLocked: bool, content: LessonContent)

  /** The matching puzzle of lesson 4. */
  function CataloguePuzzle(): seq<MatchPair>
  {
    [ MatchPair("Computer Vision", "Obstacle detection & landing"),
      MatchPair("Reinforcement Learning", "Optimal flight path planning"),
      MatchPair("Natural Language Processing", "Pilot-AI communication"),
      MatchPair("Neural Networks", "Engine anomaly detection") ]
  }

  /** The catalogue `freeTrialLessons`, in display order. */
  function FreeTrialLessons(): seq<Lesson>
  {
    [ Lesson(1, "What is Aerospace AI?", false, Explainer(true)),
      Lesson(2, "Key Concepts Flashcards", false,
        Flashcards([ Card("What is a Flight Control System?"),
                     Card("What is Sensor Fusion?"),
                     Card("What is Autonomous Navigation?"),
                     Card("What is Predictive Maintenance?"),
                     Card("What is a Digital Twin?") ])),
      Lesson(3, "Quick Knowledge Check", false,
        Quiz([ Question(4, 1), Question(4, 1), Question(4, 1) ])),
      Lesson(4, "Match the Concepts", false, Puzzle(CataloguePuzzle())),
      Lesson(5, "Your First Code", false, Code("python", true)) ]
  }

  /** The ids of the catalogue lessons. */
  function CatalogueIds(): set<int>
  {
    {1, 2, 3, 4, 5}
  }

  /** The catalogue holds five open lessons whose ids are 1 to 5 in order. */
  lemma CatalogueShape()
    ensures |FreeTrialLessons()| == 5 == |CatalogueIds()|
    ensures forall i :: 0 <= i < 5 ==> FreeTrialLessons()[i].id == i + 1 && !FreeTrialLessons()[i].isLocked
    ensures forall id :: id in CatalogueIds() <==> exists i :: 0 <= i < 5 && FreeTrialLessons()[i].id == id
  {
    var ls := FreeTrialLessons();
    forall id | id in CatalogueIds() ensures exists i :: 0 <= i < 5 && ls[i].id == id {
      assert ls[id - 1].id == id;
    }
  }

  /** The percentage of the course bar: completed entries over catalogue size. */
  function ProgressPercent(completedLessons: seq<int>): (r: real)
    ensures r * 5.0 == 100.0 * (|completedLessons| as real)
  {
    Percent.Percent(|completedLessons|, |FreeTrialLessons()|)
  }

  /** The figure printed next to the bar, `Math.round(progressPercent)`. */
  function ShownPercent(completedLessons: seq<int>): (r: int)
    ensures r == 20 * |completedLessons|
  {
    Percent.RoundedPercent(|completedLessons|, |FreeTrialLessons()|)
  }

  /**
   * When the completed list names catalogue lessons without repeats, the bar
   * lies within 0..100 and is full exactly when every lesson is completed.
   */
  lemma ProgressOfCatalogueLessons(completedLessons: seq<int>)
    requires Distinct(completedLessons)
    requires forall i :: 0 <= i < |completedLessons| ==> completedLessons[i] in CatalogueIds()
    ensures 0.0 <= ProgressPercent(completedLessons) <= 100.0
    ensures ProgressPercent(completedLessons) == 100.0
        <==> forall id :: id in CatalogueIds() ==> id in completedLessons
  {
    var ids := CatalogueIds();
    assert |ids| == 5;
    DistinctWithin(completedLessons, ids);
    if forall id :: id in ids ==> id in completedLessons {
      CoveringLength(completedLessons, ids);
    }
  }

  /** `completedLessons.includes(lesson.id)`: the tick on a lesson card. */
  predicate IsCompleted(completedLessons: seq<int>, lesson: Lesson)
  {
    lesson.id in completedLessons
  }

  /** The "Start" badge of a lesson card. */
  function ShowsStart(completedLessons: seq<int>, lesson: Lesson): (r: bool)
    ensures r <==> !lesson.isLocked && lesson.id !in completedLessons
  {
    !lesson.isLocked && !IsCompleted(completedLessons, lesson)
  }

  /**
   * On the catalogue's cards "Start" shows exactly on the lessons not yet
   * completed, and each of those cards opens when clicked.
   */
  lemma StartOnCatalogue(completedLessons: seq<int>)
    ensures forall i :: 0 <= i < |FreeTrialLessons()| ==>
              (ShowsStart(completedLessons, FreeTrialLessons()[i]) <==> i + 1 !in completedLessons)
    ensures forall i :: 0 <= i < |FreeTrialLessons()| && ShowsStart(completedLessons, FreeTrialLessons()[i]) ==>
              !FreeTrialLessons()[i].isLocked
  {
    CatalogueShape();
  }

  /**
   * The explainer and the code lesson offer their completion button exactly
   * while the lesson is not yet completed.
   */
  function OffersMarkComplete(isCompleted: bool): (r: bool)
    ensures r <==> !isCompleted
  {
    !isCompleted
  }

  /** The lesson dialog: which lesson is open and whether narration plays. */
  class Course {
    var activeLesson: Option<Lesson>
    var isAudioPlaying: bool

    /** Only an unlocked lesson is ever open, and audio plays only in an open dialog. */
    ghost predicate Valid()
      reads this
    {
      && (activeLesson.Some? ==> !activeLesson.value.isLocked)
      && (isAudioPlaying ==> activeLesson.Some?)
    }

    constructor ()
      ensures Valid()
      ensures activeLesson == None && !isAudioPlaying
    {
      activeLesson := None;
      isAudioPlaying := false;
    }

    /** Clicking a lesson card opens it unless it is locked. */
    method LessonClick(lesson: Lesson)
      requires Valid()
      modifies this
      ensures Valid()
      ensures activeLesson == if lesson.isLocked then old(activeLesson) else Some(lesson)
      ensures isAudioPlaying == old(isAudioPlaying)
    {
      if !lesson.isLocked {
        activeLesson := Some(lesson);
      }
    }

    /** Closing the dialog also stops the narration. */
    method CloseLesson()
      modifies this
      ensures Valid()
      ensures activeLesson == None && !isAudioPlaying
    {
      activeLesson := None;
      isAudioPlaying := false;
    }

    /** The speaker button, shown in the header of an explainer lesson only. */
    method ToggleAudio()
      requires Valid()
      requires activeLesson.Some? && activeLesson.value.content.Explainer?
      modifies this
      ensures Valid()
      ensures isAudioPlaying == !old(isAudioPlaying)
      ensures activeLesson == old(activeLesson)
    {
      isAudioPlaying := !isAudioPlaying;
    }

    /**
     * The dialog's completion callback reports the open lesson's id: always
     * an unlocked lesson, and for a catalogue lesson one of the catalogue ids.
     */
    method Complete() returns (lessonId: int)
      requires Valid()
      requires activeLesson.Some?
      ensures lessonId == activeLesson.value.id
      ensures !activeLesson.value.isLocked
      ensures activeLesson.value in FreeTrialLessons() ==> lessonId in CatalogueIds()
    {
      lessonId := activeLesson.value.id;
      CatalogueShape();
    }
  }

  /** The code lesson's "Run Code" / "Hide Output" switch. */
  class CodeLesson {
    const runnable: bool
    var showOutput: bool

    ghost predicate Valid()
      reads this
    {
      showOutput ==> runnable
    }

    constructor (runnable: bool)
      ensures Valid()
      ensures this.runnable == runnable && !showOutput
    {
      this.runnable := runnable;
      showOutput := false;
    }

    /** The completion button does not look at the output panel. */
    function CompleteOffered(isCompleted: bool): (r: bool)
      reads this
      ensures r <==> !isCompleted
    {
      OffersMarkComplete(isCompleted)
    }

    /** The switch exists only for runnable listings; it leaves the completion offer alone. */
    method ToggleOutput()
      requires runnable
      modifies this
      ensures Valid()
      ensures showOutput == !old(showOutput)
      ensures CompleteOffered(false) == old(CompleteOffered(false))
      ensures CompleteOffered(true) == old(CompleteOffered(true))
    {
      showOutput := !showOutput;
    }
  }

  /** The indices `0 .. n-1`. */
  ghost function Range(n: nat): (r: set<int>)
    ensures forall i :: i in r <==> 0 <= i < n
  {
    if n == 0 then {} else Range(n - 1) + {n - 1}
  }

  lemma {:induction false} RangeSize(n: nat)
    ensures |Range(n)| == n
  {
    if n > 0 {
      RangeSize(n - 1);
    }
  }

  /** The flashcard deck: current card, which side is up, and the cards seen. */
  class FlashcardDeck {
    const cards: seq<Card>
    var currentIndex: int
    var isFlipped: bool
    var viewedCards: set<int>

    /**
     * The current card exists, only real cards are marked viewed, and a card
     * that shows its back has been viewed.
     */
    ghost predicate Valid()
      reads this
    {
      && 0 <= currentIndex < |cards|
      && (forall i :: i in viewedCards ==> 0 <= i < |cards|)
      && (isFlipped ==> currentIndex in viewedCards)
    }

    /** `viewedCards.size === content.cards.length`. */
    function AllViewed(): (r: bool)
      reads this
      requires Valid()
      ensures r <==> forall i :: 0 <= i < |cards| ==> i in viewedCards
    {
      ViewedEverything(this);
      |viewedCards| == |cards|
    }

    /**
     * The completion button appears on the last card of a lesson not yet
     * completed, and is enabled only once every card was turned over.
     */
    function CompleteEnabled(isCompleted: bool): (r: bool)
      reads this
      requires Valid()
      ensures r ==> forall i :: 0 <= i < |cards| ==> i in viewedCards
      ensures r <==> currentIndex == |cards| - 1 && !isCompleted && AllViewed()
    {
      currentIndex == |cards| - 1 && !isCompleted && AllViewed()
    }

    /** The deck dereferences its current card, so it needs one. */
    constructor (cards: seq<Card>)
      requires |cards| > 0
      ensures Valid()
      ensures this.cards == cards
      ensures currentIndex == 0 && !isFlipped && viewedCards == {}
    {
      this.cards := cards;
      currentIndex := 0;
      isFlipped := false;
      viewedCards := {};
    }

    /** Clicking the card turns it; turning it face up marks it viewed. */
    method Flip()
      requires Valid()
      modifies this
      ensures Valid()
      ensures isFlipped == !old(isFlipped)
      ensures viewedCards == if old(isFlipped) then old(viewedCards) else old(viewedCards) + {currentIndex}
      ensures currentIndex == old(currentIndex)
    {
      if !isFlipped {
        viewedCards := viewedCards + {currentIndex};
      }
      isFlipped := !isFlipped;
    }

    /** "Next" moves one card on, face down, and stops at the last card. */
    method Next()
      requires Valid()
      modifies this
      ensures Valid()
      ensures old(currentIndex) < |cards| - 1 ==> currentIndex == old(currentIndex) + 1 && !isFlipped
      ensures old(currentIndex) == |cards| - 1 ==> currentIndex == old(currentIndex) && isFlipped == old(isFlipped)
      ensures viewedCards == old(viewedCards)
    {
      if currentIndex < |cards| - 1 {
        currentIndex := currentIndex + 1;
        isFlipped := false;
      }
    }

    /** "Previous" moves one card back, face down, and stops at the first card. */
    method Prev()
      requires Valid()
      modifies this
      ensures Valid()
      ensures old(currentIndex) > 0 ==> currentIndex == old(currentIndex) - 1 && !isFlipped
      ensures old(currentIndex) == 0 ==> currentIndex == 0 && isFlipped == old(isFlipped)
      ensures viewedCards == old(viewedCards)
    {
      if currentIndex > 0 {
        currentIndex := currentIndex - 1;
        isFlipped := false;
      }
    }
  }

  /** Counting viewed cards is the same as checking every index. */
  lemma ViewedEverything(d: FlashcardDeck)
    requires d.Valid()
    ensures |d.viewedCards| == |d.cards| <==> forall i :: 0 <= i < |d.cards| ==> i in d.viewedCards
  {
    var n := |d.cards|;
    RangeSize(n);
    assert d.viewedCards <= Range(n);
    if forall i :: 0 <= i < n ==> i in d.viewedCards {
      assert d.viewedCards == Range(n);
    }
    if |d.viewedCards| == n {
      forall i | 0 <= i < n ensures i in d.viewedCards {
        if i !in d.viewedCards {
          SubsetCardinality(d.viewedCards, Range(n) - {i});
        }
      }
    }
  }

  /**
   * The number of responses that pick their question's right option;
   * `None` (no option picked) never counts.
   */
  function CorrectCount(questions: seq<Question>, responses: seq<Option<int>>): (r: nat)
    requires |responses| <= |questions|
    ensures r <= |responses|
    decreases |responses|
  {
    if responses == [] then 0
    else
      var k := |responses| - 1;
      CorrectCount(questions, responses[..k]) + (if responses[k] == Some(questions[k].correctIndex) then 1 else 0)
  }

  /** The right option for each of the first `n` questions. */
  function RightAnswers(questions: seq<Question>, n: nat): (r: seq<Option<int>>)
    requires n <= |questions|
    ensures |r| == n
    ensures forall i :: 0 <= i < n ==> r[i] == Some(questions[i].correctIndex)
  {
    seq(n, i requires 0 <= i < n => Some(questions[i].correctIndex))
  }

  /** A response sequence scores full marks exactly when every response is right. */
  lemma {:induction false} CorrectCountFull(questions: seq<Question>, responses: seq<Option<int>>)
    requires |responses| <= |questions|
    ensures CorrectCount(questions, responses) == |responses|
        <==> responses == RightAnswers(questions, |responses|)
    decreases |responses|
  {
    if responses != [] {
      var k := |responses| - 1;
      CorrectCountFull(questions, responses[..k]);
      assert RightAnswers(questions, |responses|)[..k] == RightAnswers(questions, k);
      if responses == RightAnswers(questions, |responses|) {
        assert responses[..k] == RightAnswers(questions, k);
      }
    }
  }

  /**
   * The quiz: the question on screen, the option picked for it, whether the
   * explanation shows, the running score and whether the results page shows.
   * `answers` records, for the proof only, what was picked for each earlier
   * question.
   */
  class QuizRun {
    const questions: seq<Question>
    var currentQuestion: int
    var selectedAnswer: Option<int>
    var showExplanation: bool
    var correctAnswers: nat
    var quizComplete: bool
    ghost var answers: seq<Option<int>>

    /** What was picked for every question up to the current one. */
    ghost function Responses(): seq<Option<int>>
      reads this
    {
      answers + [selectedAnswer]
    }

    /**
     * The score always equals the number of right picks so far, the
     * explanation shows exactly when an option is picked, and the results
     * page comes only after the last question.
     */
    ghost predicate Valid()
      reads this
    {
      && 0 <= currentQuestion < |questions|
      && |answers| == currentQuestion
      && (showExplanation <==> selectedAnswer.Some?)
      && correctAnswers == CorrectCount(questions, Responses())
      && (quizComplete ==> currentQuestion == |questions| - 1)
    }

    /** The quiz dereferences its current question, so it needs one. */
    constructor (questions: seq<Question>)
      requires |questions| > 0
      ensures Valid()
      ensures this.questions == questions
      ensures currentQuestion == 0 && selectedAnswer == None && correctAnswers == 0 && !quizComplete
    {
      this.questions := questions;
      currentQuestion := 0;
      selectedAnswer := None;
      showExplanation := false;
      correctAnswers := 0;
      quizComplete := false;
      answers := [];
    }

    /** Picking an option: only the first pick for a question counts. */
    method SelectAnswer(index: int)
      requires Valid()
      modifies this
      ensures Valid()
      ensures old(selectedAnswer).Some? ==> selectedAnswer == old(selectedAnswer) && correctAnswers == old(correctAnswers)
      ensures old(selectedAnswer).None? ==> selectedAnswer == Some(index) && showExplanation
      ensures old(selectedAnswer).None? ==>
                correctAnswers == old(correctAnswers) + (if index == questions[currentQuestion].correctIndex then 1 else 0)
      ensures currentQuestion == old(currentQuestion) && quizComplete == old(quizComplete)
    {
      if selectedAnswer != None {
        return;
      }
      var before := Responses();
      selectedAnswer := Some(index);
      showExplanation := true;
      assert Responses()[..currentQuestion] == before[..currentQuestion];
      if index == questions[currentQuestion].correctIndex {
        correctAnswers := correctAnswers + 1;
      }
    }

    /** "Next Question" moves on; after the last question it shows the results. */
    method Next()
      requires Valid()
      modifies this
      ensures Valid()
      ensures old(currentQuestion) < |questions| - 1 ==>
                currentQuestion == old(currentQuestion) + 1 && selectedAnswer == None && quizComplete == old(quizComplete)
      ensures old(currentQuestion) == |questions| - 1 ==>
                quizComplete && currentQuestion == old(currentQuestion) && selectedAnswer == old(selectedAnswer)
      ensures correctAnswers == old(correctAnswers)
    {
      if currentQuestion < |questions| - 1 {
        answers := answers + [selectedAnswer];
        currentQuestion := currentQuestion + 1;
        selectedAnswer := None;
        showExplanation := false;
        assert Responses()[..currentQuestion] == old(Responses());
      } else {
        quizComplete := true;
      }
    }

    /** "Try Again" starts the quiz over. */
    method Retry()
      requires Valid()
      modifies this
      ensures Valid()
      ensures currentQuestion == 0 && selectedAnswer == None && correctAnswers == 0 && !quizComplete
    {
      currentQuestion := 0;
      selectedAnswer := None;
      showExplanation := false;
      correctAnswers := 0;
      quizComplete := false;
      answers := [];
    }

    /**
     * The rounded percentage on the results page; it is 100 when every
     * question was answered right.
     */
    function Score(): (r: int)
      reads this
      requires Valid()
      ensures 0 <= r <= 100
      ensures correctAnswers == |questions| ==> r == 100
      ensures correctAnswers == 0 ==> r == 0
    {
      Percent.RoundedPercent(correctAnswers, |questions|)
    }

    /**
     * The results page offers completion unless the lesson is already
     * completed; it is reached only from the last question, with every
     * question given its response slot and a score in range.
     */
    function CompleteOffered(isCompleted: bool): (r: bool)
      reads this
      requires Valid()
      ensures r <==> quizComplete && !isCompleted
      ensures r ==> currentQuestion == |questions| - 1 && |Responses()| == |questions|
      ensures r ==> correctAnswers <= |questions| && 0 <= Score() <= 100
    {
      quizComplete && !isCompleted
    }
  }

  /**
   * The score never exceeds the number of questions answered: the earlier
   * ones plus the current one once an option is picked for it.
   */
  lemma QuizScoreWithinAnswered(q: QuizRun)
    requires q.Valid()
    ensures q.correctAnswers <= q.currentQuestion + (if q.selectedAnswer.Some? then 1 else 0)
  {
    var rs := q.Responses();
    assert rs[..|rs| - 1] == q.answers;
  }

  /** The left-hand items of a puzzle. */
  function Lefts(items: seq<MatchPair>): set<string>
  {
    set i | 0 <= i < |items| :: items[i].left
  }

  /** The right-hand items of a puzzle. */
  function Rights(items: seq<MatchPair>): set<string>
  {
    set i | 0 <= i < |items| :: items[i].right
  }

  ghost predicate DistinctLefts(items: seq<MatchPair>)
  {
    forall i, j :: 0 <= i < j < |items| ==> items[i].left != items[j].left
  }

  /** No right-hand item is the empty string, which JavaScript treats as "no match". */
  ghost predicate RightsNonEmpty(items: seq<MatchPair>)
  {
    forall i :: 0 <= i < |items| ==> items[i].right != ""
  }

  /** There are at most as many distinct lefts as items, and exactly as many when none repeats. */
  lemma {:induction false} LeftsSize(items: seq<MatchPair>)
    ensures |Lefts(items)| <= |items|
    ensures DistinctLefts(items) ==> |Lefts(items)| == |items|
    decreases |items|
  {
    if items != [] {
      var k := |items| - 1;
      LeftsSize(items[..k]);
      LeftsOfPrefix(items);
    }
  }

  /** The lefts of a non-empty puzzle are those of all but its last item, plus the last left. */
  lemma LeftsOfPrefix(items: seq<MatchPair>)
    requires items != []
    ensures Lefts(items) == Lefts(items[..|items| - 1]) + {items[|items| - 1].left}
    ensures DistinctLefts(items) ==>
              DistinctLefts(items[..|items| - 1]) && items[|items| - 1].left !in Lefts(items[..|items| - 1])
  {
    var k := |items| - 1;
    var pre := items[..k];
    forall x | x in Lefts(items) ensures x in Lefts(pre) + {items[k].left} {
      var i :| 0 <= i < |items| && items[i].left == x;
      if i < k {
        assert pre[i] == items[i];
      }
    }
    forall x | x in Lefts(pre) ensures x in Lefts(items) {
      var i :| 0 <= i < |pre| && pre[i].left == x;
      assert items[i] == pre[i];
    }
    if DistinctLefts(items) {
      forall i, j | 0 <= i < j < |pre| ensures pre[i].left != pre[j].left {
        assert pre[i] == items[i] && pre[j] == items[j];
      }
      forall i | 0 <= i < k ensures pre[i].left != items[k].left {
        assert pre[i] == items[i];
      }
    }
  }

  /** The matching puzzle: which left is picked, the matches made, and the done flag. */
  class MatchingPuzzle {
    const items: seq<MatchPair>
    var matches: map<string, string>
    var selectedLeft: Option<string>
    var isComplete: bool

    /** `!!matches[left]`: the left item has a match that is not the empty string. */
    predicate HasMatch(left: string)
      reads this
    {
      left in matches && matches[left] != ""
    }

    /**
     * Matches join puzzle lefts to puzzle rights, no right is used twice, a
     * picked left is an unmatched puzzle left, and (when no right is empty)
     * the done flag is up exactly when every item is matched.
     */
    ghost predicate Valid()
      reads this
    {
      && matches.Keys <= Lefts(items)
      && matches.Values <= Rights(items)
      && (forall a, b :: a in matches && b in matches && a != b ==> matches[a] != matches[b])
      && (selectedLeft.Some? ==> selectedLeft.value in Lefts(items) && !HasMatch(selectedLeft.value))
      && (RightsNonEmpty(items) ==> (isComplete <==> |items| > 0 && |matches.Keys| == |items|))
    }

    /** `Object.keys(matches).length === content.items.length`. */
    function AllMatched(): (r: bool)
      reads this
      requires Valid()
      ensures r ==> matches.Keys == Lefts(items)
      ensures r <==> |matches.Keys| == |items|
    {
      FullBoardCoversLefts(this);
      |matches.Keys| == |items|
    }

    /** Every item's left is matched with its own right ("Perfect Match!"). */
    function AllCorrect(): (r: bool)
      reads this
      ensures r <==> forall i :: 0 <= i < |items| ==> items[i].left in matches && matches[items[i].left] == items[i].right
    {
      forall i :: 0 <= i < |items| ==> items[i].left in matches && matches[items[i].left] == items[i].right
    }

    /** The completion button shows once every item is matched, right or wrong. */
    function CompleteOffered(isCompleted: bool): (r: bool)
      reads this
      requires Valid()
      ensures r <==> !isCompleted && |matches.Keys| == |items|
      ensures r ==> matches.Keys == Lefts(items)
    {
      !isCompleted && AllMatched()
    }

    constructor (items: seq<MatchPair>)
      ensures Valid()
      ensures this.items == items
      ensures matches == map[] && selectedLeft == None && !isComplete
    {
      this.items := items;
      matches := map[];
      selectedLeft := None;
      isComplete := false;
    }

    /** Clicking an unmatched left picks it, or unpicks it when it was picked. */
    method LeftClick(left: string)
      requires Valid()
      requires left in Lefts(items)
      modifies this
      ensures Valid()
      ensures HasMatch(left) ==> selectedLeft == old(selectedLeft)
      ensures !HasMatch(left) ==> selectedLeft == if old(selectedLeft) == Some(left) then None else Some(left)
      ensures matches == old(matches) && isComplete == old(isComplete)
    {
      if HasMatch(left) {
        return;
      }
      selectedLeft := if selectedLeft == Some(left) then None else Some(left);
    }

    /**
     * Clicking a right that is still free matches it to the picked left; the
     * done flag goes up when that was the last missing match.
     */
    method RightClick(right: string)
      requires Valid()
      requires right in Rights(items)
      modifies this
      ensures Valid()
      ensures !Truthy(old(selectedLeft)) || right in old(matches.Values) ==>
                matches == old(matches) && selectedLeft == old(selectedLeft) && isComplete == old(isComplete)
      ensures Truthy(old(selectedLeft)) && right !in old(matches.Values) ==>
                && matches == old(matches)[old(selectedLeft).value := right]
                && selectedLeft == None
                && isComplete == (old(isComplete) || |old(matches).Keys| + 1 == |items|)
      ensures RightsNonEmpty(items) && Truthy(old(selectedLeft)) && right !in old(matches.Values) ==>
                old(selectedLeft).value !in old(matches) && |matches.Keys| == |old(matches).Keys| + 1
    {
      if !Truthy(selectedLeft) {
        return;
      }
      if right in matches.Values {
        return;
      }
      var left := selectedLeft.value;
      var count := |matches.Keys|;
      if RightsNonEmpty(items) {
        PickedLeftIsFree(this);
      }
      forall a | a in matches && a != left ensures matches[a] != right { }
      matches := matches[left := right];
      selectedLeft := None;
      if count + 1 == |items| {
        isComplete := true;
      }
    }

    /** "Reset" clears every match and the pick. */
    method Reset()
      modifies this
      ensures Valid()
      ensures matches == map[] && selectedLeft == None && !isComplete
    {
      matches := map[];
      selectedLeft := None;
      isComplete := false;
    }
  }

  /**
   * When no right is empty, a picked left has no match at all, so matching
   * it leaves room: fewer matches than items.
   */
  lemma PickedLeftIsFree(p: MatchingPuzzle)
    requires p.Valid()
    requires RightsNonEmpty(p.items)
    requires p.selectedLeft.Some?
    ensures p.selectedLeft.value !in p.matches
    ensures |p.matches.Keys| < |p.items|
  {
    var left := p.selectedLeft.value;
    assert left !in p.matches by {
      assert forall k :: k in p.matches ==> p.matches[k] in p.matches.Values;
    }
    LeftsSize(p.items);
    SubsetCardinality(p.matches.Keys + {left}, Lefts(p.items));
  }

  /** As many matches as items means every left is matched. */
  lemma FullBoardCoversLefts(p: MatchingPuzzle)
    requires p.Valid()
    ensures |p.matches.Keys| == |p.items| ==> p.matches.Keys == Lefts(p.items)
  {
    LeftsSize(p.items);
    if |p.matches.Keys| == |p.items| && p.matches.Keys != Lefts(p.items) {
      assert !(Lefts(p.items) <= p.matches.Keys);
      var x :| x in Lefts(p.items) && x !in p.matches.Keys;
      SubsetCardinality(p.matches.Keys, Lefts(p.items) - {x});
    }
  }

  /** When the lefts are distinct, a fully correct board is a fully matched one. */
  lemma AllCorrectIsAllMatched(p: MatchingPuzzle)
    requires p.Valid()
    requires DistinctLefts(p.items)
    requires p.AllCorrect()
    ensures p.AllMatched()
  {
    LeftsSize(p.items);
    assert p.matches.Keys == Lefts(p.items);
  }

  /** The catalogue puzzle has distinct, non-empty lefts and rights. */
  lemma CataloguePuzzleIsWellFormed()
    ensures FreeTrialLessons()[3].content == Puzzle(CataloguePuzzle())
    ensures DistinctLefts(CataloguePuzzle())
    ensures RightsNonEmpty(CataloguePuzzle())
    ensures |CataloguePuzzle()| == 4
  {
  }
}
