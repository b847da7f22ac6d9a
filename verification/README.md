# Aerospace AI course site: verified model of the progress core

The site sells an "Aerospace Systems AI Engineer" course. Visitors can try five
free lessons:

- an explainer;
- a deck of flashcards;
- a three-question quiz;
- a four-pair matching puzzle;
- a code walk-through.

The page tracks each visitor's completed lessons, XP and streak, shows them on
a dashboard and a roadmap, and lets the visitor enroll.

This project models the parts of the site that decide anything, in Dafny:

- **`Storage`** (`storage.dfy`, with the record in `progress_record.dfy`): the server's in-memory store `MemStorage`.
  - It is a class whose users and progress tables are maps.
  - Each map carries the sequence of its keys in insertion order, because a JavaScript `Map` lists its values in that order.
  - Completion and enrollment rewrite the stored record. They are specified by the pure record transitions `ProgressRecord.WithLessonCompleted` and `ProgressRecord.WithEnrollment`.
- **`Routes`** (`routes.dfy`): the JSON API handlers as methods over the store.
  - Request bodies are a small JSON datatype, checked against the three request schemas. A failed check yields 400 and leaves the store untouched.
  - The pure parts are functions: the zero-state reply, the field-by-field merge of `POST /api/progress`, and the stats sum.
- **`FreeTrialCourse`** (`free_trial_course.dfy`): the lesson catalogue, the lesson dialog, and one class per lesson state machine. The state machines are `FlashcardDeck`, `QuizRun`, `MatchingPuzzle` and `CodeLesson`.
  - Each `useState` hook is a field; each event handler is a method.
  - Each class has an invariant `Valid()` that every handler preserves.
- **`ProgressDashboard`**, **`RoadmapSection`**, **`Home`**:
  - the dashboard meters and achievements;
  - the roadmap stage status and its expand toggle;
  - the page's defaults and its current-stage rule.

  Lemmas tie these to the catalogue and to the server's replies.
- **`Percent`** and **`Common`**: exact percentages and `Math.round` on rationals; `Option`, JavaScript truthiness of strings, and a few cardinality lemmas.

Timestamps, generated ids and e-mail validity are parameters of the operations.

## Model

| member | source | states |
|---|---|---|
| ProgressRecord.NewProgressIsZeroState | server/storage.ts:67-77 | A record created for an unknown visitor has no lessons, xp 0, streak 1, no quiz scores, no name, e-mail or enrollment, and carries the visitor's id. |
| ProgressRecord.WithLessonCompleted | server/storage.ts:79-85 | After a completion the lesson is listed. A listed lesson leaves lessons and xp unchanged. A new lesson is appended at the end and adds exactly `xpEarned`. A duplicate-free list stays duplicate-free. Only `lastVisit` is restamped; every other field is kept. |
| ProgressRecord.CompletionIsIdempotent | server/storage.ts:79-82 | Completing the same lesson again, with any xp, changes nothing but the timestamp. |
| ProgressRecord.CompletingNewLessons | server/storage.ts:79-82 | Completing distinct, not yet completed lessons in turn appends exactly those lessons in order and adds `xpEarned` once per lesson. |
| ProgressRecord.CompleteEachKeepsDistinct | server/storage.ts:79-82 | Any sequence of completions keeps the lesson list duplicate-free. With non-negative awards, xp never falls. |
| ProgressRecord.WithEnrollment | server/storage.ts:105-107 | Enrollment sets name, e-mail and the enrollment time, and keeps lessons, xp, streak, quiz scores and every other field. With a non-empty timestamp the record counts as enrolled. |
| ProgressRecord.EnrollmentOverwrites | server/storage.ts:105-107 | Enrolling twice equals enrolling once with the later details. |
| ProgressRecord.EnrollmentCommutesWithCompletion | server/storage.ts:79-85 | Enrollment and lesson completion touch disjoint fields, so they can happen in either order. |
| Storage.Enrolled | server/storage.ts:113-115 | The filtered listing is no longer than the table, and each entry is a stored record whose enrollment time is truthy. |
| Storage.FindByUsername | server/storage.ts:42-46 | Returns the first user in insertion order with that username, and `None` exactly when no user has it. |
| Storage.EnrolledOncePerVisitor | server/storage.ts:113-115 | In the listing each visitor appears once if their record is enrolled, and not at all otherwise. |
| Storage.EnrolledAfterSet | server/storage.ts:109-110 | Storing an enrolled record grows the listing by one, unless that visitor was already enrolled. |
| Storage.MemStorage.constructor | server/storage.ts:33-36 | The store starts with both tables empty. |
| Storage.MemStorage.GetUser | server/storage.ts:38-40 | Returns the user stored under the id, or `None`. |
| Storage.MemStorage.GetUserByUsername | server/storage.ts:42-46 | Returns a stored user with that username, and `None` exactly when there is none. |
| Storage.MemStorage.CreateUser | server/storage.ts:48-53 | Stores the new user under the given id and returns it. The progress table is untouched. |
| Storage.MemStorage.GetProgress | server/storage.ts:55-57 | Returns the record stored under the visitor id, or `None`. |
| Storage.MemStorage.SaveProgress | server/storage.ts:59-62 | Stores the record under its own visitor id, replacing any earlier one, and returns it. Other keys and their order are untouched. The store invariant (each record sits under its own visitor id) is kept. |
| Storage.MemStorage.UpdateLessonCompletion | server/storage.ts:64-88 | The stored record, or a fresh zero record, becomes `WithLessonCompleted` of itself under the same key, and is returned. The users table is unchanged. |
| Storage.MemStorage.SaveEnrollment | server/storage.ts:90-111 | The stored record, or a fresh zero record, becomes `WithEnrollment` of itself. The visitor then appears exactly once in the enrollment listing. The listing grows by one unless the visitor was already enrolled. |
| Storage.MemStorage.GetAllEnrollments | server/storage.ts:113-115 | Returns the enrolled records in insertion order. Every stored visitor appears once if enrolled and otherwise not at all. |
| Routes.ParseProgress | server/routes.ts:6-11 | Accepts exactly a body with a string `visitorId` and, when present, a number array `completedLessons` and number `xp` and `streak`. The parsed fields are the body's, the lesson list element by element. A rejection lists at least one issue. |
| Routes.ParseLessonCompletion | server/routes.ts:13-17 | Accepts exactly a string `visitorId`, a number `lessonId` and an optional number `xpEarned`. A missing `xpEarned` becomes 50. |
| Routes.ParseEnrollment | server/routes.ts:19-23 | Accepts exactly a string `visitorId`, a non-empty `name` and an `email` that the address check accepts. |
| Routes.ProgressReply | server/routes.ts:49-63 | A known visitor gets the stored record. An unknown one gets a zero state: the visitor's id, no lessons, xp 0, streak 1, no quiz scores. |
| Routes.MergeProgress | server/routes.ts:75-86 | Lessons, xp and streak each come from the request when given, else from the stored record, else [] / 0 / 1. An explicit 0 is kept. The id is the stored one when truthy, else the visitor id. Quiz scores, name, e-mail and enrollment are kept from the stored record. |
| Routes.MergeIsIdempotent | server/routes.ts:75-86 | Sending the same snapshot twice stores the same record as sending it once. |
| Routes.EmptySnapshotKeepsRecord | server/routes.ts:75-86 | A snapshot that only names the visitor leaves a stored record as it was, apart from the visit stamp. |
| Routes.EmptySnapshotMatchesZeroState | server/routes.ts:51-60 | For an unknown visitor, an empty snapshot stores exactly what the zero-state reply shows. |
| Routes.SnapshotMayDuplicateLessons | server/routes.ts:78 | The snapshot route stores the client's list as sent, so a record can end up with a repeated lesson id. |
| Routes.SumLessonsAppend | server/routes.ts:147-150 | The lesson total over two listings is the sum of their totals. |
| Routes.SumLessonsBounds | server/routes.ts:147-150 | The lesson total is never negative, and positive once any enrollee completed a lesson. |
| Routes.StatsFor | server/routes.ts:145-151 | The stats report as many enrollments as the listing holds, and the sum of their lesson counts. That total is never negative, and positive once any enrollee completed a lesson. |
| Routes.GetProgress | server/routes.ts:46-67 | Answers 200 with the stored record or the zero state, never an error. |
| Routes.PostProgress | server/routes.ts:69-96 | A body that fails the schema gets 400 with its issues, and the store is unchanged. Otherwise the merged record is saved and returned. The progress table's key order follows `Map.set`, and the users table is untouched. |
| Routes.PostLessonComplete | server/routes.ts:98-116 | A body that fails the schema gets 400, and the store is unchanged. Otherwise the completion is recorded (xp defaulting to 50) and the new record returned. The progress table's key order follows `Map.set`, and the users table is untouched. |
| Routes.PostEnroll | server/routes.ts:118-140 | An empty name or bad address gets 400 before the store is touched. Otherwise the enrollment is saved, the success reply is returned, and the visitor is listed once. The progress table's key order follows `Map.set`, and the users table is untouched. |
| Routes.GetStats | server/routes.ts:142-155 | Reports the number of enrolled records and the sum of their lesson counts. |
| Percent.Percent | client/src/components/progress-dashboard.tsx:32-33 | `part / whole * 100` exactly. It lies in 0..100 for `0 <= part <= whole`, is 100 only at `part == whole`, and is 0 only at `part == 0`. |
| Percent.RoundedPercent | client/src/components/free-trial-course.tsx:468 | `Math.round` of the percentage is the nearest whole number, halves rounded up. It lies in 0..100 when `part <= whole`, is 100 at `part == whole`, and is 0 at 0. |
| Percent.TwoOfThreeScores67 | client/src/components/free-trial-course.tsx:468 | Two right answers out of three score 67. |
| FreeTrialCourse.CatalogueShape | client/src/lib/course-data.ts:81-219 | The catalogue holds five open lessons whose ids are 1 to 5. |
| FreeTrialCourse.ProgressPercent | client/src/components/free-trial-course.tsx:35-37 | The course bar is the completed count times 100 over the catalogue size. |
| FreeTrialCourse.ShownPercent | client/src/components/free-trial-course.tsx:86 | The printed figure is 20 per completed entry. |
| FreeTrialCourse.ProgressOfCatalogueLessons | client/src/components/free-trial-course.tsx:35-37 | For distinct catalogue lessons the bar stays within 0..100. It is full exactly when every catalogue lesson is completed. |
| FreeTrialCourse.ShowsStart | client/src/components/free-trial-course.tsx:151 | A card shows "Start" exactly when its lesson is unlocked and not completed. |
| FreeTrialCourse.StartOnCatalogue | client/src/components/free-trial-course.tsx:93-95 | On the catalogue's five cards, "Start" shows exactly on the lessons not yet completed, and every such card is unlocked, so clicking it opens the lesson. |
| FreeTrialCourse.OffersMarkComplete | client/src/components/free-trial-course.tsx:304-313 | The explainer offers completion exactly while the lesson is not completed; `Home.OfferedCompletionAddsLesson` shows that an offered completion always adds the lesson and its XP. |
| FreeTrialCourse.Course.constructor | client/src/components/free-trial-course.tsx:32-33 | No lesson is open and no narration plays. |
| FreeTrialCourse.Course.LessonClick | client/src/components/free-trial-course.tsx:50-54 | A click opens the lesson unless it is locked, so only unlocked lessons are ever open. |
| FreeTrialCourse.Course.CloseLesson | client/src/components/free-trial-course.tsx:56-59 | Closing clears the open lesson and stops the narration. |
| FreeTrialCourse.Course.ToggleAudio | client/src/components/free-trial-course.tsx:224-233 | The explainer's speaker button flips narration and keeps the lesson open. |
| FreeTrialCourse.Course.Complete | client/src/components/free-trial-course.tsx:172-174 | The dialog reports the open lesson's id as completed. That lesson is always unlocked, and for a catalogue lesson the id is one of the catalogue ids 1 to 5. |
| FreeTrialCourse.CodeLesson.CompleteOffered | client/src/components/free-trial-course.tsx:763-772 | The code lesson offers completion exactly while the lesson is not completed. |
| FreeTrialCourse.CodeLesson.ToggleOutput | client/src/components/free-trial-course.tsx:728-731 | "Run Code" flips the output panel, which exists only for runnable listings. The completion offer is the same before and after. |
| FreeTrialCourse.FlashcardDeck.constructor | client/src/components/free-trial-course.tsx:320-322 | The deck starts at card 0, face down, nothing viewed. |
| FreeTrialCourse.FlashcardDeck.AllViewed | client/src/components/free-trial-course.tsx:325 | Counting viewed cards equals checking that every index was viewed. |
| FreeTrialCourse.FlashcardDeck.CompleteEnabled | client/src/components/free-trial-course.tsx:405-419 | Completion is offered only on the last card, only while the lesson is not completed, and only once every card was viewed. |
| FreeTrialCourse.FlashcardDeck.Flip | client/src/components/free-trial-course.tsx:327-332 | A flip turns the card. Turning it face up marks the current index viewed; turning it face down changes nothing else. The index stays valid and the viewed set only grows. |
| FreeTrialCourse.FlashcardDeck.Next | client/src/components/free-trial-course.tsx:334-339 | Moves one card on and face down. On the last card it does nothing. |
| FreeTrialCourse.FlashcardDeck.Prev | client/src/components/free-trial-course.tsx:341-346 | Moves one card back and face down. On the first card it does nothing. |
| FreeTrialCourse.CorrectCount | client/src/components/free-trial-course.tsx:444-446 | The number of right picks never exceeds the number of responses. |
| FreeTrialCourse.CorrectCountFull | client/src/components/free-trial-course.tsx:444-446 | All responses count as right exactly when each picks its question's right option. |
| FreeTrialCourse.QuizRun.constructor | client/src/components/free-trial-course.tsx:431-435 | The quiz starts at question 0 with no pick, no points and no results. |
| FreeTrialCourse.QuizRun.SelectAnswer | client/src/components/free-trial-course.tsx:440-447 | Only the first pick for a question counts. It shows the explanation, and adds a point exactly when the pick is right. The score always equals the number of right picks. |
| FreeTrialCourse.QuizRun.Next | client/src/components/free-trial-course.tsx:449-457 | Moves to the next question with the pick cleared. On the last question it shows the results instead. |
| FreeTrialCourse.QuizRun.Retry | client/src/components/free-trial-course.tsx:459-465 | Restores question 0, no pick, no points, no results. |
| FreeTrialCourse.QuizRun.Score | client/src/components/free-trial-course.tsx:467-468 | The results score lies in 0..100. It is 100 when every question was right and 0 when none was. |
| FreeTrialCourse.QuizRun.CompleteOffered | client/src/components/free-trial-course.tsx:467-488 | Completion appears exactly on the results page of a lesson not yet completed. The results page is reached only from the last question: every question has had its turn, the points are at most the question count, and the score is in 0..100. |
| FreeTrialCourse.QuizScoreWithinAnswered | client/src/components/free-trial-course.tsx:440-457 | The score never exceeds the number of questions answered so far. |
| FreeTrialCourse.LeftsSize | client/src/components/free-trial-course.tsx:587 | A puzzle has at most as many distinct lefts as items, and exactly as many when no left repeats. |
| FreeTrialCourse.MatchingPuzzle.constructor | client/src/components/free-trial-course.tsx:583-585 | The board starts with no matches, no pick, not done. |
| FreeTrialCourse.MatchingPuzzle.AllMatched | client/src/components/free-trial-course.tsx:587 | "All matched" means as many matches as items, and then every left is matched. |
| FreeTrialCourse.MatchingPuzzle.AllCorrect | client/src/components/free-trial-course.tsx:588 | Holds exactly when every item's left is matched with its own right. |
| FreeTrialCourse.MatchingPuzzle.CompleteOffered | client/src/components/free-trial-course.tsx:696-705 | Completion is offered exactly when the lesson is not completed and every item is matched, right or wrong. When it is offered, the matched lefts are exactly the puzzle's lefts. |
| FreeTrialCourse.MatchingPuzzle.LeftClick | client/src/components/free-trial-course.tsx:590-593 | A matched left is ignored. Otherwise the click picks the left, or unpicks it if it was picked. Matches are unchanged. |
| FreeTrialCourse.MatchingPuzzle.RightClick | client/src/components/free-trial-course.tsx:595-605 | With no pick, or with a right already used, nothing happens. Otherwise the picked left is matched to the right, the pick is cleared, and "done" goes up on the match that fills the last slot. Matches stay injective. When no right is empty, exactly one new left is matched. |
| FreeTrialCourse.MatchingPuzzle.Reset | client/src/components/free-trial-course.tsx:607-611 | Clears matches, pick and "done". |
| FreeTrialCourse.FullBoardCoversLefts | client/src/components/free-trial-course.tsx:587 | When there are as many matches as items, the matched lefts are exactly the puzzle's lefts. |
| FreeTrialCourse.AllCorrectIsAllMatched | client/src/components/free-trial-course.tsx:587-588 | With distinct lefts, a fully correct board is fully matched. |
| FreeTrialCourse.CataloguePuzzleIsWellFormed | client/src/lib/course-data.ts:166-171 | The catalogue puzzle has four pairs with distinct lefts and non-empty rights. |
| ProgressDashboard.LessonsProgress | client/src/components/progress-dashboard.tsx:32 | The trial meter is completed over total times 100. It is within 0..100 while the count is within the total, and full exactly at the total. |
| ProgressDashboard.StageProgress | client/src/components/progress-dashboard.tsx:33 | The stage meter is stage over stages times 100, within 0..100 for a stage within range. |
| ProgressDashboard.ShownPercent | client/src/components/progress-dashboard.tsx:143-151 | The printed figures are the meters rounded to the nearest whole number. |
| ProgressDashboard.JobReadyProgress | client/src/components/progress-dashboard.tsx:34 | The meter is 100 from stage 2 on and 50 per stage below it. It never exceeds 100 for a non-negative stage and reaches 100 exactly from stage 2. |
| ProgressDashboard.JobReadyText | client/src/components/progress-dashboard.tsx:160 | "Ready!" shows exactly from stage 2 on; otherwise the rounded percentage shows. |
| ProgressDashboard.EarnedAchievements | client/src/components/progress-dashboard.tsx:36-41 | The earned set holds exactly the achievements whose condition holds. |
| ProgressDashboard.AchievementThresholds | client/src/components/progress-dashboard.tsx:37-40 | First Steps needs one lesson, Quick Learner five, Trial Complete the total, and 3-Day Streak a streak of 3. |
| ProgressDashboard.TrialCompleteBoundary | client/src/components/progress-dashboard.tsx:39 | Trial Complete is not earned at one lesson short of the total, and is earned at the total. |
| ProgressDashboard.AchievementsAreMonotone | client/src/components/progress-dashboard.tsx:37-40 | More lessons or a longer streak never take an achievement away. |
| ProgressDashboard.TwoOfFiveIsForty | client/src/components/progress-dashboard.tsx:32 | Two lessons of five show 40%. |
| RoadmapSection.StatusOf | client/src/components/roadmap-section.tsx:35-40 | Every stage gets exactly one status: completed if listed; otherwise current if it is the current stage; otherwise unlocked below it and locked above it. |
| RoadmapSection.ProgressOf | client/src/components/roadmap-section.tsx:29-33 | Progress is 100 exactly for a completed stage, 35 for the current one, and 0 for every other. |
| RoadmapSection.ShowsBar | client/src/components/roadmap-section.tsx:159 | The bar is drawn exactly for completed and current stages. |
| RoadmapSection.Roadmap.constructor | client/src/components/roadmap-section.tsx:27 | Stage 1 starts expanded. |
| RoadmapSection.Roadmap.PropsChanged | client/src/components/roadmap-section.tsx:20-27 | A re-render with new stage props keeps the expanded stage. The invariant survives when no completed stage is dropped and the current stage does not fall. |
| RoadmapSection.Roadmap.HeaderClick | client/src/components/roadmap-section.tsx:125 | A click toggles a stage's expansion, and does nothing on a locked stage. The props are unchanged, and the invariant (only stage 1 can be expanded while locked) is kept. |
| RoadmapSection.Roadmap.ShowsDetails | client/src/components/roadmap-section.tsx:171 | Details show only for the expanded stage, and never for a locked one. |
| RoadmapSection.Roadmap.ShowsStartLesson | client/src/components/roadmap-section.tsx:211-220 | The free-lesson button is shown only in stage 1's open details. |
| RoadmapSection.StageDropLocksStageTwo | client/src/components/roadmap-section.tsx:35-40 | Stage 2 is open at stage 2 and locked at stage 1, so a falling stage can leave a locked stage expanded. |
| RoadmapSection.NoCompletedStages | client/src/components/roadmap-section.tsx:35-40 | With nothing completed, a stage is locked exactly when it lies beyond the current stage. |
| Home.PageProgressOf | client/src/pages/home.tsx:61-63 | While loading, the page shows no lessons, xp 0 and streak 1. Otherwise it shows the reply's lessons and xp. The streak is the reply's, except that 0 shows as 1. |
| Home.CurrentStage | client/src/pages/home.tsx:64 | Stage 2 exactly from five completed lessons on, stage 1 before. |
| Home.CompletionRequest | client/src/pages/home.tsx:57-59 | The completion request carries the visitor, the lesson and the xp award. |
| Home.OfferedCompletionAddsLesson | client/src/pages/home.tsx:56-58 | A completion button is offered only for a lesson the record does not list yet, so the page's completion adds that lesson and 50 XP. For a completed lesson no button shows, and a repeat would change neither lessons nor XP. |
| Home.CompletionRequestIsAccepted | client/src/pages/home.tsx:57-59 | The server accepts every completion the page sends, as worth 50 XP. |
| Home.NewVisitorPage | client/src/pages/home.tsx:61-64 | An unknown visitor, and a page still loading, show no lessons, 0 XP, streak 1 and stage 1. |
| Home.ZeroStreakShowsAsOne | client/src/pages/home.tsx:63 | A stored streak of 0 is shown as 1. |
| Home.StageTwoIsTrialComplete | client/src/pages/home.tsx:64 | For distinct catalogue lessons, these all coincide with every catalogue lesson being completed: stage 2, Trial Complete, Quick Learner and "Ready!". |
| Home.CompletionNeverLowersStage | client/src/pages/home.tsx:25-31 | A completion, after which the page refetches, never shortens the lesson list or lowers the stage handed to the roadmap. |
| Home.RoadmapOfPage | client/src/pages/home.tsx:76-80 | The roadmap never shows a completed stage. Below five lessons, stage 1 is current. From five on, stage 1 is unlocked, stage 2 current and stage 3 locked. |
| Home.PageAgreesWithCourseSummary | client/src/pages/home.tsx:89-96 | The dashboard's totals (five lessons, three stages) match the course summary the server reports. |

## Left out

- Rendering, animation, icons and CSS classes: presentation only.
- Numbers are exact: integers for the JSON numbers of the schemas, and rationals for percentages.
  - Floating point is not modelled: no rounding error, no `NaN` for a zero total.
  - The meters therefore require a positive total.
- The 500 answers of the handlers are not modelled. They occur only when the store throws, and the in-memory store never does.
- Each store call takes one clock reading. The source reads the clock twice when it creates a record (`lastVisit` at creation and again on the update). The model uses the same `now` for both.
- Store records are values. The source hands out the stored object itself, so a caller that mutated a returned record would change the store. That aliasing is not modelled.
- Asynchrony, React render batching and stale closures are not modelled. Each handler is one atomic step.
- `fetch`, `localStorage`, `crypto.randomUUID` and the clock are not modelled. Visitor ids, record ids and timestamps are parameters.
- The `z.string().email()` address check is a function parameter. Its rules are not modelled.
- The static `GET /api/course` reply is reduced to its two totals (`Routes.CourseTotalStages`, `Routes.CourseTotalLessons`).
- The catalogue keeps only what drives behaviour: ids, titles, lock flags, card prompts, the number of quiz options and the right indices, the puzzle pairs, and the code lesson's language and runnable flag. Explanations, card backs, narration text and the code listing are not carried.
- The zod error objects are reduced to a list of the offending field names.
- The scroll handler, sticky header, hero, day-in-life, AI-impact and enroll-form sections, and the particle animation are not part of this model.
- The `UserProgress` declared in shared/schema.ts is not part of this model. It is unused, and the server's record is modelled instead.
- FreeTrialCourse.FlashcardDeck.constructor, FreeTrialCourse.QuizRun.constructor: both require non-empty content. The source reads the current card or question and would throw on an empty deck or quiz; that crash is not modelled. Every catalogue lesson has cards and questions.
- RoadmapSection.Roadmap.PropsChanged: the roadmap's invariant is kept only while progress does not go back. If the stage falls (for example, the in-memory store is wiped when the server restarts and the next refetch returns a shorter record), an expanded stage 2 stays expanded while locked. The source hides its details then, and so does `ShowsDetails`, but the invariant no longer holds.
- FreeTrialCourse.MatchingPuzzle.RightClick: the "done exactly when every item is matched" invariant is proved only for puzzles whose right items are all non-empty strings. With an empty right, the source's truthiness checks let a left be matched twice, and the flag can go up early.
- Storage.MemStorage.SaveEnrollment: the "listed once" guarantee assumes a non-empty timestamp. An empty `enrolledAt` is falsy, so the record would be left out of the listing.
