/**
 * The request handlers of server/routes.ts over the store.
 *
 * A request body is a JSON value; the three request schemas are checked
 * field by field as the validation library does (a failing check reports
 * the names of the offending fields and the handler answers 400 before the
 * store is touched). Whether a string is a well-formed e-mail address is
 * decided by a predicate passed in by the caller. Timestamps and fresh
 * identifiers are parameters.
 */
module Routes {
  import opened Common
  import opened ProgressRecord
  import opened Storage

  datatype Json =
    | JNull
    | JBool(b: bool)
    | JNum(n: int)
    | JStr(s: string)
    | JArr(items: seq<Json>)
    | JObj(fields: map<string, Json>)

  /** The outcome of checking one request against a schema. */
  datatype Parsed<T> = Parsed(value: T) | Rejected(issues: seq<string>)

  /** Body of `POST /api/progress`: every field but the visitor id may be left out. */
  datatype ProgressUpdate = ProgressUpdate(
    visitorId: string,
    completedLessons: Option<seq<int>>,
    xp: Option<int>,
    streak: Option<int>)

  /** Body of `POST /api/lessons/complete`, with `xpEarned` already defaulted. */
  datatype LessonCompletion = LessonCompletion(visitorId: string, lessonId: int, xpEarned: int)

  /** Body of `POST /api/enroll`. */
  datatype Enrollment = Enrollment(visitorId: string, name: string, email: string)

  /** The JSON bodies the handlers answer with. */
  datatype Reply =
    | Record(progress: UserProgress)
    | ZeroState(visitorId: string, completedLessons: seq<int>, xp: int, streak: int,
                lastVisit: string, quizScores: map<int, int>)
    | EnrollReply(success: bool, message: string, progress: UserProgress)
    | StatsReply(totalEnrollments: int, totalLessonsCompleted: int)

  datatype Response = Ok200(reply: Reply) | BadRequest400(issues: seq<string>)

  /** XP awarded by a completion request that does not say. */
  const DefaultXpEarned := 50

  /** The fixed totals `GET /api/course` reports. */
  const CourseTotalStages := 3
  const CourseTotalLessons := 5

  // ---------------------------------------------------------------------
  // Field checks

  /** A field of an object body; absent (`undefined`) otherwise. */
  function Field(body: Json, key: string): Option<Json>
  {
    if body.JObj? && key in body.fields then Some(body.fields[key]) else None
  }

  predicate AllNumbers(items: seq<Json>)
  {
    forall i :: 0 <= i < |items| ==> items[i].JNum?
  }

  function Numbers(items: seq<Json>): (r: seq<int>)
    requires AllNumbers(items)
    ensures |r| == |items| && forall i :: 0 <= i < |items| ==> items[i] == JNum(r[i])
  {
    if items == [] then [] else [items[0].n] + Numbers(items[1..])
  }

  /** The name of `key` if the check on it failed. */
  function IssueIf(failed: bool, key: string): seq<string>
  {
    if failed then [key] else []
  }

  predicate IsStringField(body: Json, key: string)
  {
    Field(body, key).Some? && Field(body, key).value.JStr?
  }

  predicate IsNumberField(body: Json, key: string)
  {
    Field(body, key).Some? && Field(body, key).value.JNum?
  }

  /** An optional number: absent, or present and a number (`null` is not absent). */
  predicate IsOptionalNumber(body: Json, key: string)
  {
    Field(body, key).None? || Field(body, key).value.JNum?
  }

  predicate IsOptionalNumberArray(body: Json, key: string)
  {
    Field(body, key).None? || (Field(body, key).value.JArr? && AllNumbers(Field(body, key).value.items))
  }

  function OptionalNumber(body: Json, key: string): Option<int>
    requires IsOptionalNumber(body, key)
  {
    if Field(body, key).None? then None else Some(Field(body, key).value.n)
  }

  // ---------------------------------------------------------------------
  // Schemas

  /** `progressSchema`: a string visitor id, and optional lessons, xp and streak. */
  function ParseProgress(body: Json): (r: Parsed<ProgressUpdate>)
    ensures r.Parsed? <==>
              IsStringField(body, "visitorId") && IsOptionalNumberArray(body, "completedLessons")
              && IsOptionalNumber(body, "xp") && IsOptionalNumber(body, "streak")
    ensures r.Rejected? ==> r.issues != []
    ensures r.Parsed? ==> JStr(r.value.visitorId) == body.fields["visitorId"]
    ensures r.Parsed? ==> (r.value.xp.Some? <==> "xp" in body.fields)
    ensures r.Parsed? && r.value.xp.Some? ==> body.fields["xp"] == JNum(r.value.xp.value)
    ensures r.Parsed? ==> (r.value.streak.Some? <==> "streak" in body.fields)
    ensures r.Parsed? && r.value.streak.Some? ==> body.fields["streak"] == JNum(r.value.streak.value)
    ensures r.Parsed? ==> (r.value.completedLessons.Some? <==> "completedLessons" in body.fields)
    ensures r.Parsed? && r.value.completedLessons.Some? ==>
              var sent := body.fields["completedLessons"];
              var lessons := r.value.completedLessons.value;
              sent.JArr? && |lessons| == |sent.items|
              && forall i :: 0 <= i < |lessons| ==> sent.items[i] == JNum(lessons[i])
  {
    if !body.JObj? then Rejected([""])
    else
      var issues := IssueIf(!IsStringField(body, "visitorId"), "visitorId")
                    + IssueIf(!IsOptionalNumberArray(body, "completedLessons"), "completedLessons")
                    + IssueIf(!IsOptionalNumber(body, "xp"), "xp")
                    + IssueIf(!IsOptionalNumber(body, "streak"), "streak");
      if issues != [] then Rejected(issues)
      else
        var lessons := if Field(body, "completedLessons").None? then None
                       else Some(Numbers(Field(body, "completedLessons").value.items));
        Parsed(ProgressUpdate(Field(body, "visitorId").value.s, lessons,
                              OptionalNumber(body, "xp"), OptionalNumber(body, "streak")))
  }

  /** `lessonCompletionSchema`: `xpEarned` defaults to 50 when it is left out. */
  function ParseLessonCompletion(body: Json): (r: Parsed<LessonCompletion>)
    ensures r.Parsed? <==>
              IsStringField(body, "visitorId") && IsNumberField(body, "lessonId") && IsOptionalNumber(body, "xpEarned")
    ensures r.Rejected? ==> r.issues != []
    ensures r.Parsed? ==> JStr(r.value.visitorId) == body.fields["visitorId"]
    ensures r.Parsed? ==> JNum(r.value.lessonId) == body.fields["lessonId"]
    ensures r.Parsed? && "xpEarned" !in body.fields ==> r.value.xpEarned == 50
    ensures r.Parsed? && "xpEarned" in body.fields ==> body.fields["xpEarned"] == JNum(r.value.xpEarned)
  {
    if !body.JObj? then Rejected([""])
    else
      var issues := IssueIf(!IsStringField(body, "visitorId"), "visitorId")
                    + IssueIf(!IsNumberField(body, "lessonId"), "lessonId")
                    + IssueIf(!IsOptionalNumber(body, "xpEarned"), "xpEarned");
      if issues != [] then Rejected(issues)
      else
        var xp := if Field(body, "xpEarned").None? then DefaultXpEarned else Field(body, "xpEarned").value.n;
        Parsed(LessonCompletion(Field(body, "visitorId").value.s, Field(body, "lessonId").value.n, xp))
  }

  /** `enrollmentSchema`: a non-empty name and a well-formed e-mail address. */
  function ParseEnrollment(body: Json, isEmail: string -> bool): (r: Parsed<Enrollment>)
    ensures r.Parsed? <==>
              IsStringField(body, "visitorId") && IsStringField(body, "name") && IsStringField(body, "email")
              && body.fields["name"].s != "" && isEmail(body.fields["email"].s)
    ensures r.Rejected? ==> r.issues != []
    ensures r.Parsed? ==> JStr(r.value.visitorId) == body.fields["visitorId"]
    ensures r.Parsed? ==> JStr(r.value.name) == body.fields["name"] && JStr(r.value.email) == body.fields["email"]
  {
    if !body.JObj? then Rejected([""])
    else
      var nameOk := IsStringField(body, "name") && |Field(body, "name").value.s| >= 1;
      var emailOk := IsStringField(body, "email") && isEmail(Field(body, "email").value.s);
      var issues := IssueIf(!IsStringField(body, "visitorId"), "visitorId")
                    + IssueIf(!nameOk, "name")
                    + IssueIf(!emailOk, "email");
      if issues != [] then Rejected(issues)
      else Parsed(Enrollment(Field(body, "visitorId").value.s, Field(body, "name").value.s, Field(body, "email").value.s))
  }

  // ---------------------------------------------------------------------
  // Pure parts of the handlers

  /**
   * The answer to `GET /api/progress/:visitorId`: the stored record, or a
   * zero state for a visitor the store does not know.
   */
  function ProgressReply(stored: Option<UserProgress>, visitorId: string, now: string): (r: Reply)
    ensures stored.Some? ==> r == Record(stored.value)
    ensures stored.None? ==> r.ZeroState? && r.visitorId == visitorId && r.lastVisit == now
                             && r.completedLessons == [] && r.xp == 0 && r.streak == 1 && r.quizScores == map[]
  {
    if stored.None? then ZeroState(visitorId, [], 0, 1, now, map[])
    else Record(stored.value)
  }

  /**
   * The record `POST /api/progress` saves: each of lessons, xp and streak
   * comes from the request if it says, else from the stored record, else
   * from the zero state; everything else is kept from the stored record.
   */
  function MergeProgress(existing: Option<UserProgress>, data: ProgressUpdate, now: string): (r: UserProgress)
    ensures r.visitorId == data.visitorId && r.lastVisit == now
    ensures r.id == if existing.Some? && existing.value.id != "" then existing.value.id else data.visitorId
    ensures data.completedLessons.Some? ==> r.completedLessons == data.completedLessons.value
    ensures data.xp.Some? ==> r.xp == data.xp.value
    ensures data.streak.Some? ==> r.streak == data.streak.value
    ensures existing.Some? ==>
              && (data.completedLessons.None? ==> r.completedLessons == existing.value.completedLessons)
              && (data.xp.None? ==> r.xp == existing.value.xp)
              && (data.streak.None? ==> r.streak == existing.value.streak)
              && r.quizScores == existing.value.quizScores
              && r.name == existing.value.name && r.email == existing.value.email
              && r.enrolledAt == existing.value.enrolledAt
    ensures existing.None? ==>
              && (data.completedLessons.None? ==> r.completedLessons == [])
              && (data.xp.None? ==> r.xp == 0)
              && (data.streak.None? ==> r.streak == 1)
              && r.quizScores == map[] && r.name == None && r.email == None && r.enrolledAt == None
  {
    var id := if existing.Some? && existing.value.id != "" then existing.value.id else data.visitorId;
    var lessons := if data.completedLessons.Some? then data.completedLessons.value
                   else if existing.Some? then existing.value.completedLessons else [];
    var xp := if data.xp.Some? then data.xp.value else if existing.Some? then existing.value.xp else 0;
    var streak := if data.streak.Some? then data.streak.value else if existing.Some? then existing.value.streak else 1;
    var scores := if existing.Some? then existing.value.quizScores else map[];
    UserProgress(id, data.visitorId, lessons, xp, streak, now, scores,
                 if existing.Some? then existing.value.enrolledAt else None,
                 if existing.Some? then existing.value.name else None,
                 if existing.Some? then existing.value.email else None)
  }

  /** Sending the same snapshot twice stores the same record as sending it once. */
  lemma MergeIsIdempotent(existing: Option<UserProgress>, data: ProgressUpdate, t1: string, t2: string)
    ensures MergeProgress(Some(MergeProgress(existing, data, t1)), data, t2) == MergeProgress(existing, data, t2)
  {
  }

  /** A snapshot that names only the visitor leaves a stored record as it was, but for the visit stamp. */
  lemma EmptySnapshotKeepsRecord(existing: UserProgress, visitorId: string, now: string)
    requires existing.id != ""
    ensures MergeProgress(Some(existing), ProgressUpdate(visitorId, None, None, None), now)
         == existing.(visitorId := visitorId, lastVisit := now)
  {
  }

  /** For an unknown visitor, an empty snapshot stores what the zero-state reply shows. */
  lemma EmptySnapshotMatchesZeroState(visitorId: string, now: string)
    ensures var r := MergeProgress(None, ProgressUpdate(visitorId, None, None, None), now);
            var z := ProgressReply(None, visitorId, now);
            IsZeroState(r) && r.visitorId == z.visitorId && r.completedLessons == z.completedLessons
            && r.xp == z.xp && r.streak == z.streak && r.quizScores == z.quizScores && r.id == visitorId
  {
  }

  /**
   * The snapshot route stores whatever list the client sends, so unlike
   * lesson completion it can leave a duplicated lesson id in a record.
   */
  lemma SnapshotMayDuplicateLessons(visitorId: string, now: string)
    ensures !Distinct(MergeProgress(None, ProgressUpdate(visitorId, Some([1, 1]), None, None), now).completedLessons)
  {
    var r := MergeProgress(None, ProgressUpdate(visitorId, Some([1, 1]), None, None), now);
    assert r.completedLessons[0] == r.completedLessons[1];
  }

  /** `enrollments.reduce((sum, e) => sum + e.completedLessons.length, 0)`. */
  function SumLessons(es: seq<UserProgress>): (r: int)
  {
    if es == [] then 0 else SumLessons(es[..|es| - 1]) + |es[|es| - 1].completedLessons|
  }

  lemma {:induction false} SumLessonsAppend(a: seq<UserProgress>, b: seq<UserProgress>)
    ensures SumLessons(a + b) == SumLessons(a) + SumLessons(b)
    decreases |b|
  {
    if b == [] {
      assert a + b == a;
    } else {
      assert (a + b)[..|a + b| - 1] == a + b[..|b| - 1];
      SumLessonsAppend(a, b[..|b| - 1]);
    }
  }

  /** The total is never negative, and it is positive as soon as one enrollee completed a lesson. */
  lemma {:induction false} SumLessonsBounds(es: seq<UserProgress>)
    ensures SumLessons(es) >= 0
    ensures (exists i :: 0 <= i < |es| && es[i].completedLessons != []) ==> SumLessons(es) > 0
    decreases |es|
  {
    if es != [] {
      var init := es[..|es| - 1];
      SumLessonsBounds(init);
      assert forall i :: 0 <= i < |init| ==> init[i] == es[i];
    }
  }

  /** The stats reply over an enrollment listing. */
  function StatsFor(enrollments: seq<UserProgress>): (r: Reply)
    ensures r.StatsReply? && r.totalEnrollments == |enrollments|
    ensures r.totalLessonsCompleted == SumLessons(enrollments)
    ensures r.totalLessonsCompleted >= 0
    ensures (exists i :: 0 <= i < |enrollments| && enrollments[i].completedLessons != []) ==> r.totalLessonsCompleted > 0
  {
    SumLessonsBounds(enrollments);
    StatsReply(|enrollments|, SumLessons(enrollments))
  }

  // ---------------------------------------------------------------------
  // Handlers

  /** `GET /api/progress/:visitorId`: never an error; the store is not changed. */
  method GetProgress(store: MemStorage, visitorId: string, now: string) returns (resp: Response)
    ensures visitorId in store.progress ==> resp == Ok200(Record(store.progress[visitorId]))
    ensures visitorId !in store.progress ==> resp == Ok200(ZeroState(visitorId, [], 0, 1, now, map[]))
  {
    var stored := store.GetProgress(visitorId);
    resp := Ok200(ProgressReply(stored, visitorId, now));
  }

  /** `POST /api/progress`: validate, merge onto the stored record, save. */
  method PostProgress(store: MemStorage, body: Json, now: string) returns (resp: Response)
    requires store.Valid()
    modifies store
    ensures store.Valid()
    ensures ParseProgress(body).Rejected? ==>
              resp == BadRequest400(ParseProgress(body).issues) && unchanged(store)
    ensures ParseProgress(body).Parsed? ==>
              var data := ParseProgress(body).value;
              var r := MergeProgress(old(Stored(store.progress, data.visitorId)), data, now);
              resp == Ok200(Record(r)) && store.progress == old(store.progress)[data.visitorId := r]
              && store.progressOrder == OrderAfterSet(old(store.progressOrder), old(store.progress), data.visitorId)
              && store.users == old(store.users) && store.userOrder == old(store.userOrder)
  {
    var parsed := ParseProgress(body);
    if parsed.Rejected? {
      return BadRequest400(parsed.issues);
    }
    var data := parsed.value;
    var existing := store.GetProgress(data.visitorId);
    var saved := store.SaveProgress(MergeProgress(existing, data, now));
    resp := Ok200(Record(saved));
  }

  /** `POST /api/lessons/complete`: validate (xp defaults to 50) and record the completion. */
  method PostLessonComplete(store: MemStorage, body: Json, freshId: string, now: string) returns (resp: Response)
    requires store.Valid()
    modifies store
    ensures store.Valid()
    ensures ParseLessonCompletion(body).Rejected? ==>
              resp == BadRequest400(ParseLessonCompletion(body).issues) && unchanged(store)
    ensures ParseLessonCompletion(body).Parsed? ==>
              var data := ParseLessonCompletion(body).value;
              var before := old(StoredOrNew(store.progress, data.visitorId, freshId, now));
              var r := WithLessonCompleted(before, data.lessonId, data.xpEarned, now);
              resp == Ok200(Record(r)) && store.progress == old(store.progress)[data.visitorId := r]
              && store.progressOrder == OrderAfterSet(old(store.progressOrder), old(store.progress), data.visitorId)
              && store.users == old(store.users) && store.userOrder == old(store.userOrder)
  {
    var parsed := ParseLessonCompletion(body);
    if parsed.Rejected? {
      return BadRequest400(parsed.issues);
    }
    var data := parsed.value;
    var r := store.UpdateLessonCompletion(data.visitorId, data.lessonId, data.xpEarned, freshId, now);
    resp := Ok200(Record(r));
  }

  /**
   * `POST /api/enroll`: an empty name or a malformed address is refused
   * with 400 and the store is left alone; otherwise the enrollment is saved.
   */
  method PostEnroll(store: MemStorage, body: Json, isEmail: string -> bool, freshId: string, now: string)
    returns (resp: Response)
    requires store.Valid()
    modifies store
    ensures store.Valid()
    ensures ParseEnrollment(body, isEmail).Rejected? ==>
              resp == BadRequest400(ParseEnrollment(body, isEmail).issues) && unchanged(store)
    ensures ParseEnrollment(body, isEmail).Parsed? ==>
              var data := ParseEnrollment(body, isEmail).value;
              var before := old(StoredOrNew(store.progress, data.visitorId, freshId, now));
              var r := WithEnrollment(before, data.name, data.email, now);
              resp == Ok200(EnrollReply(true, "Successfully enrolled!", r))
              && store.progress == old(store.progress)[data.visitorId := r]
              && store.progressOrder == OrderAfterSet(old(store.progressOrder), old(store.progress), data.visitorId)
              && store.users == old(store.users) && store.userOrder == old(store.userOrder)
              && (now != "" ==> CountFor(store.AllEnrollments(), data.visitorId) == 1)
  {
    var parsed := ParseEnrollment(body, isEmail);
    if parsed.Rejected? {
      return BadRequest400(parsed.issues);
    }
    var data := parsed.value;
    var r := store.SaveEnrollment(data.visitorId, data.name, data.email, freshId, now);
    resp := Ok200(EnrollReply(true, "Successfully enrolled!", r));
  }

  /** `GET /api/stats`: how many visitors enrolled and how many lessons they completed in all. */
  method GetStats(store: MemStorage) returns (resp: Response)
    requires store.Valid()
    ensures resp.Ok200? && resp.reply.StatsReply?
    ensures resp.reply.totalEnrollments == |store.AllEnrollments()|
    ensures resp.reply.totalLessonsCompleted == SumLessons(store.AllEnrollments())
  {
    var enrollments := store.GetAllEnrollments();
    resp := Ok200(StatsFor(enrollments));
  }
}
