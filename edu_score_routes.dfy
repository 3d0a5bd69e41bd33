/** The learning-score routes of the mirror
    (backend/routes/eduScoreRoutes.js): look a record up by user, create or
    partially overwrite it, and complete a lesson.

    Records are saved through the schema of backend/models/EduScore.js,
    whose only check that can fail here is the minimum score of 0. Every
    error of the two POST routes, including a failed validation, is
    answered 400. */
module MirrorEduRoutes {
  import opened Common
  import opened Mirror

  const EduNotFound := "EduScore not found"
  const ValidationFailed := "EduScore validation failed"
  const AlreadyCompleted := "Lesson already completed"
  /** `pointsEarned || 10`. */
  const DefaultPoints := 10

  datatype EduRouteReply =
    | EduFound(record: MirrorEdu)
    | EduSaved(record: MirrorEdu)
    | LessonDone(scoreEarned: int, record: MirrorEdu)
    | AlreadyDone
    | EduRouteError(status: nat, message: string)

  function StatusOf(r: EduRouteReply): nat {
    match r
    case EduFound(_) => 200
    case EduSaved(_) => 201
    case LessonDone(_, _) => 200
    case AlreadyDone => 200
    case EduRouteError(status, _) => status
  }

  /** The schema's `min: 0` on the score. */
  predicate ScoreInBounds(e: MirrorEdu) {
    e.score >= 0
  }

  // ---- GET /user/:userId ----

  method GetByUser(store: MirrorStore, userId: Id, failing: set<MirrorStep>) returns (reply: EduRouteReply)
    ensures Query in failing ==> reply == EduRouteError(500, StoreFailure)
    ensures Query !in failing ==>
      (reply.EduFound? <==> exists k :: 0 <= k < |store.eduScores| && store.eduScores[k].userId == userId)
    ensures Query !in failing && !reply.EduFound? ==> reply == EduRouteError(404, EduNotFound)
    ensures reply.EduFound? ==>
      reply.record.userId == userId && reply.record == store.eduScores[EduOfUser(store.eduScores, userId)]
  {
    if Query in failing {
      return EduRouteError(500, StoreFailure);
    }
    var k := EduOfUser(store.eduScores, userId);
    if k < 0 {
      return EduRouteError(404, EduNotFound);
    }
    reply := EduFound(store.eduScores[k]);
  }

  // ---- saving a record ----

  /** The collection after saving `r`: over the user's record at k, or
      appended when the user had none (k is -1). */
  function Put(es: seq<MirrorEdu>, k: int, r: MirrorEdu): seq<MirrorEdu>
    requires -1 <= k < |es|
  {
    if k >= 0 then es[k := r] else es + [r]
  }

  /** `eduScore.save()`: refused by validation or by the store, or written
      with `reply` as the answer. */
  function Save(m: MirrorDocs, k: int, r: MirrorEdu, reply: EduRouteReply, failing: set<MirrorStep>): Routed<EduRouteReply>
    requires -1 <= k < |m.eduScores|
  {
    if !ScoreInBounds(r) then Routed(EduRouteError(400, ValidationFailed), m)
    else if Write in failing then Routed(EduRouteError(400, StoreFailure), m)
    else Routed(reply, m.(eduScores := Put(m.eduScores, k, r)))
  }

  /** Saving the user's record leaves it, and only it, at the user's
      place (the old one, or a new one at the end); users stay distinct. */
  lemma PutShape(es: seq<MirrorEdu>, k: int, r: MirrorEdu)
    requires k == EduOfUser(es, r.userId)
    ensures var u := Put(es, k, r);
      var i := if k >= 0 then k else |es|;
      && |u| == (if k >= 0 then |es| else |es| + 1)
      && EduOfUser(u, r.userId) == i && u[i] == r
      && (forall j :: 0 <= j < |es| && j != i ==> u[j] == es[j])
      && (DistinctEduUsers(es) ==> DistinctEduUsers(u))
  {
    var u := Put(es, k, r);
    if k < 0 {
      assert forall j :: 0 <= j < |es| ==> u[j] == es[j];
      assert forall j :: 0 <= j < |es| ==> u[j].userId != r.userId;
      assert u[|es|] == r;
    } else {
      assert forall j :: 0 <= j < |es| ==> u[j].userId == es[j].userId;
    }
  }

  method SaveRecord(store: MirrorStore, k: int, r: MirrorEdu, reply: EduRouteReply, failing: set<MirrorStep>)
    returns (answer: EduRouteReply)
    requires -1 <= k < |store.eduScores|
    modifies store
    ensures var e := Save(old(store.Snapshot()), k, r, reply, failing);
      answer == e.reply && store.Snapshot() == e.after
  {
    if r.score < 0 {
      return EduRouteError(400, ValidationFailed);
    }
    if Write in failing {
      return EduRouteError(400, StoreFailure);
    }
    if k >= 0 {
      store.eduScores := store.eduScores[k := r];
    } else {
      store.eduScores := store.eduScores + [r];
    }
    answer := reply;
  }

  // ---- POST / ----

  /** The record POST / saves: an existing record takes each field the
      request carries and keeps each it omits, and is stamped; a new
      record takes the schema defaults for what is omitted. */
  function Posted(es: seq<MirrorEdu>, k: int, userId: Id, score: Option<int>, lessons: Option<seq<string>>,
                  now: Timestamp): MirrorEdu
    requires -1 <= k < |es|
  {
    if k >= 0 then
      es[k].(score := if score.Some? then score.value else es[k].score,
             completedLessons := if lessons.Some? then lessons.value else es[k].completedLessons,
             lastUpdated := Some(now))
    else MirrorEdu(userId, if score.Some? then score.value else 0, if lessons.Some? then lessons.value else [], None)
  }

  function PostScore(m: MirrorDocs, userId: Id, score: Option<int>, lessons: Option<seq<string>>,
                     now: Timestamp, failing: set<MirrorStep>): Routed<EduRouteReply> {
    if Query in failing then Routed(EduRouteError(400, StoreFailure), m)
    else
      var k := EduOfUser(m.eduScores, userId);
      var r := Posted(m.eduScores, k, userId, score, lessons, now);
      Save(m, k, r, EduSaved(r), failing)
  }

  method HandlePostScore(store: MirrorStore, userId: Id, score: Option<int>, lessons: Option<seq<string>>,
                         now: Timestamp, failing: set<MirrorStep>) returns (reply: EduRouteReply)
    modifies store
    ensures var e := PostScore(old(store.Snapshot()), userId, score, lessons, now, failing);
      reply == e.reply && store.Snapshot() == e.after
  {
    if Query in failing {
      return EduRouteError(400, StoreFailure);
    }
    var k := EduOfUser(store.eduScores, userId);
    var eduScore: MirrorEdu;
    if k >= 0 {
      eduScore := store.eduScores[k];
      eduScore := eduScore.(score := if score.Some? then score.value else eduScore.score);
      eduScore := eduScore.(completedLessons := if lessons.Some? then lessons.value else eduScore.completedLessons);
      eduScore := eduScore.(lastUpdated := Some(now));
    } else {
      eduScore := MirrorEdu(userId, if score.Some? then score.value else 0, if lessons.Some? then lessons.value else [], None);
    }
    reply := SaveRecord(store, k, eduScore, EduSaved(eduScore), failing);
  }

  /** POST / answers 201 with the saved record exactly when the store works
      and the resulting score is not negative. The saved record keeps
      every field the request omits (the old value, or the default 0 and
      the empty list for a new record) and takes every field it carries;
      the user keeps one record and nothing else changes. A refusal
      changes nothing. */
  lemma PostScoreOutcome(m: MirrorDocs, userId: Id, score: Option<int>, lessons: Option<seq<string>>,
                         now: Timestamp, failing: set<MirrorStep>)
    ensures var e := PostScore(m, userId, score, lessons, now, failing);
      var k := EduOfUser(m.eduScores, userId);
      var i := if k >= 0 then k else |m.eduScores|;
      && (e.reply.EduRouteError? ==> StatusOf(e.reply) == 400 && e.after == m)
      && (Query in failing ==> e.reply == EduRouteError(400, StoreFailure))
      && (Query !in failing && Write !in failing ==> (e.reply.EduSaved? <==> ScoreInBounds(Posted(m.eduScores, k, userId, score, lessons, now))))
      && (e.reply.EduSaved? ==>
            var r := e.reply.record;
            && Query !in failing && Write !in failing && ScoreInBounds(r)
            && r.userId == userId
            && r.score == (if score.Some? then score.value else if k >= 0 then m.eduScores[k].score else 0)
            && r.completedLessons == (if lessons.Some? then lessons.value else if k >= 0 then m.eduScores[k].completedLessons else [])
            && r.lastUpdated == (if k >= 0 then Some(now) else None)
            && e.after.wallets == m.wallets && e.after.nextOid == m.nextOid
            && EduOfUser(e.after.eduScores, userId) == i && e.after.eduScores[i] == r
            && (forall j :: 0 <= j < |m.eduScores| && j != i ==> e.after.eduScores[j] == m.eduScores[j])
            && (DistinctEduUsers(m.eduScores) ==> DistinctEduUsers(e.after.eduScores)))
  {
    if Query !in failing {
      var k := EduOfUser(m.eduScores, userId);
      PutShape(m.eduScores, k, Posted(m.eduScores, k, userId, score, lessons, now));
    }
  }

  // ---- POST /complete-lesson ----

  /** `pointsEarned || 10`: a missing value and 0 both count as 10. */
  function Points(pointsEarned: Option<int>): int {
    if pointsEarned.None? || pointsEarned.value == 0 then DefaultPoints else pointsEarned.value
  }

  /** The record after completing a lesson it does not hold yet: created
      with the points and that one lesson, or extended in place. */
  function Completed(es: seq<MirrorEdu>, k: int, userId: Id, lessonId: string, p: int, now: Timestamp): MirrorEdu
    requires -1 <= k < |es|
  {
    if k >= 0 then es[k].(completedLessons := es[k].completedLessons + [lessonId], score := es[k].score + p, lastUpdated := Some(now))
    else MirrorEdu(userId, p, [lessonId], None)
  }

  function CompleteLesson(m: MirrorDocs, userId: Id, lessonId: string, pointsEarned: Option<int>,
                          now: Timestamp, failing: set<MirrorStep>): Routed<EduRouteReply> {
    if Query in failing then Routed(EduRouteError(400, StoreFailure), m)
    else
      var k := EduOfUser(m.eduScores, userId);
      if k >= 0 && lessonId in m.eduScores[k].completedLessons then Routed(AlreadyDone, m)
      else
        var r := Completed(m.eduScores, k, userId, lessonId, Points(pointsEarned), now);
        Save(m, k, r, LessonDone(Points(pointsEarned), r), failing)
  }

  method HandleCompleteLesson(store: MirrorStore, userId: Id, lessonId: string, pointsEarned: Option<int>,
                              now: Timestamp, failing: set<MirrorStep>) returns (reply: EduRouteReply)
    modifies store
    ensures var e := CompleteLesson(old(store.Snapshot()), userId, lessonId, pointsEarned, now, failing);
      reply == e.reply && store.Snapshot() == e.after
  {
    if Query in failing {
      return EduRouteError(400, StoreFailure);
    }
    var k := EduOfUser(store.eduScores, userId);
    var points := if pointsEarned.None? || pointsEarned.value == 0 then DefaultPoints else pointsEarned.value;
    var eduScore: MirrorEdu;
    if k < 0 {
      eduScore := MirrorEdu(userId, points, [lessonId], None);
    } else {
      eduScore := store.eduScores[k];
      if lessonId in eduScore.completedLessons {
        return AlreadyDone;
      }
      eduScore := eduScore.(completedLessons := eduScore.completedLessons + [lessonId]);
      eduScore := eduScore.(score := eduScore.score + points);
      eduScore := eduScore.(lastUpdated := Some(now));
    }
    reply := SaveRecord(store, k, eduScore, LessonDone(points, eduScore), failing);
  }

  /** Learning-score records never hold a lesson twice. */
  ghost predicate DistinctLessons(es: seq<MirrorEdu>) {
    forall k :: 0 <= k < |es| ==>
      forall i, j :: 0 <= i < j < |es[k].completedLessons| ==> es[k].completedLessons[i] != es[k].completedLessons[j]
  }

  /** A lesson the user's record already holds is answered 200 with
      nothing earned and nothing written. Otherwise, with a working store,
      the answer is 200 with the points `pointsEarned || 10` (so 0 counts
      as 10) exactly when the new score is not negative: a new record has
      those points and that one lesson, an existing one gains the points
      and the lesson at the end and is stamped; nothing else changes. A
      refusal changes nothing. */
  lemma CompleteLessonOutcome(m: MirrorDocs, userId: Id, lessonId: string, pointsEarned: Option<int>,
                              now: Timestamp, failing: set<MirrorStep>)
    ensures var e := CompleteLesson(m, userId, lessonId, pointsEarned, now, failing);
      var k := EduOfUser(m.eduScores, userId);
      var i := if k >= 0 then k else |m.eduScores|;
      var p := if pointsEarned.None? || pointsEarned == Some(0) then 10 else pointsEarned.value;
      && (e.reply.EduRouteError? ==> StatusOf(e.reply) == 400 && e.after == m)
      && (Query !in failing && k >= 0 && lessonId in m.eduScores[k].completedLessons ==> e == Routed(AlreadyDone, m))
      && (e.reply.AlreadyDone? ==> e.after == m && k >= 0 && lessonId in m.eduScores[k].completedLessons)
      && (Query !in failing && Write !in failing && (k < 0 || lessonId !in m.eduScores[k].completedLessons) ==>
            (e.reply.LessonDone? <==> (if k >= 0 then m.eduScores[k].score else 0) + p >= 0))
      && (e.reply.LessonDone? ==>
            var r := e.reply.record;
            && e.reply.scoreEarned == p
            && r.userId == userId && ScoreInBounds(r)
            && (k < 0 ==> r == MirrorEdu(userId, p, [lessonId], None))
            && (k >= 0 ==> r.score == m.eduScores[k].score + p
                           && r.completedLessons == m.eduScores[k].completedLessons + [lessonId]
                           && lessonId !in m.eduScores[k].completedLessons
                           && r.lastUpdated == Some(now))
            && e.after.wallets == m.wallets
            && EduOfUser(e.after.eduScores, userId) == i && e.after.eduScores[i] == r
            && (forall j :: 0 <= j < |m.eduScores| && j != i ==> e.after.eduScores[j] == m.eduScores[j]))
  {
    if Query !in failing {
      var k := EduOfUser(m.eduScores, userId);
      PutShape(m.eduScores, k, Completed(m.eduScores, k, userId, lessonId, Points(pointsEarned), now));
    }
  }

  /** Completing keeps every record free of repeated lessons and the users
      distinct; completing the same lesson again is answered 200 with
      nothing earned and writes nothing. */
  lemma CompleteLessonKeepsDistinct(m: MirrorDocs, userId: Id, lessonId: string, pointsEarned: Option<int>,
                                    now: Timestamp, failing: set<MirrorStep>)
    requires DistinctLessons(m.eduScores) && DistinctEduUsers(m.eduScores)
    ensures var e := CompleteLesson(m, userId, lessonId, pointsEarned, now, failing);
      && DistinctLessons(e.after.eduScores) && DistinctEduUsers(e.after.eduScores)
      && (e.reply.LessonDone? ==> CompleteLesson(e.after, userId, lessonId, pointsEarned, now, failing) == Routed(AlreadyDone, e.after))
  {
    var e := CompleteLesson(m, userId, lessonId, pointsEarned, now, failing);
    CompleteLessonOutcome(m, userId, lessonId, pointsEarned, now, failing);
    if e.reply.LessonDone? {
      var k := EduOfUser(m.eduScores, userId);
      var i := if k >= 0 then k else |m.eduScores|;
      var r := e.reply.record;
      PutShape(m.eduScores, k, r);
      assert r.completedLessons[|r.completedLessons| - 1] == lessonId;
      assert forall j :: 0 <= j < |e.after.eduScores| && j != i ==> e.after.eduScores[j] == m.eduScores[j];
    }
  }
}
