/** The learning-score routes of the document store
    (backend/routes/eduScore.js), behind the authentication middleware:
    read the user's score, creating it on first use, and complete a lesson
    for a number of points.

    Every save runs the schema's `min: 0` validation of score and the
    pre-save hook that stamps lastUpdated. */
module EduScoreApi {
  import opened Common
  import opened Mongo
  import Seqs

  const ServerError := "Server error"
  const LessonRequired := "Lesson ID is required"
  const AlreadyCompleted := "Lesson already completed"
  const LessonCompleted := "Lesson completed successfully"

  /** `pointsEarned = 10`: the default applies only when no value is sent. */
  const DefaultPoints := 10

  datatype EduReply =
    | ScoreOf(record: MongoEdu)
    | Completed(message: string, scoreEarned: int, totalScore: int, completedLessons: nat)
    | EduRefused(status: nat, error: string)

  // ---- GET / ----

  /** The user's record; when there is none a new one is created, saved
      and returned. */
  function GetScore(d: Docs, user: Id, now: Timestamp, failing: set<MongoStep>): Handled<EduReply> {
    if Find in failing then Handled(EduRefused(500, ServerError), d)
    else
      var k := EduOfUser(d.eduScores, user);
      if k >= 0 then Handled(ScoreOf(d.eduScores[k]), d)
      else
        var blank := NewEdu(d.nextOid, user, now);
        var created := d.(nextOid := d.nextOid + 1);
        if EduSave in failing then Handled(EduRefused(500, ServerError), created)
        else
          // a new record has score 0, so it always passes validation
          Handled(ScoreOf(PreSave(blank, now)), created.(eduScores := SaveEdu(d.eduScores, blank, now).value))
  }

  // ---- POST /complete-lesson ----

  function PointsOf(pointsEarned: Option<int>): int {
    if pointsEarned.None? then DefaultPoints else pointsEarned.value
  }

  /** What is done with the user's record once it is at hand: a lesson
      already in its list is refused; otherwise the points are added, the
      lesson appended and the record saved, which fails validation when the
      score would drop below zero. */
  function Finish(d: Docs, record: MongoEdu, lessonId: string, p: int, now: Timestamp, failing: set<MongoStep>): Handled<EduReply> {
    if lessonId in record.completedLessons then Handled(EduRefused(400, AlreadyCompleted), d)
    else
      var updated := record.(score := record.score + p, completedLessons := record.completedLessons + [lessonId]);
      if EduSave in failing then Handled(EduRefused(500, ServerError), d)
      else match SaveEdu(d.eduScores, updated, now)
        case None => Handled(EduRefused(500, ServerError), d)
        case Some(es) => Handled(Completed(LessonCompleted, p, updated.score, |updated.completedLessons|), d.(eduScores := es))
  }

  /** An empty lesson id is refused first. Then the user's record is found,
      or a new one is made but not yet saved, and finished. */
  function CompleteLesson(d: Docs, user: Id, lessonId: string, pointsEarned: Option<int>, now: Timestamp, failing: set<MongoStep>): Handled<EduReply> {
    if lessonId == "" then Handled(EduRefused(400, LessonRequired), d)
    else if Find in failing then Handled(EduRefused(500, ServerError), d)
    else
      var k := EduOfUser(d.eduScores, user);
      if k >= 0 then Finish(d, d.eduScores[k], lessonId, PointsOf(pointsEarned), now, failing)
      else Finish(d.(nextOid := d.nextOid + 1), NewEdu(d.nextOid, user, now), lessonId, PointsOf(pointsEarned), now, failing)
  }

  // ---- the handlers, updating the collection in place ----

  method HandleGetScore(store: MongoStore, user: Id, now: Timestamp, failing: set<MongoStep>) returns (reply: EduReply)
    requires store.Valid()
    modifies store
    ensures store.Valid()
    ensures var e := GetScore(old(store.Snapshot()), user, now, failing);
      reply == e.reply && store.Snapshot() == e.after
  {
    GetScoreOutcome(store.Snapshot(), user, now, failing);
    if Find in failing {
      return EduRefused(500, ServerError);
    }
    var k := EduOfUser(store.eduScores, user);
    if k >= 0 {
      return ScoreOf(store.eduScores[k]);
    }
    var oid := store.FreshOid();
    var eduScore := NewEdu(oid, user, now);
    if EduSave in failing {
      return EduRefused(500, ServerError);
    }
    var saved := SaveEdu(store.eduScores, eduScore, now);
    store.eduScores := saved.value;
    reply := ScoreOf(PreSave(eduScore, now));
  }

  method FinishLesson(store: MongoStore, eduScore: MongoEdu, ghost i: nat, lessonId: string, points: int, now: Timestamp, failing: set<MongoStep>)
    returns (reply: EduReply)
    requires store.Valid() && Slot(store.Snapshot(), eduScore, i)
    modifies store
    ensures store.Valid()
    ensures var e := Finish(old(store.Snapshot()), eduScore, lessonId, points, now, failing);
      reply == e.reply && store.Snapshot() == e.after
  {
    FinishOutcome(store.Snapshot(), eduScore, i, lessonId, points, now, failing);
    if lessonId in eduScore.completedLessons {
      return EduRefused(400, AlreadyCompleted);
    }
    var updated := eduScore.(score := eduScore.score + points);
    updated := updated.(completedLessons := updated.completedLessons + [lessonId]);
    if EduSave in failing {
      return EduRefused(500, ServerError);
    }
    var saved := SaveEdu(store.eduScores, updated, now);
    if saved.None? {
      return EduRefused(500, ServerError);
    }
    store.eduScores := saved.value;
    reply := Completed(LessonCompleted, points, updated.score, |updated.completedLessons|);
  }

  method HandleCompleteLesson(store: MongoStore, user: Id, lessonId: string, pointsEarned: Option<int>, now: Timestamp, failing: set<MongoStep>)
    returns (reply: EduReply)
    requires store.Valid()
    modifies store
    ensures store.Valid()
    ensures var e := CompleteLesson(old(store.Snapshot()), user, lessonId, pointsEarned, now, failing);
      reply == e.reply && store.Snapshot() == e.after
  {
    if lessonId == "" {
      return EduRefused(400, LessonRequired);
    }
    if Find in failing {
      return EduRefused(500, ServerError);
    }
    var k := EduOfUser(store.eduScores, user);
    if k >= 0 {
      reply := FinishLesson(store, store.eduScores[k], k, lessonId, PointsOf(pointsEarned), now, failing);
    } else {
      var oid := store.FreshOid();
      reply := FinishLesson(store, NewEdu(oid, user, now), |store.eduScores|, lessonId, PointsOf(pointsEarned), now, failing);
    }
  }

  // ---- what the routes guarantee ----

  /** GET: a found record is returned with nothing written. A missing one
      is created with score 0 and no lessons and added under a new id, so
      the user has a record afterwards; a second GET then returns that same
      record and writes nothing. */
  lemma GetScoreOutcome(d: Docs, user: Id, now: Timestamp, failing: set<MongoStep>)
    requires Stored(d)
    ensures var e := GetScore(d, user, now, failing);
      && Stored(e.after)
      && (e.reply.EduRefused? <==> Find in failing || (EduOfUser(d.eduScores, user) < 0 && EduSave in failing))
      && (e.reply.EduRefused? ==> e.after.eduScores == d.eduScores)
      && (Find !in failing && EduOfUser(d.eduScores, user) >= 0 ==>
            e == Handled(ScoreOf(d.eduScores[EduOfUser(d.eduScores, user)]), d))
      && (e.reply.ScoreOf? && EduOfUser(d.eduScores, user) < 0 ==>
            && e.reply.record.userId == user && e.reply.record.score == 0 && e.reply.record.completedLessons == []
            && e.reply.record.lastUpdated == now
            && e.after.eduScores == d.eduScores + [e.reply.record]
            && EduOfUser(e.after.eduScores, user) == |d.eduScores|)
      && (e.reply.ScoreOf? ==> GetScore(e.after, user, now, failing) == Handled(e.reply, e.after))
  {
    var k := EduOfUser(d.eduScores, user);
    if Find !in failing && k < 0 && EduSave !in failing {
      var blank := NewEdu(d.nextOid, user, now);
      SaveEduNew(d.eduScores, blank, now);
      var e := GetScore(d, user, now, failing);
      assert e.after.eduScores == d.eduScores + [PreSave(blank, now)];
      assert e.after.eduScores[|d.eduScores|] == PreSave(blank, now);
    }
  }

  /** The lessons of every record are free of repeats. */
  ghost predicate DistinctLessons(d: Docs) {
    forall k :: 0 <= k < |d.eduScores| ==>
      forall i, j :: 0 <= i < j < |d.eduScores[k].completedLessons| ==>
        d.eduScores[k].completedLessons[i] != d.eduScores[k].completedLessons[j]
  }

  /** Where a record being finished sits: at index i, or, with an id no
      record has, just past the end. */
  ghost predicate Slot(d: Docs, record: MongoEdu, i: nat) {
    && record.id < d.nextOid
    && (|| (i < |d.eduScores| && d.eduScores[i] == record)
        || (i == |d.eduScores| && forall j :: 0 <= j < |d.eduScores| ==> d.eduScores[j].id != record.id))
  }

  /** Finishing writes the updated, stamped record to its slot and nothing
      else, and only when the lesson is new, the store does not fail and
      the new score is not negative. */
  lemma FinishOutcome(d: Docs, record: MongoEdu, i: nat, lessonId: string, p: int, now: Timestamp, failing: set<MongoStep>)
    requires Stored(d) && Slot(d, record, i)
    ensures var e := Finish(d, record, lessonId, p, now, failing);
      var saved := PreSave(record.(score := record.score + p, completedLessons := record.completedLessons + [lessonId]), now);
      && Stored(e.after)
      && (lessonId in record.completedLessons ==> e == Handled(EduRefused(400, AlreadyCompleted), d))
      && (e.reply.EduRefused? ==> e.after == d)
      && (e.reply.Completed? <==> lessonId !in record.completedLessons && EduSave !in failing && record.score + p >= 0)
      && (e.reply.Completed? ==>
            && e.after.eduScores == (if i < |d.eduScores| then d.eduScores[i := saved] else d.eduScores + [saved])
            && e.reply == Completed(LessonCompleted, p, saved.score, |saved.completedLessons|))
  {
    var updated := record.(score := record.score + p, completedLessons := record.completedLessons + [lessonId]);
    if lessonId !in record.completedLessons && EduBounds(updated) {
      if i < |d.eduScores| {
        SaveEduAt(d.eduScores, i, updated, now);
      } else {
        SaveEduNew(d.eduScores, updated, now);
      }
    }
  }

  /** complete-lesson: an empty lesson id is a 400 with nothing written; a
      lesson the record already lists is a 400 that leaves every record as
      it was; otherwise, unless the store fails or the score would go below
      zero, the user's record gains exactly the points (10 when none are
      sent) and the lesson at the end of its list, and the reply reports
      the stored score and number of lessons. Other records are untouched. */
  lemma CompleteLessonOutcome(d: Docs, user: Id, lessonId: string, pointsEarned: Option<int>, now: Timestamp, failing: set<MongoStep>)
    requires Stored(d)
    ensures var e := CompleteLesson(d, user, lessonId, pointsEarned, now, failing);
      var k := EduOfUser(d.eduScores, user);
      var before := if k >= 0 then d.eduScores[k] else NewEdu(d.nextOid, user, now);
      && Stored(e.after)
      && (lessonId == "" ==> e == Handled(EduRefused(400, LessonRequired), d))
      && (e.reply.EduRefused? ==> e.after.eduScores == d.eduScores)
      && (lessonId != "" && Find !in failing && lessonId in before.completedLessons ==>
            e.reply == EduRefused(400, AlreadyCompleted))
      && (e.reply.Completed? <==>
            && lessonId != "" && Find !in failing && EduSave !in failing
            && lessonId !in before.completedLessons && before.score + PointsOf(pointsEarned) >= 0)
      && (e.reply.Completed? ==>
            var i := if k >= 0 then k else |d.eduScores|;
            && |e.after.eduScores| == (if k >= 0 then |d.eduScores| else |d.eduScores| + 1)
            && e.after.eduScores[i].id == before.id && e.after.eduScores[i].userId == user
            && e.after.eduScores[i].score == before.score + PointsOf(pointsEarned)
            && e.after.eduScores[i].completedLessons == before.completedLessons + [lessonId]
            && e.after.eduScores[i].lastUpdated == now
            && e.reply.scoreEarned == PointsOf(pointsEarned)
            && e.reply.totalScore == e.after.eduScores[i].score
            && e.reply.completedLessons == |e.after.eduScores[i].completedLessons|
            && forall j :: 0 <= j < |d.eduScores| && j != i ==> e.after.eduScores[j] == d.eduScores[j])
  {
    var k := EduOfUser(d.eduScores, user);
    if lessonId != "" && Find !in failing {
      if k >= 0 {
        FinishOutcome(d, d.eduScores[k], k, lessonId, PointsOf(pointsEarned), now, failing);
      } else {
        FinishOutcome(d.(nextOid := d.nextOid + 1), NewEdu(d.nextOid, user, now), |d.eduScores|, lessonId, PointsOf(pointsEarned), now, failing);
      }
    }
  }

  /** Completing a lesson never puts a lesson twice into a record. */
  lemma CompleteLessonKeepsDistinct(d: Docs, user: Id, lessonId: string, pointsEarned: Option<int>, now: Timestamp, failing: set<MongoStep>)
    requires Stored(d) && DistinctLessons(d)
    ensures DistinctLessons(CompleteLesson(d, user, lessonId, pointsEarned, now, failing).after)
  {
    var e := CompleteLesson(d, user, lessonId, pointsEarned, now, failing);
    CompleteLessonOutcome(d, user, lessonId, pointsEarned, now, failing);
    if e.reply.Completed? {
      var k := EduOfUser(d.eduScores, user);
      var i := if k >= 0 then k else |d.eduScores|;
      var before := if k >= 0 then d.eduScores[k] else NewEdu(d.nextOid, user, now);
      var ls := e.after.eduScores[i].completedLessons;
      forall a, b | 0 <= a < b < |ls| ensures ls[a] != ls[b] {
        if b == |ls| - 1 {
          assert ls[a] in before.completedLessons;
        } else {
          assert ls[a] == before.completedLessons[a] && ls[b] == before.completedLessons[b];
        }
      }
    }
  }

  /** A lesson completed once cannot be completed again: the repeat is a
      400 and changes no record. */
  lemma CompleteLessonTwiceRefused(d: Docs, user: Id, lessonId: string, p1: Option<int>, p2: Option<int>, now: Timestamp, later: Timestamp, failing: set<MongoStep>)
    requires Stored(d) && Find !in failing
    requires CompleteLesson(d, user, lessonId, p1, now, failing).reply.Completed?
    ensures var e1 := CompleteLesson(d, user, lessonId, p1, now, failing);
      var e2 := CompleteLesson(e1.after, user, lessonId, p2, later, failing);
      e2.reply == EduRefused(400, AlreadyCompleted) && e2.after.eduScores == e1.after.eduScores
  {
    var e1 := CompleteLesson(d, user, lessonId, p1, now, failing);
    CompleteLessonOutcome(d, user, lessonId, p1, now, failing);
    var k := EduOfUser(d.eduScores, user);
    var i := if k >= 0 then k else |d.eduScores|;
    var k2 := EduOfUser(e1.after.eduScores, user);
    assert k2 == i by {
      if k >= 0 {
        assert forall j :: 0 <= j < k ==> e1.after.eduScores[j] == d.eduScores[j];
      } else {
        assert forall j :: 0 <= j < |d.eduScores| ==> e1.after.eduScores[j] == d.eduScores[j];
      }
    }
    var ls := e1.after.eduScores[i].completedLessons;
    assert ls[|ls| - 1] == lessonId;
    CompleteLessonOutcome(e1.after, user, lessonId, p2, later, failing);
  }
}
