/** The learning-score hook of the client (src/hooks/useEduScore.ts): it
    loads the user's edu_scores row, creating a default one when there is
    none, and completes or retakes a lesson by computing the new lesson
    list and score and writing them with one update.

    The hook holds the record it last loaded as React state. completeLesson
    and retakeLesson re-run the loader first, but then decide and compute
    from the record they captured when they were called (`current` here):
    the loader's result only reaches later calls. */
module UseEduScore {
  import opened Common
  import opened Supabase
  import Seqs

  // ---- the pure part: new lesson lists and scores ----

  /** The default parameter of both operations. */
  const DefaultPoints := 10

  function PointsOr(points: Option<int>): (p: int)
    ensures points.Some? ==> p == points.value
  {
    if points.None? then DefaultPoints else points.value
  }

  /** `[...completed_lessons, lessonId]` and `score + pointsEarned`. */
  function WithLesson(r: EduScoreRow, lessonId: string, p: int, now: Timestamp): EduScoreRow {
    r.(score := r.score + p, completedLessons := r.completedLessons + [lessonId], lastUpdated := Some(now))
  }

  predicate OtherLesson(lessonId: string, id: string) {
    id != lessonId
  }

  /** `filter(id => id !== lessonId)` and `Math.max(0, score - points)`. */
  function WithoutLesson(r: EduScoreRow, lessonId: string, p: int, now: Timestamp): EduScoreRow {
    r.(score := Max(0, r.score - p),
       completedLessons := Seqs.Filter(r.completedLessons, (id: string) => OtherLesson(lessonId, id)),
       lastUpdated := Some(now))
  }

  /** A retake removes every occurrence of the lesson and keeps the other
      lessons in their order; the score never drops below zero and falls
      by the points when it can. */
  lemma WithoutLessonShape(r: EduScoreRow, lessonId: string, p: int, now: Timestamp)
    ensures var w := WithoutLesson(r, lessonId, p, now);
      && lessonId !in w.completedLessons
      && (forall k :: 0 <= k < |r.completedLessons| && r.completedLessons[k] != lessonId ==> r.completedLessons[k] in w.completedLessons)
      && (forall x :: x in w.completedLessons ==> x in r.completedLessons)
      && w.score >= 0
      && (r.score >= p ==> w.score == r.score - p)
      && w.id == r.id && w.userId == r.userId
  {
    var q := (id: string) => OtherLesson(lessonId, id);
    Seqs.FilterMembers(r.completedLessons, q);
  }

  /** Retaking a lesson just completed with the same points, when the
      lesson was not already in the list and the score was not negative,
      gives back the list and the score from before. */
  lemma {:induction false} RetakeUndoesComplete(r: EduScoreRow, lessonId: string, p: int, t1: Timestamp, t2: Timestamp)
    requires lessonId !in r.completedLessons && r.score >= 0
    ensures WithoutLesson(WithLesson(r, lessonId, p, t1), lessonId, p, t2) == r.(lastUpdated := Some(t2))
  {
    var q := (id: string) => OtherLesson(lessonId, id);
    Seqs.FilterAppend(r.completedLessons, [lessonId], q);
    Seqs.FilterAll(r.completedLessons, q);
    assert Seqs.Filter([lessonId], q) == [];
  }

  // ---- the hook's state and the loader ----

  /** The hook's `score` and `error` state. */
  datatype HookState = HookState(score: Option<EduScoreRow>, error: Option<string>)

  /** What the loader leaves: the hook state and the store. */
  datatype Fetched = Fetched(state: HookState, after: Store)

  /** The row fetchEduScore inserts when the user has none. */
  function DefaultRow(id: Id, user: Id): (r: EduScoreRow)
    ensures r.userId == user && r.score == 0 && r.completedLessons == []
  {
    EduScoreRow(id, user, 0, [], None)
  }

  /** fetchEduScore: without a user, or when a query fails, the error is set
      and the loaded record kept; `.maybeSingle()` refuses several rows. */
  function Fetch(s: Store, user: Option<Id>, st: HookState, failing: set<Step>): Fetched {
    if user.None? then Fetched(st.(error := Some(NotAuthenticated)), s)
    else if EduFetch in failing then Fetched(st.(error := Some(StoreFailure)), s)
    else
      match MaybeSingle(EduOfUser(s.eduScores, user.value))
      case ManyRows => Fetched(st.(error := Some(StoreFailure)), s)
      case OneRow(row) => Fetched(HookState(Some(row), None), s)
      case NoRow =>
        if EduInsert in failing then Fetched(st.(error := Some(StoreFailure)), s)
        else
          var row := DefaultRow(s.nextId, user.value);
          Fetched(HookState(Some(row), None), s.(eduScores := s.eduScores + [row], nextId := s.nextId + 1))
  }

  lemma AppendedEduRow(rows: seq<EduScoreRow>, row: EduScoreRow)
    requires EduOfUser(rows, row.userId) == []
    ensures EduOfUser(rows + [row], row.userId) == [row]
  {
    var p := (e: EduScoreRow) => e.userId == row.userId;
    Seqs.FilterAppend(rows, [row], p);
  }

  /** Without a user the loader only reports it. With a working store, a
      user with no row gets the default row (score 0, no lessons) inserted
      with a fresh id and loaded; a user with one row has it loaded and
      nothing written. A second load then finds the row the first one
      loaded and writes nothing. */
  lemma FetchOutcome(s: Store, user: Option<Id>, st: HookState, failing: set<Step>)
    ensures var f := Fetch(s, user, st, failing);
      && (user.None? ==> f == Fetched(st.(error := Some(NotAuthenticated)), s))
      && (f.state.error.Some? ==> f.after == s && f.state.score == st.score)
      && (f.state.error.None? ==> f.state.score.Some? && f.state.score.value.userId == user.value
                                  && Single(EduOfUser(f.after.eduScores, user.value)) == f.state.score)
      && (user.Some? && EduFetch !in failing && EduInsert !in failing && |EduOfUser(s.eduScores, user.value)| <= 1 ==>
            f.state.error.None?)
      && (user.Some? && EduFetch !in failing && EduInsert !in failing && EduOfUser(s.eduScores, user.value) == [] ==>
            && f.state.score == Some(DefaultRow(s.nextId, user.value))
            && f.after == s.(eduScores := s.eduScores + [DefaultRow(s.nextId, user.value)], nextId := s.nextId + 1))
      && (f.state.error.None? && EduFetch !in failing ==> Fetch(f.after, user, f.state, failing) == Fetched(f.state, f.after))
  {
    var f := Fetch(s, user, st, failing);
    if user.Some? && EduFetch !in failing {
      var uid := user.value;
      var p := (e: EduScoreRow) => e.userId == uid;
      Seqs.FilterMembers(s.eduScores, p);
      if EduOfUser(s.eduScores, uid) == [] && EduInsert !in failing {
        AppendedEduRow(s.eduScores, DefaultRow(s.nextId, uid));
      }
    }
  }

  // ---- completeLesson and retakeLesson ----

  /** `{ success, scoreEarned }` or `{ success, scoreDeducted }`. */
  datatype LessonResult = LessonResult(success: bool, points: int)

  const Refused := LessonResult(false, 0)

  /** What an operation returns (None for `null`), the hook state and the
      store it leaves. */
  datatype HookRun = HookRun(result: Option<LessonResult>, state: HookState, after: Store)

  /** The update of the user's row with the new record's fields, then
      `.select().single()`: the call succeeds, the write stays and the state
      takes the row only when the user has exactly one row. With none or
      several, `.single()` refuses and the update is rolled back, so the
      table is left as it was. */
  function Update(f: Fetched, user: Id, r: EduScoreRow, p: int, failing: set<Step>): HookRun
    requires r.lastUpdated.Some?
  {
    if EduUpdate in failing then HookRun(Some(Refused), f.state, f.after)
    else
      var rows := SetEdu(f.after.eduScores, user, r.score, r.completedLessons, r.lastUpdated.value);
      var after := f.after.(eduScores := rows);
      match Single(EduOfUser(rows, user))
      case None => HookRun(Some(Refused), f.state, f.after)
      case Some(row) => HookRun(Some(LessonResult(true, p)), f.state.(score := Some(row)), after)
  }

  function CompleteLesson(s: Store, user: Option<Id>, current: Option<EduScoreRow>, error: Option<string>,
                          lessonId: string, points: Option<int>, now: Timestamp, failing: set<Step>): HookRun {
    var st := HookState(current, error);
    if user.None? then HookRun(None, st, s)
    else
      var f := Fetch(s, user, st, failing);
      if current.None? || lessonId in current.value.completedLessons then HookRun(Some(Refused), f.state, f.after)
      else Update(f, user.value, WithLesson(current.value, lessonId, PointsOr(points), now), PointsOr(points), failing)
  }

  function RetakeLesson(s: Store, user: Option<Id>, current: Option<EduScoreRow>, error: Option<string>,
                        lessonId: string, points: Option<int>, now: Timestamp, failing: set<Step>): HookRun {
    var st := HookState(current, error);
    if user.None? then HookRun(None, st, s)
    else
      var f := Fetch(s, user, st, failing);
      if current.None? || lessonId !in current.value.completedLessons then HookRun(Some(Refused), f.state, f.after)
      else Update(f, user.value, WithoutLesson(current.value, lessonId, PointsOr(points), now), PointsOr(points), failing)
  }

  /** With exactly one row for the user, the update rewrites that row's
      score, lessons and date, leaves every other row alone, and
      `.single()` returns the rewritten row. */
  lemma SetEduSingle(rows: seq<EduScoreRow>, user: Id, r: EduScoreRow, now: Timestamp)
    requires |EduOfUser(rows, user)| == 1
    ensures var i := Seqs.FirstIndex(rows, (e: EduScoreRow) => e.userId == user);
      var written := SetEdu(rows, user, r.score, r.completedLessons, now);
      && 0 <= i < |rows|
      && Single(EduOfUser(written, user)) == Some(rows[i].(score := r.score, completedLessons := r.completedLessons, lastUpdated := Some(now)))
      && (forall k :: 0 <= k < |rows| && k != i ==> written[k] == rows[k])
  {
    var p := (e: EduScoreRow) => e.userId == user;
    var i := Seqs.FilterOne(rows, p);
    var written := SetEdu(rows, user, r.score, r.completedLessons, now);
    Seqs.FilterSingle(written, i, p);
  }

  /** The update rewrites rows of the user but never moves a row into or
      out of the user's selection. */
  lemma {:induction false} SetEduKeepsUserRows(rows: seq<EduScoreRow>, user: Id, score: int, lessons: seq<string>, now: Timestamp)
    ensures |EduOfUser(SetEdu(rows, user, score, lessons, now), user)| == |EduOfUser(rows, user)|
  {
    if |rows| > 0 {
      var w := SetEdu(rows, user, score, lessons, now);
      SetEduKeepsUserRows(rows[1..], user, score, lessons, now);
      assert w[1..] == SetEdu(rows[1..], user, score, lessons, now);
    }
  }

  /** When the user has no row or several rows, `.single()` refuses the
      update's result: the operation reports `success: false` with no
      points, the hook state keeps what the loader left, and the rolled-back
      update leaves the table as it was. */
  lemma UpdateNeedsOneRow(f: Fetched, user: Id, r: EduScoreRow, p: int, failing: set<Step>)
    requires r.lastUpdated.Some? && |EduOfUser(f.after.eduScores, user)| != 1
    ensures Update(f, user, r, p, failing) == HookRun(Some(LessonResult(false, 0)), f.state, f.after)
  {
    SetEduKeepsUserRows(f.after.eduScores, user, r.score, r.completedLessons, r.lastUpdated.value);
  }

  /** completeLesson: without a user it returns null and nothing changes.
      Otherwise the loader runs first. A lesson the captured record already
      holds, or no captured record, gives `{ success: false, scoreEarned: 0 }`
      with no update. Otherwise, when the user has exactly one row after
      loading and the update goes through, it returns success with the
      points (10 when not given, and 0 when 0 is given), and that row holds
      the captured score plus the points and the captured lessons with the
      new one at the end. With no row or several rows for the user it fails
      and the table is left as the loader left it; every failure leaves it
      so. */
  lemma CompleteLessonOutcome(s: Store, user: Option<Id>, current: Option<EduScoreRow>, error: Option<string>,
                              lessonId: string, points: Option<int>, now: Timestamp, failing: set<Step>)
    ensures var h := CompleteLesson(s, user, current, error, lessonId, points, now, failing);
      var f := Fetch(s, user, HookState(current, error), failing);
      && (user.None? ==> h == HookRun(None, HookState(current, error), s))
      && (user.Some? && (current.None? || lessonId in current.value.completedLessons) ==>
            h == HookRun(Some(LessonResult(false, 0)), f.state, f.after))
      && (h.result.Some? && !h.result.value.success ==> h.result.value.points == 0)
      && (h.result.Some? && !h.result.value.success ==> h.after == f.after)
      && (user.Some? && |EduOfUser(f.after.eduScores, user.value)| != 1 ==>
            h == HookRun(Some(LessonResult(false, 0)), f.state, f.after))
      && (h.result.Some? && h.result.value.success ==>
            && user.Some? && current.Some? && lessonId !in current.value.completedLessons
            && h.result.value.points == (if points.None? then 10 else points.value)
            && h.state.score.Some?
            && h.state.score.value.userId == user.value
            && h.state.score.value.score == current.value.score + h.result.value.points
            && h.state.score.value.completedLessons == current.value.completedLessons + [lessonId]
            && Single(EduOfUser(h.after.eduScores, user.value)) == h.state.score)
      && ((user.Some? && current.Some? && lessonId !in current.value.completedLessons && EduUpdate !in failing
           && |EduOfUser(f.after.eduScores, user.value)| == 1) ==> h.result == Some(LessonResult(true, PointsOr(points))))
  {
    var h := CompleteLesson(s, user, current, error, lessonId, points, now, failing);
    if user.Some? && current.Some? && lessonId !in current.value.completedLessons && EduUpdate !in failing {
      var f := Fetch(s, user, HookState(current, error), failing);
      var uid := user.value;
      var rows := SetEdu(f.after.eduScores, uid, current.value.score + PointsOr(points), current.value.completedLessons + [lessonId], now);
      if |EduOfUser(f.after.eduScores, uid)| == 1 {
        SetEduSingle(f.after.eduScores, uid, WithLesson(current.value, lessonId, PointsOr(points), now), now);
      } else {
        UpdateNeedsOneRow(f, uid, WithLesson(current.value, lessonId, PointsOr(points), now), PointsOr(points), failing);
      }
      if h.result.value.success {
        Seqs.FilterMembers(rows, (e: EduScoreRow) => e.userId == uid);
      }
    }
  }

  /** retakeLesson: without a user it returns null and nothing changes. A
      lesson the captured record does not hold gives
      `{ success: false, scoreDeducted: 0 }` with no update. A successful
      retake leaves the user's row without any occurrence of the lesson and
      with the captured score less the points, but never below zero. With
      no row or several rows for the user it fails and the table is left as
      the loader left it; every failure leaves it so. */
  lemma RetakeLessonOutcome(s: Store, user: Option<Id>, current: Option<EduScoreRow>, error: Option<string>,
                            lessonId: string, points: Option<int>, now: Timestamp, failing: set<Step>)
    ensures var h := RetakeLesson(s, user, current, error, lessonId, points, now, failing);
      var f := Fetch(s, user, HookState(current, error), failing);
      && (user.None? ==> h == HookRun(None, HookState(current, error), s))
      && (user.Some? && (current.None? || lessonId !in current.value.completedLessons) ==>
            h == HookRun(Some(LessonResult(false, 0)), f.state, f.after))
      && (h.result.Some? && !h.result.value.success ==> h.result.value.points == 0)
      && (h.result.Some? && !h.result.value.success ==> h.after == f.after)
      && (user.Some? && |EduOfUser(f.after.eduScores, user.value)| != 1 ==>
            h == HookRun(Some(LessonResult(false, 0)), f.state, f.after))
      && (h.result.Some? && h.result.value.success ==>
            && user.Some? && current.Some? && lessonId in current.value.completedLessons
            && h.result.value.points == (if points.None? then 10 else points.value)
            && h.state.score.Some?
            && h.state.score.value.userId == user.value
            && lessonId !in h.state.score.value.completedLessons
            && h.state.score.value.score >= 0
            && h.state.score.value.score == Max(0, current.value.score - h.result.value.points)
            && Single(EduOfUser(h.after.eduScores, user.value)) == h.state.score)
      && ((user.Some? && current.Some? && lessonId in current.value.completedLessons && EduUpdate !in failing
           && |EduOfUser(f.after.eduScores, user.value)| == 1) ==> h.result == Some(LessonResult(true, PointsOr(points))))
  {
    var h := RetakeLesson(s, user, current, error, lessonId, points, now, failing);
    if user.Some? && current.Some? && lessonId in current.value.completedLessons && EduUpdate !in failing {
      var f := Fetch(s, user, HookState(current, error), failing);
      var uid := user.value;
      var w := WithoutLesson(current.value, lessonId, PointsOr(points), now);
      WithoutLessonShape(current.value, lessonId, PointsOr(points), now);
      var rows := SetEdu(f.after.eduScores, uid, w.score, w.completedLessons, now);
      if |EduOfUser(f.after.eduScores, uid)| == 1 {
        SetEduSingle(f.after.eduScores, uid, w, now);
      } else {
        UpdateNeedsOneRow(f, uid, w, PointsOr(points), failing);
      }
      if h.result.value.success {
        Seqs.FilterMembers(rows, (e: EduScoreRow) => e.userId == uid);
      }
    }
  }

  // ---- the hook, updating the table in place ----

  method FetchEduScore(db: Db, user: Option<Id>, st: HookState, failing: set<Step>) returns (state: HookState)
    modifies db
    ensures Fetch(old(db.Snapshot()), user, st, failing) == Fetched(state, db.Snapshot())
  {
    if user.None? {
      return st.(error := Some(NotAuthenticated));
    }
    if EduFetch in failing {
      return st.(error := Some(StoreFailure));
    }
    var data := MaybeSingle(EduOfUser(db.eduScores, user.value));
    if data.ManyRows? {
      return st.(error := Some(StoreFailure));
    }
    if data.NoRow? {
      if EduInsert in failing {
        return st.(error := Some(StoreFailure));
      }
      var id := db.FreshId();
      var newScore := DefaultRow(id, user.value);
      db.eduScores := db.eduScores + [newScore];
      state := HookState(Some(newScore), None);
    } else {
      state := HookState(Some(data.row), None);
    }
  }

  method UpdateRow(db: Db, f: Fetched, user: Id, r: EduScoreRow, p: int, failing: set<Step>) returns (run: HookRun)
    requires r.lastUpdated.Some? && db.Snapshot() == f.after
    modifies db
    ensures run == Update(f, user, r, p, failing) && db.Snapshot() == run.after
  {
    if EduUpdate in failing {
      return HookRun(Some(Refused), f.state, f.after);
    }
    var before := db.eduScores;
    db.eduScores := SetEdu(db.eduScores, user, r.score, r.completedLessons, r.lastUpdated.value);
    var data := Single(EduOfUser(db.eduScores, user));
    if data.None? {
      db.eduScores := before;
      return HookRun(Some(Refused), f.state, db.Snapshot());
    }
    run := HookRun(Some(LessonResult(true, p)), f.state.(score := data), db.Snapshot());
  }

  method HandleCompleteLesson(db: Db, user: Option<Id>, current: Option<EduScoreRow>, error: Option<string>,
                              lessonId: string, points: Option<int>, now: Timestamp, failing: set<Step>)
    returns (result: Option<LessonResult>, state: HookState)
    modifies db
    ensures var h := CompleteLesson(old(db.Snapshot()), user, current, error, lessonId, points, now, failing);
      result == h.result && state == h.state && db.Snapshot() == h.after
  {
    if user.None? {
      return None, HookState(current, error);
    }
    var fetched := FetchEduScore(db, user, HookState(current, error), failing);
    if current.None? || lessonId in current.value.completedLessons {
      return Some(Refused), fetched;
    }
    var pointsEarned := if points.None? then DefaultPoints else points.value;
    var run := UpdateRow(db, Fetched(fetched, db.Snapshot()), user.value,
                         WithLesson(current.value, lessonId, pointsEarned, now), pointsEarned, failing);
    result, state := run.result, run.state;
  }

  method HandleRetakeLesson(db: Db, user: Option<Id>, current: Option<EduScoreRow>, error: Option<string>,
                            lessonId: string, points: Option<int>, now: Timestamp, failing: set<Step>)
    returns (result: Option<LessonResult>, state: HookState)
    modifies db
    ensures var h := RetakeLesson(old(db.Snapshot()), user, current, error, lessonId, points, now, failing);
      result == h.result && state == h.state && db.Snapshot() == h.after
  {
    if user.None? {
      return None, HookState(current, error);
    }
    var fetched := FetchEduScore(db, user, HookState(current, error), failing);
    if current.None? || lessonId !in current.value.completedLessons {
      return Some(Refused), fetched;
    }
    var pointsToDeduct := if points.None? then DefaultPoints else points.value;
    var run := UpdateRow(db, Fetched(fetched, db.Snapshot()), user.value,
                         WithoutLesson(current.value, lessonId, pointsToDeduct, now), pointsToDeduct, failing);
    result, state := run.result, run.state;
  }
}
