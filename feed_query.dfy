/** The read-only feed query of server.ts: the inner join of `uploads` with
    `tasks` on `task_id`, ordered by `created_at`, newest first. The join is
    computed in table order; the ordering is specified as a relation, since
    the query has no secondary sort key and rows with the same timestamp may
    come back in any order. */
module FeedQuery {
  import opened HuntTypes

  /** No two tasks share an id (the primary key of `tasks`). */
  predicate DistinctTaskIds(ts: seq<Task>)
  {
    forall i, j | 0 <= i < j < |ts| :: ts[i].id != ts[j].id
  }

  /** No two uploads share an id (the primary key of `uploads`). */
  predicate DistinctUploadIds(us: seq<Upload>)
  {
    forall i, j | 0 <= i < j < |us| :: us[i].id != us[j].id
  }

  /** Upload `u` names a task that exists. A NULL `task_id` names none. */
  predicate HasTask(u: Upload, ts: seq<Task>)
  {
    exists j | 0 <= j < |ts| :: u.taskId == Some(ts[j].id)
  }

  /** Row `r` is the pairing of some stored upload with a task it names. */
  predicate Joins(us: seq<Upload>, ts: seq<Task>, r: FeedRow)
  {
    exists i, j | 0 <= i < |us| && 0 <= j < |ts| ::
      us[i].taskId == Some(ts[j].id) && r == JoinRow(us[i], ts[j])
  }

  /** The join rows contributed by one upload: one per task whose id equals
      the upload's `task_id`. */
  function MatchTasks(u: Upload, ts: seq<Task>): seq<FeedRow>
  {
    if ts == [] then []
    else (if u.taskId == Some(ts[0].id) then [JoinRow(u, ts[0])] else []) + MatchTasks(u, ts[1..])
  }

  /** `uploads u JOIN tasks t ON u.task_id = t.id`, before ordering. */
  function Join(us: seq<Upload>, ts: seq<Task>): seq<FeedRow>
  {
    if us == [] then [] else MatchTasks(us[0], ts) + Join(us[1..], ts)
  }

  /** Each row is at least as new as the one after it. */
  predicate NewestFirst(rs: seq<FeedRow>)
  {
    forall i | 0 <= i < |rs| - 1 :: rs[i].createdAt >= rs[i + 1].createdAt
  }

  /** What `ORDER BY u.created_at DESC` may return: the join rows, each as
      often as the join yields it, in non-increasing `created_at` order. The
      order among rows with the same timestamp is left open. */
  predicate IsFeedAnswer(ts: seq<Task>, us: seq<Upload>, f: seq<FeedRow>)
  {
    multiset(f) == multiset(Join(us, ts)) && NewestFirst(f)
  }

  /** Places `r` in front of the first row that is not newer than it. */
  function InsertByTime(r: FeedRow, rs: seq<FeedRow>): (out: seq<FeedRow>)
    requires NewestFirst(rs)
    ensures NewestFirst(out)
    ensures multiset(out) == multiset(rs) + multiset{r}
    ensures out[0] == r || (rs != [] && out[0] == rs[0])
  {
    if rs == [] || rs[0].createdAt <= r.createdAt then [r] + rs
    else
      assert rs == [rs[0]] + rs[1..];
      [rs[0]] + InsertByTime(r, rs[1..])
  }

  /** Orders rows newest first; of two rows with the same timestamp, the one
      later in `rs` comes first. */
  function SortNewestFirst(rs: seq<FeedRow>): (out: seq<FeedRow>)
    ensures NewestFirst(out)
    ensures multiset(out) == multiset(rs)
  {
    if rs == [] then []
    else
      assert rs == rs[..|rs| - 1] + [rs[|rs| - 1]];
      InsertByTime(rs[|rs| - 1], SortNewestFirst(rs[..|rs| - 1]))
  }

  /** One answer of the feed query: the join sorted newest first. */
  function Feed(ts: seq<Task>, us: seq<Upload>): (f: seq<FeedRow>)
    ensures IsFeedAnswer(ts, us, f)
  {
    SortNewestFirst(Join(us, ts))
  }

  lemma {:induction false} MatchTasksMembership(u: Upload, ts: seq<Task>, r: FeedRow)
    ensures r in MatchTasks(u, ts) <==>
            exists j | 0 <= j < |ts| :: u.taskId == Some(ts[j].id) && r == JoinRow(u, ts[j])
  {
    if ts != [] {
      MatchTasksMembership(u, ts[1..], r);
      if r in MatchTasks(u, ts[1..]) {
        var j :| 0 <= j < |ts[1..]| && u.taskId == Some(ts[1..][j].id) && r == JoinRow(u, ts[1..][j]);
        assert ts[j + 1] == ts[1..][j];
      }
      if exists j | 0 <= j < |ts| :: u.taskId == Some(ts[j].id) && r == JoinRow(u, ts[j]) {
        var j :| 0 <= j < |ts| && u.taskId == Some(ts[j].id) && r == JoinRow(u, ts[j]);
        if j > 0 {
          assert ts[1..][j - 1] == ts[j];
        }
      }
    }
  }

  /** A row is in the join exactly when it pairs a stored upload with a task
      whose id equals the upload's `task_id`, carrying that task's title. */
  lemma {:induction false} JoinMembership(us: seq<Upload>, ts: seq<Task>, r: FeedRow)
    ensures r in Join(us, ts) <==> Joins(us, ts, r)
  {
    if us != [] {
      JoinMembership(us[1..], ts, r);
      MatchTasksMembership(us[0], ts, r);
      if r in Join(us[1..], ts) {
        var i, j :| 0 <= i < |us[1..]| && 0 <= j < |ts| &&
          us[1..][i].taskId == Some(ts[j].id) && r == JoinRow(us[1..][i], ts[j]);
        assert us[i + 1] == us[1..][i];
      }
      if Joins(us, ts, r) {
        var i, j :| 0 <= i < |us| && 0 <= j < |ts| &&
          us[i].taskId == Some(ts[j].id) && r == JoinRow(us[i], ts[j]);
        if i > 0 {
          assert us[1..][i - 1] == us[i];
        }
      }
    }
  }

  /** Every answer of the feed query holds exactly the joined rows. */
  lemma FeedAnswerMembership(ts: seq<Task>, us: seq<Upload>, f: seq<FeedRow>, r: FeedRow)
    requires IsFeedAnswer(ts, us, f)
    ensures r in f <==> Joins(us, ts, r)
  {
    assert r in f <==> r in multiset(f);
    assert r in Join(us, ts) <==> r in multiset(Join(us, ts));
    JoinMembership(us, ts, r);
  }

  /** An upload whose `task_id` matches no task is left out of every feed
      answer (given distinct upload ids, no feed row carries its id). */
  lemma FeedExcludesOrphans(ts: seq<Task>, us: seq<Upload>, f: seq<FeedRow>, k: int)
    requires IsFeedAnswer(ts, us, f)
    requires DistinctUploadIds(us)
    requires 0 <= k < |us| && !HasTask(us[k], ts)
    ensures forall r | r in f :: r.id != us[k].id
  {
    forall r | r in f
      ensures r.id != us[k].id
    {
      FeedAnswerMembership(ts, us, f, r);
      var i, j :| 0 <= i < |us| && 0 <= j < |ts| &&
        us[i].taskId == Some(ts[j].id) && r == JoinRow(us[i], ts[j]);
      assert i != k;
      if i < k {
        assert us[i].id != us[k].id;
      } else {
        assert us[k].id != us[i].id;
      }
    }
  }

  /** An upload whose task exists shows up in every feed answer, paired
      with that task's title. */
  lemma FeedIncludesMatched(ts: seq<Task>, us: seq<Upload>, f: seq<FeedRow>, i: int, j: int)
    requires IsFeedAnswer(ts, us, f)
    requires 0 <= i < |us| && 0 <= j < |ts| && us[i].taskId == Some(ts[j].id)
    ensures JoinRow(us[i], ts[j]) in f
  {
    FeedAnswerMembership(ts, us, f, JoinRow(us[i], ts[j]));
  }

  /** Number of uploads that name an existing task. */
  function CountMatched(us: seq<Upload>, ts: seq<Task>): nat
  {
    if us == [] then 0 else (if HasTask(us[0], ts) then 1 else 0) + CountMatched(us[1..], ts)
  }

  lemma {:induction false} MatchTasksLength(u: Upload, ts: seq<Task>)
    requires DistinctTaskIds(ts)
    ensures |MatchTasks(u, ts)| == if HasTask(u, ts) then 1 else 0
  {
    if ts != [] {
      assert DistinctTaskIds(ts[1..]) by {
        forall i, j | 0 <= i < j < |ts[1..]| ensures ts[1..][i].id != ts[1..][j].id {
          assert ts[1..][i] == ts[i + 1] && ts[1..][j] == ts[j + 1];
        }
      }
      MatchTasksLength(u, ts[1..]);
      if u.taskId == Some(ts[0].id) {
        assert !HasTask(u, ts[1..]) by {
          forall j | 0 <= j < |ts[1..]| ensures u.taskId != Some(ts[1..][j].id) {
            assert ts[1..][j] == ts[j + 1];
          }
        }
      } else {
        if HasTask(u, ts) {
          var j :| 0 <= j < |ts| && u.taskId == Some(ts[j].id);
          assert ts[1..][j - 1] == ts[j];
        }
        if HasTask(u, ts[1..]) {
          var j :| 0 <= j < |ts[1..]| && u.taskId == Some(ts[1..][j].id);
          assert ts[j + 1] == ts[1..][j];
        }
      }
    }
  }

  /** With distinct task ids each upload is joined at most once, so every
      feed answer has one row per upload whose task exists. */
  lemma {:induction false} FeedLength(ts: seq<Task>, us: seq<Upload>, f: seq<FeedRow>)
    requires IsFeedAnswer(ts, us, f)
    requires DistinctTaskIds(ts)
    ensures |f| == CountMatched(us, ts) <= |us|
  {
    JoinLength(us, ts);
    assert |f| == |multiset(f)| == |multiset(Join(us, ts))| == |Join(us, ts)|;
  }

  lemma {:induction false} JoinLength(us: seq<Upload>, ts: seq<Task>)
    requires DistinctTaskIds(ts)
    ensures |Join(us, ts)| == CountMatched(us, ts) <= |us|
  {
    if us != [] {
      MatchTasksLength(us[0], ts);
      JoinLength(us[1..], ts);
    }
  }

  /** In a newest-first list, a strictly newer row always precedes an older
      one: given timestamps t1 < t2 < t3 the answer lists t3, t2, t1. */
  lemma {:induction false} NewerRowsComeFirst(f: seq<FeedRow>, i: int, j: int)
    requires NewestFirst(f)
    requires 0 <= i < |f| && 0 <= j < |f| && f[i].createdAt > f[j].createdAt
    ensures i < j
  {
    if j <= i {
      NewestFirstPairwise(f, j, i);
    }
  }

  lemma {:induction false} NewestFirstPairwise(f: seq<FeedRow>, i: int, j: int)
    requires NewestFirst(f)
    requires 0 <= i <= j < |f|
    ensures f[i].createdAt >= f[j].createdAt
    decreases j - i
  {
    if i < j {
      NewestFirstPairwise(f, i + 1, j);
    }
  }
}
