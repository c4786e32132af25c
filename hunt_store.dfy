/** The hunt's data store (server.ts): the `tasks` and `uploads` tables held
    in memory, each with the AUTOINCREMENT counter SQLite keeps for it, and
    an abstract clock standing for CURRENT_TIMESTAMP. The seed step and the
    two writing routes are methods; the two reading routes are functions. */
module HuntStore {
  import opened HuntTypes
  import FeedQuery

  /** Why an insert into `uploads` is refused. */
  datatype DbError = NotNullViolation | ForeignKeyViolation

  /** One entry of the fixed seed list: title, description, points. */
  datatype SeedEntry = SeedEntry(title: string, description: string, points: int)

  /** The six tasks inserted into an empty catalogue, in insertion order. */
  const InitialTasks: seq<SeedEntry> := [
    SeedEntry("Best Jalebi in Mirsharai Bazar",
              "Find the crispiest, juiciest Jalebi and snap a photo of the stall.", 15),
    SeedEntry("Sunset at Mahamaya Lake",
              "Capture the golden hour at the beautiful Mahamaya Lake.", 20),
    SeedEntry("Unique Mosque Lighting",
              "Find a mosque with beautiful or unique Ramadan decorations.", 15),
    SeedEntry("Iftar Table Spread",
              "Show us your delicious home or restaurant Iftar spread.", 10),
    SeedEntry("The Busy Bazar Rush",
              "Capture the energy of the Mirsarai Bazar just before Iftar.", 10),
    SeedEntry("General Discovery",
              "Share any special moment or find from your Mirsarai journey.", 5)
  ]

  /** The task rows the seed list becomes when the AUTOINCREMENT counter of
      `tasks` stands at `base`. */
  function SeedTasks(base: int): seq<Task>
  {
    seq(|InitialTasks|, i requires 0 <= i < |InitialTasks| =>
      Task(base + i + 1, InitialTasks[i].title, InitialTasks[i].description, InitialTasks[i].points))
  }

  /** Ids as AUTOINCREMENT hands them out: positive, strictly increasing in
      table order, never above the counter. */
  predicate TaskIdsAssigned(ts: seq<Task>, counter: int)
  {
    (forall i, j | 0 <= i < j < |ts| :: ts[i].id < ts[j].id) &&
    (forall i | 0 <= i < |ts| :: 1 <= ts[i].id <= counter)
  }

  predicate UploadIdsAssigned(us: seq<Upload>, counter: int)
  {
    (forall i, j | 0 <= i < j < |us| :: us[i].id < us[j].id) &&
    (forall i | 0 <= i < |us| :: 1 <= us[i].id <= counter)
  }

  /** Rows were stamped by a clock that never runs backwards and now reads
      `clock`. */
  predicate StampedInOrder(us: seq<Upload>, clock: nat)
  {
    (forall i | 0 <= i < |us| - 1 :: us[i].createdAt <= us[i + 1].createdAt) &&
    (forall i | 0 <= i < |us| :: us[i].createdAt <= clock)
  }

  /** `later` is what `earlier` can become: rows are only appended, and an
      existing row changes at most in its vote count, which does not fall. */
  predicate Evolves(earlier: seq<Upload>, later: seq<Upload>)
  {
    |earlier| <= |later| &&
    forall i | 0 <= i < |earlier| ::
      later[i].(votes := earlier[i].votes) == earlier[i] && later[i].votes >= earlier[i].votes
  }

  /** `UPDATE uploads SET votes = votes + 1 WHERE id = ?` over a table. */
  function WithVote(us: seq<Upload>, id: int): (r: seq<Upload>)
    ensures |r| == |us|
    ensures forall i | 0 <= i < |us| ::
      r[i].votes == us[i].votes + (if us[i].id == id then 1 else 0)
    ensures forall i | 0 <= i < |us| :: r[i].(votes := us[i].votes) == us[i]
  {
    if us == [] then []
    else [if us[0].id == id then us[0].(votes := us[0].votes + 1) else us[0]] + WithVote(us[1..], id)
  }

  /** `n` successive votes for the same id. */
  function VoteTimes(us: seq<Upload>, id: int, n: nat): seq<Upload>
  {
    if n == 0 then us else WithVote(VoteTimes(us, id, n - 1), id)
  }

  /** A vote for an id that no row carries leaves the table as it was. */
  lemma VoteUnknownIsNoop(us: seq<Upload>, id: int)
    requires forall i | 0 <= i < |us| :: us[i].id != id
    ensures WithVote(us, id) == us
  {
    var r := WithVote(us, id);
    assert forall i | 0 <= i < |us| :: r[i] == us[i].(votes := us[i].votes);
  }

  /** After `n` votes for `id` the matching row has gained exactly `n` votes,
      and no other row or field has changed. */
  lemma {:induction false} VoteTimesCounts(us: seq<Upload>, id: int, n: nat)
    ensures |VoteTimes(us, id, n)| == |us|
    ensures forall i | 0 <= i < |us| ::
      VoteTimes(us, id, n)[i].votes == us[i].votes + (if us[i].id == id then n else 0)
    ensures forall i | 0 <= i < |us| :: VoteTimes(us, id, n)[i].(votes := us[i].votes) == us[i]
  {
    if n > 0 {
      VoteTimesCounts(us, id, n - 1);
    }
  }

  /** Votes never fall and no row disappears: a vote is an evolution. */
  lemma VoteEvolves(us: seq<Upload>, id: int)
    ensures Evolves(us, WithVote(us, id))
  {
  }

  /** Evolution composes, so over any run of requests every row keeps its
      fields and its vote count never decreases. */
  lemma EvolvesTransitive(a: seq<Upload>, b: seq<Upload>, c: seq<Upload>)
    requires Evolves(a, b) && Evolves(b, c)
    ensures Evolves(a, c)
  {
    forall i | 0 <= i < |a|
      ensures c[i].(votes := a[i].votes) == a[i] && c[i].votes >= a[i].votes
    {
      assert b[i].(votes := a[i].votes) == a[i];
      assert c[i].(votes := b[i].votes) == b[i];
    }
  }

  /** The NOT NULL columns `user_name` and `photo_url` both receive a value. */
  predicate NotNullHolds(userName: Option<string>, photoData: Option<string>)
  {
    userName.Some? && photoData.Some?
  }

  /** The foreign key `uploads.task_id REFERENCES tasks(id)`, which the
      connection enforces: a task id is NULL or the id of a stored task. */
  predicate TaskRefHolds(ts: seq<Task>, taskId: Option<int>)
  {
    taskId.None? || exists j | 0 <= j < |ts| :: ts[j].id == taskId.value
  }

  /** Every stored upload satisfies the foreign key. */
  predicate UploadsReferenceTasks(ts: seq<Task>, us: seq<Upload>)
  {
    forall i | 0 <= i < |us| :: TaskRefHolds(ts, us[i].taskId)
  }

  /** Appending tasks keeps every reference that held before. */
  lemma ReferencesSurviveTaskInsert(ts: seq<Task>, t: Task, us: seq<Upload>)
    requires UploadsReferenceTasks(ts, us)
    ensures UploadsReferenceTasks(ts + [t], us)
  {
    forall i | 0 <= i < |us| ensures TaskRefHolds(ts + [t], us[i].taskId) {
      if us[i].taskId.Some? {
        var j :| 0 <= j < |ts| && ts[j].id == us[i].taskId.value;
        assert (ts + [t])[j] == ts[j];
      }
    }
  }

  class Store {
    var tasks: seq<Task>
    var uploads: seq<Upload>
    /** AUTOINCREMENT counters (the `sqlite_sequence` entries). */
    var taskSeq: nat
    var uploadSeq: nat
    /** Abstract CURRENT_TIMESTAMP, in whole seconds. */
    var clock: nat

    ghost predicate Valid()
      reads this
    {
      TaskIdsAssigned(tasks, taskSeq) &&
      UploadIdsAssigned(uploads, uploadSeq) &&
      StampedInOrder(uploads, clock) &&
      UploadsReferenceTasks(tasks, uploads)
    }

    /** A freshly created database file: both tables empty. */
    constructor (startTime: nat)
      ensures Valid()
      ensures tasks == [] && uploads == [] && taskSeq == 0 && uploadSeq == 0 && clock == startTime
    {
      tasks, uploads := [], [];
      taskSeq, uploadSeq := 0, 0;
      clock := startTime;
    }

    /** Time passes. */
    method Tick(seconds: nat)
      requires Valid()
      modifies this`clock
      ensures Valid() && clock == old(clock) + seconds
    {
      clock := clock + seconds;
    }

    /** `INSERT INTO tasks (title, description, points) VALUES (?, ?, ?)`. */
    method InsertTask(title: string, description: string, points: int) returns (id: int)
      requires Valid()
      modifies this`tasks, this`taskSeq
      ensures Valid()
      ensures id == old(taskSeq) + 1 && taskSeq == id
      ensures tasks == old(tasks) + [Task(id, title, description, points)]
    {
      id := taskSeq + 1;
      ReferencesSurviveTaskInsert(tasks, Task(id, title, description, points), uploads);
      tasks := tasks + [Task(id, title, description, points)];
      taskSeq := id;
    }

    /** Seeds the catalogue when, and only when, it holds no task. */
    method SeedIfEmpty()
      requires Valid()
      modifies this`tasks, this`taskSeq
      ensures Valid() && |tasks| > 0
      ensures old(|tasks|) == 0 ==>
        tasks == SeedTasks(old(taskSeq)) && taskSeq == old(taskSeq) + |InitialTasks|
      ensures old(|tasks|) != 0 ==> tasks == old(tasks) && taskSeq == old(taskSeq)
    {
      var count := |tasks|;
      if count == 0 {
        var i := 0;
        while i < |InitialTasks|
          invariant 0 <= i <= |InitialTasks|
          invariant Valid()
          invariant tasks == SeedTasks(old(taskSeq))[..i]
          invariant taskSeq == old(taskSeq) + i
        {
          var entry := InitialTasks[i];
          var id := InsertTask(entry.title, entry.description, entry.points);
          i := i + 1;
        }
      }
    }

    /** `GET /api/tasks`: every task, in id order. */
    function ListTasks(): (r: seq<Task>)
      reads this
      requires Valid()
      ensures forall i, j | 0 <= i < j < |r| :: r[i].id < r[j].id
      ensures forall t :: t in r <==> t in tasks
    {
      tasks
    }

    /** `GET /api/feed`: the uploads joined with their tasks, newest first. */
    function ListFeed(): (r: seq<FeedRow>)
      reads this
      ensures FeedQuery.IsFeedAnswer(tasks, uploads, r)
    {
      FeedQuery.Feed(tasks, uploads)
    }

    /** `POST /api/upload`: stores the body's fields as a new row with no
        votes, stamped with the current time, and answers with its id. A
        missing user name or photo breaks a NOT NULL constraint; a task id
        that is not NULL and names no task breaks the foreign key. Either
        way the statement fails and nothing is stored. */
    method SubmitUpload(taskId: Option<int>, userName: Option<string>,
                        photoData: Option<string>, caption: Option<string>)
      returns (r: Result<int, DbError>)
      requires Valid()
      modifies this`uploads, this`uploadSeq
      ensures Valid()
      ensures r.Success? <==> NotNullHolds(userName, photoData) && TaskRefHolds(tasks, taskId)
      ensures r.Failure? ==> uploads == old(uploads) && uploadSeq == old(uploadSeq)
      ensures r.Failure? ==>
        r.error == if NotNullHolds(userName, photoData) then ForeignKeyViolation else NotNullViolation
      ensures r.Success? ==>
        r.value == old(uploadSeq) + 1 && uploadSeq == r.value &&
        uploads == old(uploads) +
          [Upload(r.value, taskId, userName.value, photoData.value, caption, 0, clock)]
      ensures r.Success? ==> forall i | 0 <= i < |old(uploads)| :: old(uploads)[i].id < r.value
      ensures Evolves(old(uploads), uploads)
    {
      if userName.None? || photoData.None? {
        return Failure(NotNullViolation);
      }
      if !TaskRefHolds(tasks, taskId) {
        return Failure(ForeignKeyViolation);
      }
      var id := uploadSeq + 1;
      uploads := uploads + [Upload(id, taskId, userName.value, photoData.value, caption, 0, clock)];
      uploadSeq := id;
      r := Success(id);
    }

    /** `POST /api/vote/:id`: adds one vote to the row with that id, if any,
        and reports success either way. */
    method Vote(id: int) returns (success: bool)
      requires Valid()
      modifies this`uploads
      ensures Valid() && success
      ensures uploads == WithVote(old(uploads), id)
      ensures (forall i | 0 <= i < |old(uploads)| :: old(uploads)[i].id != id) ==>
        uploads == old(uploads)
      ensures Evolves(old(uploads), uploads)
    {
      VoteEvolves(uploads, id);
      if forall i | 0 <= i < |uploads| :: uploads[i].id != id {
        VoteUnknownIsNoop(uploads, id);
      }
      uploads := WithVote(uploads, id);
      success := true;
    }
  }

  /** Under the store's invariant the feed has one row per upload whose task
      id is not NULL, and an upload is left out of it exactly when its task
      id is NULL. */
  lemma FeedOfValidStore(s: Store)
    requires s.Valid()
    ensures |s.ListFeed()| == FeedQuery.CountMatched(s.uploads, s.tasks) <= |s.uploads|
    ensures forall k | 0 <= k < |s.uploads| ::
      (exists row | row in s.ListFeed() :: row.id == s.uploads[k].id) <==> s.uploads[k].taskId.Some?
  {
    var f := s.ListFeed();
    assert FeedQuery.DistinctTaskIds(s.tasks);
    assert FeedQuery.DistinctUploadIds(s.uploads);
    FeedQuery.FeedLength(s.tasks, s.uploads, f);
    forall k | 0 <= k < |s.uploads|
      ensures (exists row | row in f :: row.id == s.uploads[k].id) <==> s.uploads[k].taskId.Some?
    {
      var u := s.uploads[k];
      if u.taskId.Some? {
        assert TaskRefHolds(s.tasks, u.taskId);
        var j :| 0 <= j < |s.tasks| && s.tasks[j].id == u.taskId.value;
        FeedQuery.FeedIncludesMatched(s.tasks, s.uploads, f, k, j);
        assert JoinRow(u, s.tasks[j]).id == u.id;
      } else {
        FeedQuery.FeedExcludesOrphans(s.tasks, s.uploads, f, k);
      }
    }
  }

  /** The example run: seed a fresh store, submit one photo for task 1, vote
      for it twice; the feed then shows that one row with two votes. */
  method ExampleRun(startTime: nat) returns (feed: seq<FeedRow>)
    ensures feed == [FeedRow(1, 1, "Best Jalebi in Mirsharai Bazar", "Arif",
                             "data:image/png;base64,AAA=", Some("yum"), 2, startTime)]
  {
    var store := new Store(startTime);
    store.SeedIfEmpty();
    assert store.tasks[0].id == 1;
    var r := store.SubmitUpload(Some(1), Some("Arif"), Some("data:image/png;base64,AAA="), Some("yum"));
    assert r == Success(1);
    var ok := store.Vote(1);
    ok := store.Vote(1);
    var u := Upload(1, Some(1), "Arif", "data:image/png;base64,AAA=", Some("yum"), 2, startTime);
    assert store.uploads == [u];
    var t := store.tasks[0];
    assert t == Task(1, "Best Jalebi in Mirsharai Bazar", InitialTasks[0].description, 15);
    assert forall j | 1 <= j < |store.tasks| :: store.tasks[j].id != 1;
    var row := JoinRow(u, t);
    assert FeedQuery.MatchTasks(u, store.tasks) == [row] by {
      FeedQuery.MatchTasksLength(u, store.tasks);
      FeedQuery.MatchTasksMembership(u, store.tasks, row);
    }
    assert FeedQuery.Join(store.uploads, store.tasks) == [row];
    feed := store.ListFeed();
    assert multiset(feed) == multiset{row};
    assert |feed| == 1 && feed[0] in multiset(feed);
  }
}
