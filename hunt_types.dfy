/** Record shapes shared by the hunt server and its client (src/types.ts),
    plus the two small wrappers the model uses for absent values and errors. */
module HuntTypes {

  /** A value that may be absent: SQL NULL, a JSON field left out, a React
      state slot holding `null`. */
  datatype Option<+T> = None | Some(value: T)

  /** The outcome of a storage operation that can fail. */
  datatype Result<+R, +E> = Success(value: R) | Failure(error: E)

  /** A row of the `tasks` table; the client receives the same record. */
  datatype Task = Task(id: int, title: string, description: string, points: int)

  /** A stored row of the `uploads` table. `taskId` and `caption` are nullable
      columns; `createdAt` is the insert time in whole seconds. The stored row
      has no task title: that only exists on feed rows. */
  datatype Upload = Upload(
    id: int,
    taskId: Option<int>,
    userName: string,
    photoUrl: string,
    caption: Option<string>,
    votes: nat,
    createdAt: nat)

  /** A row of the feed query: every column of the upload plus the title of
      the task it joined with (the `Upload` interface of src/types.ts). */
  datatype FeedRow = FeedRow(
    id: int,
    taskId: int,
    taskTitle: string,
    userName: string,
    photoUrl: string,
    caption: Option<string>,
    votes: nat,
    createdAt: nat)

  /** The feed row produced by joining upload `u` with task `t`. */
  function JoinRow(u: Upload, t: Task): FeedRow
    requires u.taskId == Some(t.id)
  {
    FeedRow(u.id, t.id, t.title, u.userName, u.photoUrl, u.caption, u.votes, u.createdAt)
  }
}
