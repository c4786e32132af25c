# Mirsarai Iftar Hunt — a Dafny model of the hunt store and its client handlers

The hunt is a photo scavenger hunt: a fixed catalogue of tasks, photo uploads
tied to a task, and a public feed where uploads collect votes. This project
models the two places where that logic lives.

- **The server store** (`server.ts`). The two SQLite tables `tasks` and `uploads`
  are held as sequences in a `Store` class (`hunt_store.dfy`). Each table has the
  AUTOINCREMENT counter SQLite keeps for it. An abstract clock stands for
  `CURRENT_TIMESTAMP` and is advanced only by `Tick`, so it never runs backwards.
  - The seed step and the two writing routes (`POST /api/upload`,
    `POST /api/vote/:id`) are methods that change the store in place.
  - The two reading routes (`GET /api/tasks`, `GET /api/feed`) are functions.
  - The feed query (`feed_query.dfy`) is the inner join of uploads with tasks on
    `task_id`, ordered by `created_at` newest first. The query has no secondary
    sort key, so its specification `IsFeedAnswer` leaves the order of rows with
    equal timestamps open: an answer is any newest-first permutation of the join.
    `Feed` is one such answer.
- **The client handlers** (`src/App.tsx`). The React component's state fields
  are fields of an `App` class (`hunt_app.dfy`), and the event handlers are its
  methods. The plus shortcut's task choice and the submit-button predicate are
  functions. JavaScript truthiness is written out: `null` and `''` are both
  falsy.
- **Record shapes** (`hunt_types.dfy`) follow `src/types.ts`. A stored `Upload`
  has no task title; only a `FeedRow` (the `Upload` interface of
  `src/types.ts`) carries `task_title`.

The model follows what the code does in three places where a reader might expect otherwise:
- An upload body without a user name or a photo is not stored as NULL. The
  columns are `NOT NULL`, so the insert fails and nothing is stored.
  `SubmitUpload` returns `Failure(NotNullViolation)` in that case.
- Feed rows with equal `created_at` are not ordered by insertion. The
  `ORDER BY` has only the one key, so their order is left open.
- The declared foreign key (server.ts:26) is enforced. The code never sets
  `PRAGMA foreign_keys`, but the SQLite that `better-sqlite3` bundles is
  built with foreign keys on by default. An upload naming a task id that
  no task carries therefore fails, and `SubmitUpload` returns
  `Failure(ForeignKeyViolation)`. A NULL task id is still accepted. Such an
  upload stays stored, but the inner join leaves it out of the feed.

## Model

| member | source | states |
|---|---|---|
| HuntStore.Store.constructor | server.ts:7-28 | A fresh database: both tables empty, both AUTOINCREMENT counters at zero, and the store invariant holds. |
| HuntStore.Store.Tick | server.ts:25 | The clock behind CURRENT_TIMESTAMP only moves forward; the invariant that every row is stamped no later than the clock is kept. |
| HuntStore.Store.InsertTask | server.ts:33-43 | Inserting a task appends exactly one row, whose id is the counter plus one, and advances the counter to it. |
| HuntStore.Store.SeedIfEmpty | server.ts:31-45 | On an empty catalogue it inserts the six seed tasks in order with ids counter+1..counter+6 (1..6 on a fresh store). On a non-empty catalogue it changes nothing, so seeding twice equals seeding once. The catalogue is non-empty afterwards. |
| HuntStore.Store.ListTasks | server.ts:54-57 | Returns exactly the stored tasks, in strictly increasing id order. |
| HuntStore.Store.ListFeed | server.ts:59-67 | Returns a valid answer of the feed query over the current tables. |
| HuntStore.Store.SubmitUpload | server.ts:69-78 | Succeeds exactly when user name and photo are present and the task id is NULL or names a stored task. On success it appends one row with 0 votes, the given task id and the current time, and returns its new id, which exceeds every earlier upload id. On failure it reports the NOT NULL violation first, then the foreign-key one, and nothing changes. Tasks are never touched. |
| HuntStore.Store.Vote | server.ts:80-84 | Always reports success. The table becomes `WithVote` of the old one. An id that no row carries leaves the table unchanged. Rows only evolve: none disappears and no vote count falls. |
| HuntStore.WithVote | server.ts:82 | Same number of rows. Each row whose id matches gains exactly one vote, every other row keeps its count, and no field other than `votes` changes. |
| HuntStore.VoteUnknownIsNoop | server.ts:82-83 | A vote for an id that no row carries returns the table unchanged. |
| HuntStore.VoteTimesCounts | server.ts:82 | After n votes for one id, the matching row has exactly n more votes and nothing else differs. |
| HuntStore.VoteEvolves | server.ts:82 | A vote keeps every row and every field except `votes`, and `votes` does not fall. |
| HuntStore.EvolvesTransitive | server.ts:69-84 | Evolution composes: across any run of uploads and votes, each row keeps its fields, including `created_at`, and its vote count never decreases. |
| HuntStore.ReferencesSurviveTaskInsert | server.ts:26 | Inserting a task keeps every upload's foreign key satisfied, so the seed step preserves the store invariant. |
| HuntStore.FeedOfValidStore | server.ts:59-67 | For any store satisfying the invariant, the feed has one row per upload with a non-NULL task id, never more rows than uploads. An upload is missing from the feed exactly when its task id is NULL. |
| HuntStore.ExampleRun | server.ts:31-84 | Seed a fresh store, upload one photo for task 1 and vote for it twice. The feed is then exactly one row: id 1, titled "Best Jalebi in Mirsharai Bazar", with 2 votes. |
| FeedQuery.InsertByTime | server.ts:64 | Inserting a row into a newest-first list keeps it newest first and adds exactly that row to its multiset. |
| FeedQuery.SortNewestFirst | server.ts:64 | The result is newest first and a permutation of the input. |
| FeedQuery.Feed | server.ts:60-65 | The computed feed is a valid answer: a newest-first permutation of the join. |
| FeedQuery.MatchTasksMembership | server.ts:63 | The join rows for one upload are exactly its pairings with tasks whose id equals its `task_id`. |
| FeedQuery.JoinMembership | server.ts:61-63 | A row is in the join exactly when it pairs some stored upload with a task named by its `task_id`, and carries that task's title. |
| FeedQuery.FeedAnswerMembership | server.ts:60-65 | Every feed answer contains exactly the joined rows. |
| FeedQuery.FeedExcludesOrphans | server.ts:63 | An upload whose `task_id` matches no task, including a NULL one, has no row in any feed answer. |
| FeedQuery.FeedIncludesMatched | server.ts:61-63 | An upload whose task exists appears in every feed answer, paired with that task's title. |
| FeedQuery.MatchTasksLength | server.ts:63 | With distinct task ids, an upload yields one join row if its task exists and none otherwise. |
| FeedQuery.JoinLength | server.ts:61-63 | With distinct task ids, the join has one row per upload whose task exists, so it is never longer than the uploads table. |
| FeedQuery.FeedLength | server.ts:60-65 | Every feed answer has exactly one row per upload whose task exists. |
| FeedQuery.NewestFirstPairwise | server.ts:64 | In a newest-first list, every row is at least as new as every later row. |
| FeedQuery.NewerRowsComeFirst | server.ts:64 | In any feed answer, a strictly newer row comes before an older one, so uploads at t1 < t2 < t3 are listed t3, t2, t1. |
| HuntApp.FindByTitle | src/App.tsx:95 | Finds a task exactly when one has the title, and then returns the first task with that title. |
| HuntApp.PlusChoice | src/App.tsx:95 | Empty exactly for an empty task list. Otherwise it picks a listed task: the first one titled "General Discovery" (what `FindByTitle` finds) if any exists, else the first task. |
| HuntApp.PlusPicksSeededGeneralDiscovery | src/App.tsx:95 | On the freshly seeded catalogue, the plus shortcut picks "General Discovery", task 6. |
| HuntApp.SubmitRequest | src/App.tsx:63-76 | A request exists exactly when the guard passes: a task is selected, the name is non-empty and the photo is non-null and non-empty. The request carries the selected task's id, the name, the photo and the caption. |
| HuntApp.ClientRequestAccepted | src/App.tsx:64-75 | Every request the client sends fills both NOT NULL columns and has a non-empty name. When the selected task is one the server holds, the request also meets the foreign key, so the server stores it. |
| HuntApp.App.constructor | src/App.tsx:25-32 | The initial state: tasks tab, form closed, nothing selected, empty name and caption, no photo. |
| HuntApp.App.TasksLoaded | src/App.tsx:40-44 | The loaded task list replaces the component's list. |
| HuntApp.App.PlusClick | src/App.tsx:94-100 | With no tasks, selection and form state are unchanged. Otherwise `PlusChoice` of the list becomes the selected task and the form opens. |
| HuntApp.App.CameraClick | src/App.tsx:181-184 | The card's task becomes the selected task and the form opens. |
| HuntApp.App.CloseForm | src/App.tsx:278 | The form closes and the selection is kept. |
| HuntApp.App.ChooseTab | src/App.tsx:131-142 | The chosen tab becomes active. |
| HuntApp.App.EditUserName | src/App.tsx:316 | The typed text becomes the name. |
| HuntApp.App.EditCaption | src/App.tsx:325 | The typed text becomes the caption. |
| HuntApp.App.PhotoLoaded | src/App.tsx:56-57 | The read data URL becomes the photo preview. |
| HuntApp.App.CanPressSubmit | src/App.tsx:334 | While the upload form is open, the submit button is enabled exactly when pressing it sends a request. |
| HuntApp.App.SubmitGuardIsButtonPlusSelection | src/App.tsx:64 | The submit guard passes exactly when the submit button is enabled and a task is selected. |
| HuntApp.App.Submit | src/App.tsx:63-85 | When the guard fails, no request is sent and nothing changes. When the server answers not ok, nothing changes. When it answers ok, the form closes, the selection and photo are cleared, the caption becomes '' and the feed tab opens. The name is kept. Every step keeps the invariant that the form is open only with a task selected. |

## Left out

- Express setup, the JSON body limit, the Vite middleware, static file serving and `listen` (server.ts:47-53, 86-105). These are HTTP and runtime plumbing.
- The SQLite engine and the `better-sqlite3` statement API. The model states the table semantics directly. A database file that already holds data when the server starts is modelled only through `SeedIfEmpty` on an arbitrary valid store; the constructor builds a fresh file.
- Real timestamps. `created_at` is a whole number of seconds taken from the abstract clock, so equal timestamps are possible. The text form of `CURRENT_TIMESTAMP` is not modelled; it sorts in the same order as the number.
- HuntStore.Store.ListTasks: `SELECT * FROM tasks` has no `ORDER BY`. The model returns rows in rowid order, as a table scan does, although SQL does not promise that order.
- HuntStore.Store.SubmitUpload: JSON type coercion is not modelled. A non-string user name, or a non-integer task id, is outside the model. Only present-or-missing is distinguished.
- HuntStore.Store.Vote: the route parameter is a string. Text that names no integer matches no row, so it is modelled as an id that no row carries.
- The `points` default of 10 never takes effect, because the only insert into `tasks` always supplies points. The model has no insert without points.
- Client `fetch` calls and JSON decoding (src/App.tsx:40-50, 66-76, 87-92), including the feed refresh after a submit or a vote. Only the success or failure of the upload enters the model, as the `ok` parameter of `Submit`.
- HuntApp.App.Submit: `handleSubmit` is asynchronous. The model treats the guard, the request and the state reset as one step, so edits made while the request is in flight are not modelled.
- `FileReader` data-URL reading (src/App.tsx:52-61): the photo is an opaque string handed to `PhotoLoaded`.
- `handleVote` (src/App.tsx:87-92) only posts the vote and refreshes the feed, so it is left to the server's `Vote`.
- All JSX rendering, icons, animation and styling (src/App.tsx:102-356), including the display-only "Leaderboard" badge. No leaderboard logic exists.
- Image compression or resizing: no such code exists in these files.
