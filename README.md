# Change-history interceptor of auto-history

This project models the `HistoryAspect` of the auto-history service and proves properties of the model. The aspect wraps every service method annotated `@TrackHistory(entityType, action)` and records a `History` row (entity type, entity id, action, before and after JSON, actor) in an insert-only history table. Business logic calls nothing for this.

The aspect has two hooks that share one per-thread slot:

- **Entry hook** (`beforeMethod`). When the first argument is a `Post`, it stores a reference to that object in the slot. Otherwise it leaves the slot as it is.
- **Exit hook** (`afterMethod`). It runs only when the tracked method returned normally. It builds the row from the annotation, from the first argument and from the slot, inserts the row, and then empties the slot. Any exception on the way is swallowed, and then the slot is not emptied.

Files:

- `wrappers.dfy`: `Option`, for Java references that may be null.
- `domain.dfy`:
  - `Post` is a class, because business operations update it in place (the insert writes the generated key back into `id`).
  - `PostState` holds its field values at one instant.
  - `TrackHistory` is the annotation.
  - `History` is the row the aspect fills in.
  - `Arg` is a call argument: a Post reference, a boxed id, another object, or null.
- `mapper.dfy`: the history store, a class `HistoryMapper` whose `rows: seq<History>` only grows. A ghost `attempts` sequence records every row an insert was tried for. Its insert may fail nondeterministically; a failure stands for the database throwing.
- `aspect.dfy`: the pure specification of each hook (`FirstPost`, `Entered`, `Snapshot`, `Assemble`, `Exit`, `InvokeStep`) and the class `HistoryAspect`:
  - `beforeData: Option<Post>` is the slot.
  - `historyMapper` is the store.
  - `objectMapper` is the JSON writer, a deterministic total function `PostState -> Option<string>`; `None` means writing threw.
  - `BeforeMethod` and `AfterMethod` are proved against the pure functions.
  - `Invoke` composes the entry hook, the tracked operation and the exit hook. The exit hook runs only on normal return, as `@AfterReturning` does.
- `session.dfy`: the calls of one thread run in sequence (`Run`). It holds lemmas by induction over such runs, and two client scenarios built on the class.

The slot holds a *reference*: the JSON for `beforeData` and for `afterData` are both written at exit time. So whenever the call's own first argument is a Post, the two are equal, and a create or update records no real "before" state. The Post argument the operation changed is the one that is written.

## Behaviour worth knowing

- **When the slot is cleared.** The slot is cleared only after a successful insert (`HistoryAspect.java:57`). It stays set in three cases:
  - writing the JSON throws;
  - the insert throws;
  - the business operation throws, because the exit hook does not run at all.

  A stale Post can therefore be written as the `beforeData` of a later, unrelated call (`Session.StaleSlotSurvives`, `Session.FailedUpdateThenDelete`).
- **What "before" holds.** The source documents `beforeData` as the data before the change (`History.java:37-40`). It also says the annotation records the changes before and after the method runs (`TrackHistory.java:10-12`). The code, however, stores a reference at entry and writes the JSON at exit. So `beforeData == afterData` for any call whose first argument is a Post (`Aspect.Assemble`, `Aspect.HistoryAspect.Invoke`).
- **Only Posts.** Only a `Post` first argument is recognised (`instanceof Post`). Any other first argument gives a null `entityId` and a null `afterData`.
- **Where `afterData` comes from.** It is the first argument, not the operation's return value.

## Model

| member | source | states |
|---|---|---|
| `Aspect.FirstPost` | src/main/java/com/projectsobee/history/aspect/HistoryAspect.java:28-29 | a Post is found exactly when there is at least one argument and the first is a Post, and then it is that argument |
| `Aspect.Entered` | src/main/java/com/projectsobee/history/aspect/HistoryAspect.java:28-33 | after the entry hook the slot holds the first argument when it is a Post, and otherwise exactly what it held before; the entry hook never empties a slot |
| `Aspect.Snapshot` | src/main/java/com/projectsobee/history/aspect/HistoryAspect.java:48 | the snapshot written is the referenced object's state at the time of writing, and there is no snapshot exactly when the reference is null |
| `Aspect.Assemble` | src/main/java/com/projectsobee/history/aspect/HistoryAspect.java:39-54 | a record exists exactly when every serialization attempted succeeds. Its `entityType`/`action` are the annotation's and `modifiedBy` is "system". `entityId` is the Post argument's id, null without a Post argument. `afterData` is non-null exactly when there is a Post argument and is then its JSON. `beforeData` is non-null exactly when the slot holds a Post and is then that Post's JSON. When both are the same state, `beforeData == afterData` |
| `Aspect.Exit` | src/main/java/com/projectsobee/history/aspect/HistoryAspect.java:56-60 | the old log is a prefix of the new one, which is at most one row longer. When the record exists and was stored, exactly that row is appended and the slot is emptied; otherwise slot and log are exactly as before |
| `Aspect.InvokeStep` | src/main/java/com/projectsobee/history/aspect/HistoryAspect.java:26-61 | one call appends at most one row and never changes earlier rows. A recorded call appends its assembled record and empties the slot. Any other call (operation threw, serialization threw, insert threw) leaves the log unchanged and the slot as the entry hook set it |
| `Aspect.HistoryAspect.constructor` | src/main/java/com/projectsobee/history/aspect/HistoryAspect.java:20-24 | the aspect starts with an empty slot, bound to its store and its object mapper |
| `Aspect.HistoryAspect.BeforeMethod` | src/main/java/com/projectsobee/history/aspect/HistoryAspect.java:26-34 | the slot becomes `Entered(old slot, args)`; the log is untouched |
| `Aspect.HistoryAspect.AfterMethod` | src/main/java/com/projectsobee/history/aspect/HistoryAspect.java:36-61 | the new slot and log are `Exit` applied to the record built from the exit-time states of the Post argument and of the slot's Post. An insert is attempted with exactly that record whenever it could be assembled, and never otherwise. The hook never fails: a thrown serialization or insert leaves the slot and the log as they were. A reported append implies that the record existed |
| `Aspect.HistoryAspect.Invoke` | src/main/java/com/projectsobee/history/aspect/HistoryAspect.java:26-37 | the operation's completion is returned unchanged. The Post argument ends in the state the operation gave it. The new slot and log are `InvokeStep`'s. After a normal return, an insert of the assembled record is attempted exactly when it could be assembled; after a throw, none is. The log only grows, by exactly one row when one is reported stored. A throwing operation adds no row. With a Post argument, the new row's `beforeData` and `afterData` are both the JSON of that argument's exit-time state |
| `Mapper.HistoryMapper.constructor` | src/main/java/com/projectsobee/history/mapper/HistoryMapper.java:13-20 | a new store holds no rows and has seen no inserts |
| `Mapper.HistoryMapper.InsertHistory` | src/main/java/com/projectsobee/history/mapper/HistoryMapper.java:19 | every call is one insert attempt of the given row. The attempt either appends exactly that row or throws and appends nothing |
| `Domain.Post.constructor` | src/main/java/com/projectsobee/history/domain/Post.java:13-21 | a new Post holds exactly the given field values |
| `Domain.Post.Assign` | src/main/java/com/projectsobee/history/domain/Post.java:13-21 | after the setters the Post holds exactly the given field values |
| `Session.RecordedCount` | src/main/java/com/projectsobee/history/aspect/HistoryAspect.java:56 | counts the calls that leave a row; the count never exceeds the number of calls |
| `Session.AppendOnly` | src/main/java/com/projectsobee/history/aspect/HistoryAspect.java:56-57 | over any sequence of calls, the earlier log is a prefix of the later one, and the log grows by exactly the number of recorded calls |
| `Session.AtMostOneRowPerCall` | src/main/java/com/projectsobee/history/aspect/HistoryAspect.java:56 | a sequence of calls adds at most as many rows as it has calls |
| `Session.NoRowWithoutReturn` | src/main/java/com/projectsobee/history/aspect/HistoryAspect.java:36 | a sequence of calls in which no operation returns normally leaves the log exactly as it was |
| `Session.SlotProvenance` | src/main/java/com/projectsobee/history/aspect/HistoryAspect.java:24-33 | after any sequence of calls the slot is empty, or holds what it held before, or holds the Post argument of one of the calls |
| `Session.StaleSlotSurvives` | src/main/java/com/projectsobee/history/aspect/HistoryAspect.java:29-33 | calls without a Post argument that record nothing leave the slot (stale or not) and the log unchanged |
| `Session.RowsCarryAnnotation` | src/main/java/com/projectsobee/history/aspect/HistoryAspect.java:39-42 | every row added by any sequence of calls has `modifiedBy == "system"`. Each such row carries the `entityType` and `action` declared by one of those calls |
| `Session.FailedUpdateThenDelete` | src/main/java/com/projectsobee/history/service/PostService.java:34-45 | take an `updatePost(post)` that throws, then a `deletePost(id)`. The delete attempts to insert the row ("Post", null id, "DELETE", JSON of that post, null, "system") whenever that post can be written. If that row is recorded, it is the last row of the log. If nothing is recorded, the post is still in the slot |
| `Session.CreateRecordsGeneratedKey` | src/main/java/com/projectsobee/history/service/PostService.java:27-32 | a `createPost` whose insert assigns key `k`, and whose post can be written, attempts to insert exactly one row. That row has `entityId == k` and `beforeData == afterData`. When the row is recorded, both are the non-null JSON of the post as inserted, and the slot is left empty |

## Left out

- The JSON writer (Jackson) is a parameter of the aspect: a deterministic function that may fail. Its output format is not modelled.
- The SQL and MyBatis of the history store are not modelled. The store is a sequence that `insertHistory` appends to or refuses nondeterministically. `History.id` and `modifiedAt` are assigned by the database and are not part of the modelled row.
- Post insert, update and delete (`PostMapper`) are not modelled as SQL. Each is an opaque `Operation`: a change to the fields of its Post argument and a completion, normal or thrown. An operation that changes objects other than its Post argument is not modelled.
- The thread-local map is modelled for one thread only; cross-thread behaviour is out of scope. Its single key "data" always holds a Post when set, so the slot is an `Option<Post>`. The second `instanceof Post` test on the slot's value is then always true.
- Spring AOP pointcut matching and proxying are not modelled; `Invoke` is the explicit composition. `@Transactional` demarcation and rollback are not modelled either.
- Nested tracked calls on one thread are not modelled: an `Operation` cannot call back into the aspect. In the source, an inner tracked call would overwrite and then clear the shared slot, and the outer call's row would lose its `beforeData`. `PostService` never nests tracked calls.
- The `printStackTrace` logging of swallowed exceptions is not modelled.
- `PostController` (HTTP routing) and `HistoryApplication` (bootstrap) are not part of this model. Neither are the read operations `getAllPosts` and `getPost`, which are not tracked.
- `Aspect.HistoryAspect.Invoke` returns the completion described by the `Operation` value. The model does not execute arbitrary caller code.
