# Kanban board: task-list state logic

A model of the state logic of a small shared kanban board (columns `todo`,
`doing`, `done`), written as a single React component in `src/App.jsx`. The
component keeps the list of cards in memory. It sends every change to a hosted
store. When a store call fails, it applies the same change to a local-storage
copy of the list (the *mirror*, key `kanban-tasks`) and shows the mirror
instead. Change notifications from the store (`INSERT`, `UPDATE`, `DELETE`) are
merged into the in-memory list as they arrive.

The project has five modules:

- `Optional` (`option.dfy`): `Option`, used for an absent storage entry, a
  `null` error and `NaN`.
- `ArrayOps` (`array_ops.dfy`): `Array.prototype.filter` and `map` on
  sequences, with their order, multiset and length lemmas.
- `JsText` (`js_text.dfy`): the JavaScript string built-ins the component
  uses. These are `trim` (the blank-title guard), `includes` (classifying a
  load error), `parseInt` without a radix (reading a dragged card's id) and
  the decimal form of an integer (what the drag data holds).
- `Tasks` (`tasks.dfy`): the `Task`, `Draft` and `Event` values. It also holds
  the realtime merge steps, the mirror's status change, the status columns and
  the lemmas about them.
- `Kanban` (`board.dfy`): the component itself. It is a class `Board` with the
  component's state (`tasks`, `mirror`, `newTask`, `loading`, `error`) and one
  method per handler. It also has client methods that play through the scenarios listed below.

Each handler is one atomic step. The store's answer is a parameter:
`remoteOk` for a write, and `Fetch` (rows or an error message) for the load.
The id `Date.now()` would produce is a parameter too. On a successful write the
handlers leave `tasks` alone, as the source does, and rely on the store's
change notification (`Board.OnChange`) to update the list. The fallback
mutations use the same functions as the realtime merge (`Removed`,
`StatusSet`/`Updated`, append). `Tasks.StatusSetIsRealtimeUpdate` proves that,
when ids are distinct, the fallback status change equals the store's `UPDATE`
notification.

## Model

| member | source | states |
|---|---|---|
| `Tasks.Inserted` | src/App.jsx:22-23 | an `INSERT` makes the list one longer, keeps every earlier card in place and in order, and puts the new row last |
| `Tasks.InsertTwiceDuplicates` | src/App.jsx:22-23 | a repeated `INSERT` is not deduplicated: the row appears twice |
| `Tasks.Updated` | src/App.jsx:25 | the `UPDATE` step keeps the length and leaves every card's id in its place; `Tasks.UpdateReplacesMatching` states which cards change |
| `Tasks.UpdateReplacesMatching` | src/App.jsx:24-25 | an `UPDATE` keeps the length; every card whose id matches the row's id becomes the row; every other card stays where it was; the id sequence is unchanged |
| `Tasks.UpdateAbsentIsNoOp` | src/App.jsx:24-25 | an `UPDATE` for an id not on the list leaves the list unchanged |
| `Tasks.UpdateIdempotent` | src/App.jsx:24-25 | applying the same `UPDATE` twice equals applying it once |
| `Tasks.Removed` | src/App.jsx:27 | the `DELETE` step (and the fallback delete at src/App.jsx:88) never grows the list, leaves no card with that id, keeps only cards of the old list, and keeps every card with another id; `Tasks.DeleteRemovesExactly` adds multiplicities |
| `Tasks.DeleteRemovesExactly` | src/App.jsx:26-27 | after a `DELETE` no card has that id; each other card keeps its multiplicity; the list shrinks by exactly the number of cards with that id |
| `Tasks.DeleteKeepsOrder` | src/App.jsx:26-27 | a `DELETE` distributes over concatenation, so the survivors keep their relative order |
| `Tasks.DeleteAbsentIsNoOp` | src/App.jsx:26-27 | a `DELETE` for an id not on the list leaves the list unchanged |
| `Tasks.DeleteIdempotent` | src/App.jsx:26-27 | applying the same `DELETE` twice equals applying it once |
| `Tasks.Merge` | src/App.jsx:21-29 | one notification applied to the list: `INSERT` keeps every earlier card in place and puts its row last, `UPDATE` keeps the length, `DELETE` leaves no card with that id and never grows the list, any other event type changes nothing |
| `Tasks.StatusSet` | src/App.jsx:100 | the fallback status change keeps the length and every card's id in its place, and every card with the given id gets the new status; `Tasks.StatusSetChangesOnlyStatus` adds that nothing else changes |
| `Tasks.NewTask` | src/App.jsx:69-73 | the fallback card has the given id and a column status, and shows in `todo` and in no other column |
| `Tasks.StatusSetChangesOnlyStatus` | src/App.jsx:99-102 | the mirror's status change keeps length, order, ids, titles, descriptions and priorities; only the cards with the given id get the new status |
| `Tasks.StatusSetIsRealtimeUpdate` | src/App.jsx:99-102 | with distinct ids, the mirror's status change equals the store's `UPDATE` notification for the changed card |
| `Tasks.LocalChangesKeepIdsUnique` | src/App.jsx:69-102 | distinct ids stay distinct under the fallback status change and delete, and under the fallback append when the new id is not yet present |
| `Tasks.FilterKeepsIdsUnique` | src/App.jsx:88 | filtering a list with distinct ids leaves distinct ids |
| `Tasks.Column` | src/App.jsx:195 | a column is never longer than the list, holds only cards of the list whose status is the column's id, and holds every such card |
| `Tasks.ColumnCounts` | src/App.jsx:231-234 | the three column counts plus the cards with an unknown status equal the total; so the column counts sum to `tasks.length` exactly when every status is `todo`, `doing` or `done` |
| `Tasks.ColumnsPartition` | src/App.jsx:194-195 | when every status names a column, the three columns together hold each card as often as the list does, and a card is in a column exactly when its status is that column's id |
| `Tasks.ColumnOfOne` | src/App.jsx:194-195 | a one-card list shows its card in the column of its status and in no other |
| `Tasks.InsertShowsInItsColumn` | src/App.jsx:194-195 | an appended card shows at the bottom of its own column and leaves every other column unchanged |
| `Tasks.StatusSetMovesCard` | src/App.jsx:194-195 | after a status change no card with that id is left in any other column |
| `JsText.Trim` | src/App.jsx:57 | `trim` never lengthens its input, and what it leaves neither starts nor ends with whitespace or a line terminator; `JsText.BlankIffAllSpace` gives the blank test |
| `JsText.TrimStartStrips` | src/App.jsx:57 | `trimStart` leaves the suffix of the input that follows its leading spaces, and does not itself start with a space |
| `JsText.TrimEndStrips` | src/App.jsx:57 | `trimEnd` leaves the prefix of the input that precedes its trailing spaces, and does not itself end with a space |
| `JsText.BlankIffAllSpace` | src/App.jsx:57 | `!title.trim()` holds exactly when every character of the title is ECMAScript whitespace or a line terminator (this includes the empty title) |
| `JsText.Includes` | src/App.jsx:44 | `includes` finds a prefix and never finds a string longer than the message; `JsText.IncludesIffOccurs` gives the full meaning |
| `JsText.IncludesIffOccurs` | src/App.jsx:44 | `message.includes(sub)` holds exactly when `sub` occurs at some position of the message |
| `JsText.Decimal` | src/App.jsx:108 | `String(n)` is non-empty, starts with `-` exactly when `n` is negative, and otherwise starts with a digit; after a `-` a digit follows |
| `JsText.NatDigits` | src/App.jsx:108 | the decimal form of a non-negative integer is non-empty, all decimal digits, and has no leading zero |
| `JsText.NatDigitsValue` | src/App.jsx:108 | the decimal digits of `n` denote `n` |
| `JsText.ParseInt` | src/App.jsx:118 | `parseInt` is `NaN` when, after the leading whitespace and one optional sign, no decimal digit follows |
| `JsText.ParseUnsigned` | src/App.jsx:118 | the unsigned part of `parseInt` is `NaN` unless it starts with a decimal digit |
| `JsText.ParseDecimal` | src/App.jsx:118 | `parseInt` of the decimal form of any integer gives back that integer |
| `Kanban.TableMissing` | src/App.jsx:44 | a load error is taken as a missing table exactly when `relation` or `does not exist` occurs at some position of its message |
| `Kanban.DemoBoard` | src/App.jsx:46-49 | the two demo cards have distinct ids; one shows in `todo`, none in `doing`, one in `done` |
| `Kanban.MissingRelationDetected` | src/App.jsx:44 | any message containing `relation` or `does not exist` is classified as a missing table |
| `Kanban.DropTarget` | src/App.jsx:118-121 | a drop acts only on a parsed id that is neither `NaN` nor `0`, and then on exactly the parsed value |
| `Kanban.DragCarriesId` | src/App.jsx:108-121 | the id a card is dragged with reaches the status update unchanged; a card with id 0 is never moved |
| `Kanban.Board.constructor` | src/App.jsx:11-14 | the component mounts with no cards, the empty form (`medium` priority), `loading` set and no error, over whatever local storage holds |
| `Kanban.Board.Saved` | src/App.jsx:74 | the mirror read with an absent entry taken as `[]` |
| `Kanban.Board.LoadTasks` | src/App.jsx:36-54 | the store's rows replace the list; on failure the message becomes the error; when the message says the table is missing, the list becomes the stored mirror, or the two demo cards when nothing is stored; any other failure leaves the list alone; `loading` ends false |
| `Kanban.Board.EditTitle` | src/App.jsx:155 | only the form's title changes |
| `Kanban.Board.EditDescription` | src/App.jsx:162 | only the form's description changes |
| `Kanban.Board.EditPriority` | src/App.jsx:167 | only the form's priority changes |
| `Kanban.Board.AddTask` | src/App.jsx:56-80 | a blank title changes nothing; otherwise the form is reset; with the store up the list and mirror stay; with the store down the mirror becomes the old mirror plus one card (given id, form's title, description and priority, status `todo`) and the list equals the new mirror |
| `Kanban.Board.DeleteTask` | src/App.jsx:82-92 | with the store up nothing changes locally; with the store down both the mirror and the list become the old mirror without the cards with that id |
| `Kanban.Board.UpdateStatusAsWritten` | src/App.jsx:94-104 | whatever the store's state, both the mirror and the list become the old mirror with that id's status changed |
| `Kanban.Board.UpdateStatus` | src/App.jsx:94-104 | the corrected handler: with the store up nothing changes locally; with the store down both the mirror and the list become the old mirror with that id's status changed |
| `Kanban.Board.HandleDropAsWritten` | src/App.jsx:116-122 | the source's drop: data that parses to `NaN` or `0` changes nothing; otherwise, whatever the store's state, both the mirror and the list become the old mirror with the parsed id's status changed |
| `Kanban.Board.HandleDrop` | src/App.jsx:116-122 | the drop over the corrected `UpdateStatus`: data that parses to `NaN` or `0` changes nothing; otherwise with the store up nothing changes locally, and with the store down the mirror and the list take the status change |
| `Kanban.Board.OnChange` | src/App.jsx:21-29 | a change notification replaces the list by its merge with the notification and touches no other state |
| `Kanban.ReleaseScenario` | src/App.jsx:56-121 | with the store down, the card "Plan release" shows in `todo` after creation, only in `doing` after the drop, and nowhere after the delete, and the mirror ends empty |
| `Kanban.DropAfterRemoteLoadAsWritten` | src/App.jsx:94-122 | with the source's handlers, one card loaded from the store and no mirror, a drop on `doing` empties the board (a card with id 0 is never dropped and stays) |
| `Kanban.DropAfterRemoteLoad` | src/App.jsx:94-104 | with the corrected handler, the same drop keeps the card, and the store's `UPDATE` puts it in `doing` |

## Findings

| source | as written | input that shows it | evidently intended | confidence | as-written member | corrected member |
|---|---|---|---|---|---|---|
| src/App.jsx:96 | `updateStatus` calls `tasksApi.updateStatus`, which the store client does not define (`src/supabase.js:9-47` has `getAll`, `add`, `update`, `delete`). The call always throws, so every drop takes the local-fallback branch and replaces the list with the mirror | assuming the component survives its mount (which needs a `subscribe` the store client lacks, see "Left out"): store reachable, list loaded from the store as one card `t` with a non-zero id, no `kanban-tasks` entry; drop `t` on `doing`: the list becomes empty and the store never gets the new status | call the store's `update(id, { status })` and fall back only on a store failure, as `addTask` and `deleteTask` do | high; not executed | `Kanban.DropAfterRemoteLoadAsWritten` (over `Kanban.Board.HandleDropAsWritten` and `Kanban.Board.UpdateStatusAsWritten`) | `Kanban.Board.UpdateStatus` (used by `Kanban.Board.HandleDrop`, shown by `Kanban.DropAfterRemoteLoad`) |

`Kanban.Board.HandleDropAsWritten` is the drop as written: every accepted drop
rewrites the mirror and the list. `Kanban.Board.HandleDrop` is the same drop
over the corrected `UpdateStatus`. With the store down, the two do the same thing.

## Left out

- The store client (`src/supabase.js`) is not part of this model. A store call
  either succeeds or fails; the rows a load returns are a parameter. Its
  `getAll` turns a `null` result into `[]`; here that is already in `Fetched(rows)`.
- The store client defines no `subscribe` (`src/supabase.js:9-47`), so as
  written `src/App.jsx:21` throws a TypeError inside the mount effect. Nothing
  in the component catches it and no error boundary is in sight, so React
  unmounts the tree: as written, no handler ever runs and no notification
  ever arrives. Every handler and scenario in `Kanban`, and the finding
  under `## Findings`, assume that the mount survives, that is, that a
  subscription exists. The merge (`Tasks.Merge`, `Board.OnChange`) models the
  callback as written. Unsubscribing on unmount is not modelled.
- The comments API is not modelled: the component never uses it.
- Asynchrony is not modelled: there are no interleavings of in-flight calls
  with notifications or with each other. Each handler is one atomic step, and
  `loading` is modelled only at its final value.
- `localStorage` and JSON are not modelled. The mirror is the decoded list.
  An entry that is absent or the empty string counts as `None`; both reads in
  the source (`saved ? … : …` and `… || '[]'`) treat it the same way. Corrupt
  JSON, which would throw from `JSON.parse`, is not modelled.
- `Date.now()` is a parameter, `freshId`. Nothing forces it to be new;
  `Tasks.LocalChangesKeepIdsUnique` states what follows when it is new.
- Server-assigned fields (`created_at`, and the id of a card created through
  the store) are not modelled. A `Task` holds only the fields the component reads.
- Numbers are mathematical integers. JavaScript ids lose precision above
  2^53 and print in exponent form from 10^21; `JsText.ParseDecimal` does not
  cover these cases. Only `parseInt`'s behaviour on strings is modelled, not
  how it converts non-string arguments.
- Characters are Unicode scalar values, not UTF-16 code units. The whitespace
  set, the digits and the searched substrings are all in the Basic
  Multilingual Plane, so the two agree on them.
- Rendering, styling, the priority colours and the DOM drag events are not
  modelled. From the drag events, only the id passed through `setData` and
  `getData` is kept.
