# Board/ticket store: a Dafny model

This project models the board/ticket store of a React kanban client
(`src/scripts/stores/ticket.js`). The store keeps an ordered list of boards.
Each board has an id, a name, an access code, a background, a size, and its
own ordered list of tickets. A ticket has an id, a color, some content, an
`{x, y}` position and an `updatedAt` time.

In the source the list is a module-level `Immutable.List`. Every mutator
returns a new list and does not change the old one. The model takes the
list as a value (`seq<Board>`) and returns the next one.

- `Records` (`records.dfy`): the records, and the objects callers pass in.
  Patch fields are `Option`s. A string field is *truthy* when it is present
  and non-empty. `size` and `position` are truthy whenever present, because
  any JavaScript object is truthy. `Normalize` keeps exactly the fields a
  stored ticket has. The store invariant is `WellFormed`: board ids are
  unique, and ticket ids are unique within a board.
- `Find` (`find.dfy`): `FindIndex` gives the first index with a given id, or
  -1. `RemoveAt` removes one entry by index.
- `Queries` (`queries.dfy`): `getBoards`, `getBoard`, `getTickets`,
  `getTicket`. Where the source returns `null`, the model returns `None`.
- `Boards` (`boards.dfy`): `_addBoard`, `_removeBoard`, `_editBoard`.
- `Tickets` (`tickets.dfy`): `_addTicket` (one ticket or an array),
  `_removeTicket`, `_editTicket`. Each inner `update` callback is a function
  on the ticket list.
- `StoreProperties` (`store_properties.dfy`): properties that relate several
  operations. These are round trips, idempotent edits, what the queries see
  after a mutation, and preservation of the invariant.
- `ZLayer` (`zlayer.dfy`): the z-layer routine, which is commented out in the
  source. It stable-sorts tickets by `updatedAt`, maps each id to its rank,
  and gives each ticket the rank of its id.

Where the code and the intended behaviour differ, the model follows the
intended behaviour:

- Several lines read `b.id`, `board.tickets`, `oldBoard.tickets` or `t.id` as
  plain properties of an `Immutable.Map`, where `get('id')` /
  `get('tickets')` is meant (ticket.js:88, 98, 100, 108, 111, 112, 219, 243,
  249, 264, 271). The model reads the stored field. For `getBoard`, the code as written
  is modelled as well; see Findings.
- The array branch of `_addTicket` has a stray comma (ticket.js:215) that
  does not parse. It is modelled as the intended map.
- If `_addTicket` does not find the board, it pushes a placeholder board that
  holds only the id. It then updates index -1, which Immutable reads as the
  last entry, so the update hits the placeholder (ticket.js:200-203). In the
  model the placeholder has empty metadata and an empty ticket list. In the
  source the placeholder has no `tickets` entry, so the single-ticket branch
  would fail on it. The model appends the ticket to the empty list instead.
- The source also assigns the longer list to the module variable at
  ticket.js:201. The model returns the new list and has no side effects.

## Model

| member | source | states |
|---|---|---|
| `Find.FindIndex` | src/scripts/stores/ticket.js:134-136 | -1 exactly when no entry has the id; otherwise the index of the first entry with it |
| `Find.RemoveAt` | src/scripts/stores/ticket.js:161 | one entry fewer; entries before the index are kept in place, and later ones shift down by one |
| `Find.RemoveAtMultiset` | src/scripts/stores/ticket.js:249 | removing at an index takes out exactly one copy of that entry and nothing else |
| `Records.NormalizeKeepsExactlyStoredFields` | src/scripts/stores/ticket.js:219-228 | a stored ticket survives normalisation unchanged; a `z` and foreign fields on the input have no effect on the stored ticket |
| `Queries.GetBoards` | src/scripts/stores/ticket.js:76-81 | one summary per board, in store order, carrying that board's id, name, access code, background and size (and no tickets) |
| `Queries.GetBoard` | src/scripts/stores/ticket.js:86-91 | `None` exactly when no board has the id; otherwise the summary listed for the first such board |
| `Queries.GetTickets` | src/scripts/stores/ticket.js:96-101 | `None` exactly when no board has the id; otherwise the first such board's tickets |
| `Queries.GetTicket` | src/scripts/stores/ticket.js:106-117 | `Some` exactly when the board exists and holds a ticket with that id; then it is the first such ticket |
| `Queries.GetBoardAgreesWithGetBoards` | src/scripts/stores/ticket.js:76-91 | a board that `getBoard` returns is in `getBoards`; when board ids are unique, `getBoard` returns every listed summary for its id |
| `Queries.GetBoardBy` | src/scripts/stores/ticket.js:87-90 | the search returns the first board whose id reads as the key (no earlier board's id does), or `None` only when no board's id reads as the key |
| `Queries.GetBoardByStoredId` | src/scripts/stores/ticket.js:87-90 | when the stored id is read (`get('id')`), the search is exactly `GetBoard` |
| `Queries.GetBoardAsWrittenFindsNothing` | src/scripts/stores/ticket.js:88 | when `b.id` is read as written, the search returns nothing in any store, even when `GetBoard` finds the board |
| `Boards.EditBoard` | src/scripts/stores/ticket.js:167-190 | an unknown id leaves the list unchanged; otherwise only the first matching board changes. Its id, name, access code and background each take the patch value when it is truthy and keep the old value otherwise. The size changes only when supplied, and the tickets are kept |
| `Boards.AddBoard` | src/scripts/stores/ticket.js:133-149 | a new id appends exactly one board, built from the input with no tickets, after the unchanged list; an existing id gives exactly the edit with the input as patch |
| `Boards.AddBoardExistingIsEdit` | src/scripts/stores/ticket.js:148 | for an existing id the length is kept and only the first matching board changes; it keeps its id and tickets and merges the input's fields |
| `Boards.RemoveBoard` | src/scripts/stores/ticket.js:154-162 | an unknown id leaves the list unchanged; otherwise only the first board with the id is removed. The length drops by one, the other boards keep their order, and exactly one copy of the id leaves the id multiset |
| `Boards.RemoveBoardUndoesAddBoard` | src/scripts/stores/ticket.js:133-162 | removing a board just added under a fresh id gives back the original list |
| `Boards.EditBoardIdempotent` | src/scripts/stores/ticket.js:174-189 | a second edit with the same patch changes nothing, as long as the patch keeps the board's id |
| `Boards.AddBoardPreservesWellFormed` | src/scripts/stores/ticket.js:137-148 | adding keeps board ids unique and ticket ids unique per board |
| `Boards.RemoveBoardPreservesWellFormed` | src/scripts/stores/ticket.js:154-162 | removing keeps the store well formed and leaves no board with the removed id |
| `Boards.EditBoardPreservesWellFormed` | src/scripts/stores/ticket.js:176 | an edit keeps the store well formed unless it renames a board to an id another board already has |
| `Tickets.AddToTickets` | src/scripts/stores/ticket.js:204-228 | an array becomes the whole list: same length, same order, each ticket normalised. A single ticket is appended, normalised, after the unchanged existing tickets |
| `Tickets.RemoveFromTickets` | src/scripts/stores/ticket.js:243-249 | an unknown ticket id leaves the list unchanged; otherwise only the first ticket with it is removed and the others keep their order |
| `Tickets.EditInTickets` | src/scripts/stores/ticket.js:264-284 | an unknown ticket id leaves the list unchanged; otherwise only the first matching ticket changes. Its id, color and content follow truthy-overwrite; its position becomes the patch's `{x, y}` only when the patch has one; its `updatedAt` is always the patch's |
| `Tickets.AddTicket` | src/scripts/stores/ticket.js:196-230 | for a known board, only that board's ticket list changes, as `AddToTickets` says, and every other board is untouched. For an unknown board, one placeholder board is appended, with only the id and the added tickets |
| `Tickets.RemoveTicket` | src/scripts/stores/ticket.js:235-251 | an unknown board leaves the list unchanged; otherwise only that board's ticket list changes, as `RemoveFromTickets` says, with the board count and metadata kept |
| `Tickets.EditTicket` | src/scripts/stores/ticket.js:256-286 | an unknown board leaves the list unchanged; otherwise only that board's ticket list changes, as `EditInTickets` says, with the board count and metadata kept |
| `StoreProperties.TicketMutationsKeepBoardSummaries` | src/scripts/stores/ticket.js:196-286 | adding a ticket to an existing board, removing a ticket, or editing one never changes what `getBoards` returns |
| `StoreProperties.BulkLoadReplacesTickets` | src/scripts/stores/ticket.js:204-217 | after an array add, `getTickets` returns exactly the normalised array, whether or not the board existed |
| `StoreProperties.GetTicketAfterAddTicket` | src/scripts/stores/ticket.js:219-228 | after a single add with an id new to the board, `getTicket` returns exactly the normalised ticket |
| `StoreProperties.RemoveFromTicketsUndoesAppend` | src/scripts/stores/ticket.js:243-249 | removing a just-appended ticket with a fresh id gives back the board's list |
| `StoreProperties.RemoveTicketUndoesAddTicket` | src/scripts/stores/ticket.js:235-251 | removing a ticket just added to an existing board under a fresh id gives back the original store |
| `StoreProperties.GetTicketAfterEditTicket` | src/scripts/stores/ticket.js:256-286 | after an edit that keeps the ticket's id, `getTicket` finds the ticket, and it is the old ticket with the patch merged in |
| `StoreProperties.EditTicketIdempotent` | src/scripts/stores/ticket.js:270-284 | a second ticket edit with the same patch changes nothing, as long as the patch keeps the ticket's id |
| `StoreProperties.EditBoardKeepsTickets` | src/scripts/stores/ticket.js:185-187 | a board edit that keeps the id leaves `getTickets` for that id unchanged |
| `StoreProperties.AddTicketPreservesWellFormed` | src/scripts/stores/ticket.js:196-230 | adding keeps the store well formed when the single ticket's id is new to the board, or when the array's ids are distinct |
| `StoreProperties.RemoveFromTicketsKeepsUniqueIds` | src/scripts/stores/ticket.js:249 | removing a ticket keeps the list's ticket ids unique |
| `StoreProperties.RemoveTicketPreservesWellFormed` | src/scripts/stores/ticket.js:235-251 | removing a ticket keeps the store well formed |
| `StoreProperties.EditTicketPreservesWellFormed` | src/scripts/stores/ticket.js:273 | a ticket edit keeps the store well formed unless it renames the ticket to an id its board already holds |
| `ZLayer.Insert` | src/scripts/stores/ticket.js:428-430 | inserting a new position into a list ordered by (updatedAt, position) adds one entry and keeps the list strictly ordered |
| `ZLayer.SortedOrder` | src/scripts/stores/ticket.js:428-430 | the first n positions, each exactly once, in strictly ascending (updatedAt, position) order, which is the stable sort |
| `ZLayer.SortByUpdatedAt` | src/scripts/stores/ticket.js:428-430 | a rearrangement of the input: place `p` holds the ticket at the `p`-th index of the stable order, and `updatedAt` never decreases along the list |
| `ZLayer.SortedHoldsEveryTicket` | src/scripts/stores/ticket.js:428-430 | every input ticket, and so its id, appears in the sorted list |
| `ZLayer.ZMap` | src/scripts/stores/ticket.js:433-436 | the map's keys are exactly the ids in the sorted list, and each id maps to an index holding that id |
| `ZLayer.ZMapKeepsLastIndex` | src/scripts/stores/ticket.js:434-436 | later writes win: no index after an id's entry holds the same id |
| `ZLayer.ZLayers` | src/scripts/stores/ticket.js:440-443 | one z per ticket; what the z values are is stated by the lemmas below |
| `ZLayer.ZLayerIsSortedPlaceOfId` | src/scripts/stores/ticket.js:433-443 | each z is a place in the sorted list that holds a ticket with the same id |
| `ZLayer.ZLayersInRange` | src/scripts/stores/ticket.js:433-443 | every z lies in `0 .. N-1` |
| `ZLayer.ZLayersAreSortedPlaces` | src/scripts/stores/ticket.js:425-444 | with distinct ids, a ticket's z is where the stable sort places it |
| `ZLayer.ZLayersPermutation` | src/scripts/stores/ticket.js:425-444 | with distinct ids, no two tickets share a z and every value in `0 .. N-1` is used, so z is a permutation |
| `ZLayer.ZLayersRespectOrder` | src/scripts/stores/ticket.js:428-430 | with distinct ids, a ticket that comes first in the stable order gets a lower z |
| `ZLayer.ZLayersFollowUpdatedAt` | src/scripts/stores/ticket.js:418-444 | with distinct ids, an earlier `updatedAt` gives a lower z, and tickets with equal `updatedAt` get z in their original relative order |
| `ZLayer.ZLayersOfOrderedTickets` | src/scripts/stores/ticket.js:418-444 | tickets already in `updatedAt` order (for example three with the same time) get z = 0, 1, 2, … in list order |

## Left out

- The action switch and the change notification (ticket.js:291-346) are left out. They call helpers that the live code does not define, and `createStore` is not part of this model. This also leaves out the confirm-after-optimistic-add replace (`ADD_TICKET_SUCCESS`), the choice of which actions trigger a z-layer recompute, and setting the active ticket.
- The module variables `_boards` and `_active` (ticket.js:66-71) and `getActiveTicket` are left out. The store is threaded through the functions as a value, and the active ticket is a single assignment with no logic.
- Immutable's structural sharing and the `toJS` conversions are left out. Values are Dafny sequences and datatypes.
- The rest of the commented-out single-list store (ticket.js:348-416, 446-451) is left out. It is superseded, and its `_update` reads the clock.
- JavaScript numbers are left out. `x`, `y`, `updatedAt`, `width` and `height` are unbounded integers, with no floating point.
- A board string field that the input lacks (`undefined` in the source) is stored as `""`. Both are falsy, so every later merge treats them alike; only the rendered output differs.
- The model requires a ticket input to have a `position`. In the source, reading `position.x` on a ticket without one would throw.
- `RawTicket` requires `color` and `content` to be strings and `updatedAt` to be an integer. `_addTicket` (ticket.js:207-214, 220-227) copies whatever the input has, so an input without them would store `undefined`.
- `TicketPatch.updatedAt` is a required integer. The source copies whatever the patch has, so a patch without it would store `undefined`.
- A board id or ticket id that is not a string is not modelled; ids are compared as strings.
- `ZLayer.ZLayers` gives the ranks as a list. It does not write them into `position.z`, because stored positions hold only `x` and `y`.
- ZLayer properties (`ZLayersPermutation`, `ZLayersFollowUpdatedAt`) are stated only when a board's ticket ids are distinct. With a repeated id, the source's id-keyed map gives every copy the last rank written for it.

## Findings

| source | as written | input that shows it | evidently intended | confidence | as-written member | corrected member |
|---|---|---|---|---|---|---|
| src/scripts/stores/ticket.js:88 | `b.id === boardID` reads a plain property of an `Immutable.Map`, which is always `undefined`, so `getBoard` never finds a board (the `b.id` reads at lines 98 and 108 and the `t.id` read at line 112 are the same mistake) | a store with one board whose id is `"b1"`, queried for `"b1"` | `b.get('id') === boardID` | high; not executed | `Queries.GetBoardAsWrittenFindsNothing` | `Queries.GetBoardByStoredId` |
