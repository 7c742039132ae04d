/** Records held by the board/ticket store (src/scripts/stores/ticket.js),
    the shapes of the objects callers hand to its mutators, and the
    JavaScript truthiness that its merge rules test. */
module Records {
  import opened Wrappers

  datatype Size = Size(width: int, height: int)

  /** A stored position: only `x` and `y` are kept; `z` is derived on the
      client and never stored (see module ZLayer). */
  datatype Position = Position(x: int, y: int)

  /** A position as it arrives on an input object, possibly carrying a `z`. */
  datatype RawPosition = RawPosition(x: int, y: int, z: Option<int>)

  datatype Ticket = Ticket(
    id: string,
    color: string,
    content: string,
    position: Position,
    updatedAt: int
  )

  /** A ticket object as a caller passes it in: the stored fields plus any
      foreign fields it happens to carry. */
  datatype RawTicket = RawTicket(
    id: string,
    color: string,
    content: string,
    position: RawPosition,
    updatedAt: int,
    foreign: map<string, string>
  )

  /** A board owns its ordered tickets. `size` is `None` for the empty map
      that `Immutable.Map(undefined)` gives a board created without one. */
  datatype Board = Board(
    id: string,
    name: string,
    accessCode: string,
    background: string,
    size: Option<Size>,
    tickets: seq<Ticket>
  )

  /** What the queries hand out for a board: every field but `tickets`. */
  datatype BoardSummary = BoardSummary(
    id: string,
    name: string,
    accessCode: string,
    background: string,
    size: Option<Size>
  )

  /** The object `_addBoard` receives; its id is what the lookup uses. */
  datatype BoardInput = BoardInput(
    id: string,
    name: Option<string>,
    accessCode: Option<string>,
    background: Option<string>,
    size: Option<Size>
  ) {
    /** The same object read as an edit patch, as `_addBoard` passes it to
        `_editBoard` when the board already exists. */
    function AsPatch(): BoardPatch {
      BoardPatch(Some(id), name, accessCode, background, size)
    }
  }

  /** An edit for a board; a missing field is `None`. */
  datatype BoardPatch = BoardPatch(
    id: Option<string>,
    name: Option<string>,
    accessCode: Option<string>,
    background: Option<string>,
    size: Option<Size>
  )

  /** An edit for a ticket. `updatedAt` is not optional: the edit always
      copies it. */
  datatype TicketPatch = TicketPatch(
    id: Option<string>,
    color: Option<string>,
    content: Option<string>,
    position: Option<RawPosition>,
    updatedAt: int
  )

  /** The argument of `_addTicket`: one ticket, or an array of them. */
  datatype TicketArg = One(ticket: RawTicket) | Many(tickets: seq<RawTicket>)

  /** A string-valued patch field is truthy in JavaScript when it is present
      and not the empty string. Object-valued fields (`size`, `position`) are
      truthy whenever present, so for them `Some?` is the test. */
  predicate Truthy(s: Option<string>) {
    s.Some? && s.value != ""
  }

  /** `patch || prior` for a string field. */
  function Overwrite(patch: Option<string>, prior: string): string {
    if Truthy(patch) then patch.value else prior
  }

  /** `now` is what a truthy-overwrite merge of `patch` onto `prior` gives:
      the patch value when it is truthy, the prior value otherwise. */
  predicate Merged(patch: Option<string>, prior: string, now: string) {
    && (Truthy(patch) ==> now == patch.value)
    && (!Truthy(patch) ==> now == prior)
  }

  /** The fields a stored ticket keeps of a caller's ticket object. */
  function Normalize(t: RawTicket): Ticket {
    Ticket(t.id, t.color, t.content, Position(t.position.x, t.position.y), t.updatedAt)
  }

  /** A stored ticket seen as an input object with nothing extra on it. */
  function AsRaw(t: Ticket): RawTicket {
    RawTicket(t.id, t.color, t.content, RawPosition(t.position.x, t.position.y, None), t.updatedAt, map[])
  }

  /** A ticket survives normalisation unchanged, and normalisation ignores
      the input's `z` and foreign fields: it keeps exactly the stored fields. */
  lemma NormalizeKeepsExactlyStoredFields(t: Ticket, raw: RawTicket, z: Option<int>, foreign: map<string, string>)
    ensures Normalize(AsRaw(t)) == t
    ensures Normalize(raw.(position := raw.position.(z := z), foreign := foreign)) == Normalize(raw)
  {
  }

  function Summary(b: Board): BoardSummary {
    BoardSummary(b.id, b.name, b.accessCode, b.background, b.size)
  }

  /** The board `_addTicket` creates when the board is unknown: only an id. */
  function Placeholder(id: string): Board {
    Board(id, "", "", "", None, [])
  }

  /** The ids of the boards, in order. */
  function Ids(bs: seq<Board>): (r: seq<string>)
    ensures |r| == |bs|
    ensures forall i :: 0 <= i < |bs| ==> r[i] == bs[i].id
  {
    seq(|bs|, i requires 0 <= i < |bs| => bs[i].id)
  }

  /** The ids of the tickets, in order: the same projection as `Ids`, over
      the other record type (the source looks both up by `id`). */
  function TicketIds(ts: seq<Ticket>): (r: seq<string>)
    ensures |r| == |ts|
    ensures forall i :: 0 <= i < |ts| ==> r[i] == ts[i].id
  {
    seq(|ts|, i requires 0 <= i < |ts| => ts[i].id)
  }

  /** No two boards share an id. */
  predicate UniqueBoardIds(bs: seq<Board>) {
    forall i, j :: 0 <= i < j < |bs| ==> bs[i].id != bs[j].id
  }

  /** No two tickets share an id. */
  predicate UniqueTicketIds(ts: seq<Ticket>) {
    forall i, j :: 0 <= i < j < |ts| ==> ts[i].id != ts[j].id
  }

  /** The store's invariant: board ids are unique, and within each board the
      ticket ids are unique. */
  predicate WellFormed(bs: seq<Board>) {
    && UniqueBoardIds(bs)
    && forall i :: 0 <= i < |bs| ==> UniqueTicketIds(bs[i].tickets)
  }
}
