/** Ticket mutators of src/scripts/stores/ticket.js: `_addTicket`,
    `_removeTicket` and `_editTicket`. Each finds the board by id and rewrites
    only that board's ticket list, with the callback Immutable's `update`
    receives modelled as a function on the ticket list (`AddToTickets`,
    `RemoveFromTickets`, `EditInTickets`). */
module Tickets {
  import opened Wrappers
  import opened Records
  import opened Find

  /** `t` is `prior` edited by `p`: id, color and content follow
      truthy-overwrite, the position is replaced as a whole `{x, y}` only
      when the patch has one, and `updatedAt` is always the patch's. */
  predicate EditedTicket(prior: Ticket, p: TicketPatch, t: Ticket) {
    && Merged(p.id, prior.id, t.id)
    && Merged(p.color, prior.color, t.color)
    && Merged(p.content, prior.content, t.content)
    && (p.position.Some? ==> t.position == Position(p.position.value.x, p.position.value.y))
    && (p.position.None? ==> t.position == prior.position)
    && t.updatedAt == p.updatedAt
  }

  /** Only board `i` may differ between `bs` and `r`, and only in its
      tickets. */
  predicate OnlyTicketsOf(bs: seq<Board>, r: seq<Board>, i: int) {
    && |r| == |bs|
    && 0 <= i < |bs|
    && Summary(r[i]) == Summary(bs[i])
    && forall j :: 0 <= j < |bs| && j != i ==> r[j] == bs[j]
  }

  /** A ticket patch that leaves the ticket's id where it was. */
  predicate KeepsTicketId(p: TicketPatch, id: string) {
    !Truthy(p.id) || p.id.value == id
  }

  /** The callback of `_addTicket`: an array replaces the whole list, one
      ticket is appended; every ticket is normalised on the way in. The
      array branch is modelled as meant: as written, a stray comma after the
      mapped ticket (ticket.js:215) does not parse. The append reads the
      board's tickets with `get`, where the source reads `board.tickets`. */
  function AddToTickets(prior: seq<Ticket>, arg: TicketArg): (r: seq<Ticket>)
    ensures arg.Many? ==> |r| == |arg.tickets| && forall k :: 0 <= k < |r| ==> r[k] == Normalize(arg.tickets[k])
    ensures arg.One? ==> |r| == |prior| + 1 && r[..|prior|] == prior && r[|prior|] == Normalize(arg.ticket)
  {
    match arg
    case Many(raws) => seq(|raws|, k requires 0 <= k < |raws| => Normalize(raws[k]))
    case One(raw) => prior + [Normalize(raw)]
  }

  /** The callback of `_removeTicket`: drop the first ticket with that id. */
  function RemoveFromTickets(ts: seq<Ticket>, ticketId: string): (r: seq<Ticket>)
    ensures ticketId !in TicketIds(ts) ==> r == ts
    ensures ticketId in TicketIds(ts) ==> |r| == |ts| - 1
    ensures multiset(TicketIds(r)) == multiset(TicketIds(ts)) - multiset{ticketId}
    ensures forall k :: IsFirst(TicketIds(ts), ticketId, k) ==>
      && (forall j :: 0 <= j < k ==> r[j] == ts[j])
      && (forall j :: k <= j < |r| ==> r[j] == ts[j + 1])
  {
    var k := FindIndex(TicketIds(ts), ticketId);
    if k < 0 then ts
    else
      assert TicketIds(RemoveAt(ts, k)) == RemoveAt(TicketIds(ts), k);
      RemoveAtMultiset(TicketIds(ts), k);
      RemoveAt(ts, k)
  }

  /** The callback of `_editTicket`: merge the patch into the first ticket
      with that id. */
  function EditInTickets(ts: seq<Ticket>, ticketId: string, p: TicketPatch): (r: seq<Ticket>)
    ensures |r| == |ts|
    ensures ticketId !in TicketIds(ts) ==> r == ts
    ensures forall k :: IsFirst(TicketIds(ts), ticketId, k) ==>
      && EditedTicket(ts[k], p, r[k])
      && forall j :: 0 <= j < |ts| && j != k ==> r[j] == ts[j]
  {
    var k := FindIndex(TicketIds(ts), ticketId);
    if k < 0 then ts
    else
      var prior := ts[k];
      ts[k := Ticket(
        Overwrite(p.id, prior.id),
        Overwrite(p.color, prior.color),
        Overwrite(p.content, prior.content),
        if p.position.Some? then Position(p.position.value.x, p.position.value.y) else prior.position,
        p.updatedAt)]
  }

  /** `_addTicket`. An unknown board is first appended as a placeholder
      holding only its id (empty metadata, no tickets); the update then
      targets index -1, which Immutable reads as the last entry, i.e. the
      placeholder. In the source the placeholder has no `tickets` entry at
      all, so appending one ticket to it would fail; here it starts with an
      empty list. The source also stores the longer list in the module's
      board list as a side effect; here the new list is only returned. */
  function AddTicket(bs: seq<Board>, boardId: string, arg: TicketArg): (r: seq<Board>)
    ensures boardId in Ids(bs) ==> |r| == |bs|
    ensures forall i :: IsFirst(Ids(bs), boardId, i) ==>
      && OnlyTicketsOf(bs, r, i)
      && r[i].tickets == AddToTickets(bs[i].tickets, arg)
    ensures boardId !in Ids(bs) ==>
      && |r| == |bs| + 1
      && r[..|bs|] == bs
      && Summary(r[|bs|]) == BoardSummary(boardId, "", "", "", None)
      && r[|bs|].tickets == AddToTickets([], arg)
  {
    var i := FindIndex(Ids(bs), boardId);
    var list := if i < 0 then bs + [Placeholder(boardId)] else bs;
    var at := if i < 0 then |list| - 1 else i;
    list[at := list[at].(tickets := AddToTickets(list[at].tickets, arg))]
  }

  /** `_removeTicket`: no change when the board or the ticket is unknown.
      The ticket list is read with `get` where the source reads
      `board.tickets`. */
  function RemoveTicket(bs: seq<Board>, boardId: string, ticketId: string): (r: seq<Board>)
    ensures |r| == |bs|
    ensures boardId !in Ids(bs) ==> r == bs
    ensures forall i :: IsFirst(Ids(bs), boardId, i) ==>
      && OnlyTicketsOf(bs, r, i)
      && r[i].tickets == RemoveFromTickets(bs[i].tickets, ticketId)
  {
    var i := FindIndex(Ids(bs), boardId);
    if i < 0 then bs
    else bs[i := bs[i].(tickets := RemoveFromTickets(bs[i].tickets, ticketId))]
  }

  /** `_editTicket`: no change when the board or the ticket is unknown.
      The ticket list is read with `get` where the source reads
      `oldBoard.tickets`. */
  function EditTicket(bs: seq<Board>, boardId: string, ticketId: string, p: TicketPatch): (r: seq<Board>)
    ensures |r| == |bs|
    ensures boardId !in Ids(bs) ==> r == bs
    ensures forall i :: IsFirst(Ids(bs), boardId, i) ==>
      && OnlyTicketsOf(bs, r, i)
      && r[i].tickets == EditInTickets(bs[i].tickets, ticketId, p)
  {
    var i := FindIndex(Ids(bs), boardId);
    if i < 0 then bs
    else bs[i := bs[i].(tickets := EditInTickets(bs[i].tickets, ticketId, p))]
  }
}
