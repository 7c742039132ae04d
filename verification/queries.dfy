/** The read side of the store: `getBoards`, `getBoard`, `getTickets` and
    `getTicket` of src/scripts/stores/ticket.js. Each looks a board up by id
    (the first board with that id, as Immutable's `find` does) and answers
    `None` where the source answers `null`. Board summaries have no tickets.

    The source reads `b.id`, `board.tickets` and `t.id` as plain properties
    of an `Immutable.Map`, where `b.get('id')` and so on are meant: the
    functions here use the stored fields. `GetBoardAsWritten` models the
    lookup as written, to record what it does instead. */
module Queries {
  import opened Wrappers
  import opened Records
  import opened Find

  /** Every board's summary, in store order. */
  function GetBoards(bs: seq<Board>): (r: seq<BoardSummary>)
    ensures |r| == |bs|
    ensures forall i :: 0 <= i < |bs| ==>
      && r[i].id == bs[i].id && r[i].name == bs[i].name
      && r[i].accessCode == bs[i].accessCode && r[i].background == bs[i].background
      && r[i].size == bs[i].size
  {
    seq(|bs|, i requires 0 <= i < |bs| => Summary(bs[i]))
  }

  /** The summary of the first board with id `boardId`, if any. */
  function GetBoard(bs: seq<Board>, boardId: string): (r: Option<BoardSummary>)
    ensures r.None? <==> boardId !in Ids(bs)
    ensures forall i :: IsFirst(Ids(bs), boardId, i) ==> r == Some(GetBoards(bs)[i])
  {
    var i := FindIndex(Ids(bs), boardId);
    if i < 0 then None else Some(Summary(bs[i]))
  }

  /** The tickets of the first board with id `boardId`, if any. */
  function GetTickets(bs: seq<Board>, boardId: string): (r: Option<seq<Ticket>>)
    ensures r.None? <==> boardId !in Ids(bs)
    ensures forall i :: IsFirst(Ids(bs), boardId, i) ==> r == Some(bs[i].tickets)
  {
    var i := FindIndex(Ids(bs), boardId);
    if i < 0 then None else Some(bs[i].tickets)
  }

  /** The first ticket with id `ticketId` on the first board with id
      `boardId`; `None` when either is missing. */
  function GetTicket(bs: seq<Board>, boardId: string, ticketId: string): (r: Option<Ticket>)
    ensures r.Some? <==> boardId in Ids(bs) && ticketId in TicketIds(GetTickets(bs, boardId).value)
    ensures forall k :: boardId in Ids(bs) && IsFirst(TicketIds(GetTickets(bs, boardId).value), ticketId, k) ==>
      r == Some(GetTickets(bs, boardId).value[k])
  {
    var i := FindIndex(Ids(bs), boardId);
    if i < 0 then None
    else
      var k := FindIndex(TicketIds(bs[i].tickets), ticketId);
      if k < 0 then None else Some(bs[i].tickets[k])
  }

  /** A board that `GetBoard` finds is one of the summaries `GetBoards`
      lists, and when board ids are unique `GetBoard` finds every listed one. */
  lemma GetBoardAgreesWithGetBoards(bs: seq<Board>, boardId: string)
    requires UniqueBoardIds(bs)
    ensures GetBoard(bs, boardId).Some? ==> GetBoard(bs, boardId).value in GetBoards(bs)
    ensures forall s :: s in GetBoards(bs) && s.id == boardId ==> GetBoard(bs, boardId) == Some(s)
  {
    var i := FindIndex(Ids(bs), boardId);
    if i >= 0 {
      assert GetBoard(bs, boardId).value == GetBoards(bs)[i];
    }
    forall s | s in GetBoards(bs) && s.id == boardId
      ensures GetBoard(bs, boardId) == Some(s)
    {
      var j :| 0 <= j < |GetBoards(bs)| && GetBoards(bs)[j] == s;
      assert IsFirst(Ids(bs), boardId, j);
    }
  }

  /** What a plain JavaScript property read gives on an `Immutable.Map`. */
  datatype JsValue = Undefined | JsString(s: string)

  /** An `Immutable.Map` keeps its entries internally, not as properties of
      the object, so reading `b.id` gives `undefined` whatever the entries. */
  function PlainProperty(b: Board, key: string): JsValue {
    Undefined
  }

  /** `getBoard`'s search, with the read of a board's id left as a
      parameter: the summary of the first board whose id reads as
      `boardId`, as Immutable's `find` returns. */
  function GetBoardBy(bs: seq<Board>, boardId: string, readId: Board -> JsValue): (r: Option<BoardSummary>)
    ensures r.Some? ==> exists i :: 0 <= i < |bs| && readId(bs[i]) == JsString(boardId) && r.value == Summary(bs[i]) && (forall j :: 0 <= j < i ==> readId(bs[j]) != JsString(boardId))
    ensures r.None? ==> forall i :: 0 <= i < |bs| ==> readId(bs[i]) != JsString(boardId)
  {
    if |bs| == 0 then None
    else if readId(bs[0]) == JsString(boardId) then Some(Summary(bs[0]))
    else
      var r := GetBoardBy(bs[1..], boardId, readId);
      assert r.Some? ==> readId(bs[1..][0]) == readId(bs[1]);
      r
  }

  /** Reading the stored id, the search is `GetBoard`. */
  lemma {:induction false} GetBoardByStoredId(bs: seq<Board>, boardId: string)
    ensures GetBoardBy(bs, boardId, (b: Board) => JsString(b.id)) == GetBoard(bs, boardId)
  {
    if |bs| > 0 && bs[0].id != boardId {
      GetBoardByStoredId(bs[1..], boardId);
      assert Ids(bs) == [bs[0].id] + Ids(bs[1..]);
    }
  }

  /** As written (`b.id` on an `Immutable.Map`), the search finds nothing in
      any store, even where `GetBoard` finds the board. */
  lemma GetBoardAsWrittenFindsNothing(bs: seq<Board>, boardId: string)
    ensures GetBoardBy(bs, boardId, (b: Board) => PlainProperty(b, "id")) == None
    ensures boardId in Ids(bs) ==> GetBoard(bs, boardId).Some?
  {
  }
}
