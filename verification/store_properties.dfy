/** Properties that relate several operations of the store: what the queries
    see after a mutation, mutations that undo each other, idempotent edits,
    and the store invariant (unique board ids, unique ticket ids per board)
    that the mutators keep. */
module StoreProperties {
  import opened Wrappers
  import opened Records
  import opened Find
  import opened Queries
  import opened Boards
  import opened Tickets

  /** A change confined to one board's tickets is invisible to `GetBoards`. */
  lemma SummariesIgnoreTickets(bs: seq<Board>, r: seq<Board>, i: int)
    requires OnlyTicketsOf(bs, r, i)
    ensures GetBoards(r) == GetBoards(bs)
  {
    assert forall j :: 0 <= j < |bs| ==> GetBoards(r)[j] == GetBoards(bs)[j];
  }

  /** Ticket mutators never change what `GetBoards` reports. */
  lemma TicketMutationsKeepBoardSummaries(bs: seq<Board>, boardId: string, ticketId: string, p: TicketPatch, arg: TicketArg)
    ensures GetBoards(RemoveTicket(bs, boardId, ticketId)) == GetBoards(bs)
    ensures GetBoards(EditTicket(bs, boardId, ticketId, p)) == GetBoards(bs)
    ensures boardId in Ids(bs) ==> GetBoards(AddTicket(bs, boardId, arg)) == GetBoards(bs)
  {
    var i := FindIndex(Ids(bs), boardId);
    if i >= 0 {
      SummariesIgnoreTickets(bs, RemoveTicket(bs, boardId, ticketId), i);
      SummariesIgnoreTickets(bs, EditTicket(bs, boardId, ticketId, p), i);
      SummariesIgnoreTickets(bs, AddTicket(bs, boardId, arg), i);
    }
  }

  /** A bulk load replaces the board's tickets with exactly the normalised
      array, whether or not the board existed before. */
  lemma {:induction false} BulkLoadReplacesTickets(bs: seq<Board>, boardId: string, raws: seq<RawTicket>)
    ensures GetTickets(AddTicket(bs, boardId, Many(raws)), boardId)
         == Some(seq(|raws|, k requires 0 <= k < |raws| => Normalize(raws[k])))
  {
    var r := AddTicket(bs, boardId, Many(raws));
    var i := FindIndex(Ids(bs), boardId);
    if i >= 0 {
      assert Ids(r)[..i] == Ids(bs)[..i];
      assert IsFirst(Ids(r), boardId, i);
    } else {
      assert Ids(r) == Ids(bs) + [boardId];
      assert IsFirst(Ids(r), boardId, |bs|);
    }
  }

  /** Adding a single ticket whose id the board does not hold yet makes
      `GetTicket` return exactly the normalised ticket, whether or not the
      board existed before. */
  lemma {:induction false} GetTicketAfterAddTicket(bs: seq<Board>, boardId: string, raw: RawTicket)
    requires boardId in Ids(bs) ==> raw.id !in TicketIds(GetTickets(bs, boardId).value)
    ensures GetTicket(AddTicket(bs, boardId, One(raw)), boardId, raw.id) == Some(Normalize(raw))
  {
    var r := AddTicket(bs, boardId, One(raw));
    var i := FindIndex(Ids(bs), boardId);
    var at := if i >= 0 then i else |bs|;
    if i >= 0 {
      assert Ids(r)[..i] == Ids(bs)[..i];
    } else {
      assert Ids(r) == Ids(bs) + [boardId];
    }
    assert IsFirst(Ids(r), boardId, at);
    var old_ts := if i >= 0 then bs[i].tickets else [];
    assert TicketIds(r[at].tickets) == TicketIds(old_ts) + [raw.id];
    assert IsFirst(TicketIds(r[at].tickets), raw.id, |old_ts|);
  }

  /** On one board's list: removing the ticket just appended under a fresh
      id gives the list back. */
  lemma {:induction false} RemoveFromTicketsUndoesAppend(ts: seq<Ticket>, raw: RawTicket)
    requires raw.id !in TicketIds(ts)
    ensures RemoveFromTickets(AddToTickets(ts, One(raw)), raw.id) == ts
  {
    var us := AddToTickets(ts, One(raw));
    assert TicketIds(us) == TicketIds(ts) + [raw.id];
    assert IsFirst(TicketIds(us), raw.id, |ts|);
  }

  /** Removing a ticket just added under a fresh id gives back the store it
      was added to. */
  lemma {:induction false} RemoveTicketUndoesAddTicket(bs: seq<Board>, boardId: string, raw: RawTicket)
    requires boardId in Ids(bs)
    requires raw.id !in TicketIds(GetTickets(bs, boardId).value)
    ensures RemoveTicket(AddTicket(bs, boardId, One(raw)), boardId, raw.id) == bs
  {
    var r := AddTicket(bs, boardId, One(raw));
    var i := FindIndex(Ids(bs), boardId);
    assert Ids(r)[..i] == Ids(bs)[..i];
    assert IsFirst(Ids(r), boardId, i);
    RemoveFromTicketsUndoesAppend(bs[i].tickets, raw);
    assert r[i].(tickets := bs[i].tickets) == bs[i];
  }

  /** After an edit that keeps the ticket's id, `GetTicket` finds the edited
      ticket, and it is the old one with the patch merged in. */
  lemma {:induction false} GetTicketAfterEditTicket(bs: seq<Board>, boardId: string, ticketId: string, p: TicketPatch)
    requires GetTicket(bs, boardId, ticketId).Some?
    requires KeepsTicketId(p, ticketId)
    ensures GetTicket(EditTicket(bs, boardId, ticketId, p), boardId, ticketId).Some?
    ensures EditedTicket(GetTicket(bs, boardId, ticketId).value, p,
                         GetTicket(EditTicket(bs, boardId, ticketId, p), boardId, ticketId).value)
  {
    var r := EditTicket(bs, boardId, ticketId, p);
    var i := FindIndex(Ids(bs), boardId);
    assert Ids(r)[..i] == Ids(bs)[..i];
    assert IsFirst(Ids(r), boardId, i);
    var ts := bs[i].tickets;
    var k := FindIndex(TicketIds(ts), ticketId);
    assert TicketIds(r[i].tickets)[..k] == TicketIds(ts)[..k];
    assert IsFirst(TicketIds(r[i].tickets), ticketId, k);
  }

  /** Editing a ticket twice with a patch that keeps its id is the same as
      editing it once. */
  lemma {:induction false} EditTicketIdempotent(bs: seq<Board>, boardId: string, ticketId: string, p: TicketPatch)
    requires KeepsTicketId(p, ticketId)
    ensures EditTicket(EditTicket(bs, boardId, ticketId, p), boardId, ticketId, p) == EditTicket(bs, boardId, ticketId, p)
  {
    var r := EditTicket(bs, boardId, ticketId, p);
    var i := FindIndex(Ids(bs), boardId);
    if i >= 0 {
      assert Ids(r)[..i] == Ids(bs)[..i];
      assert IsFirst(Ids(r), boardId, i);
      var ts := bs[i].tickets;
      var k := FindIndex(TicketIds(ts), ticketId);
      if k >= 0 {
        var rs := r[i].tickets;
        assert TicketIds(rs)[..k] == TicketIds(ts)[..k];
        assert IsFirst(TicketIds(rs), ticketId, k);
        var again := EditInTickets(rs, ticketId, p);
        assert again[k] == rs[k];
        assert again == rs;
        assert r[i := r[i].(tickets := again)] == r;
      }
    }
  }

  /** Editing a board never changes any board's tickets, so with a patch
      that keeps the id, `GetTickets` answers as before. */
  lemma {:induction false} EditBoardKeepsTickets(bs: seq<Board>, boardId: string, p: BoardPatch)
    requires KeepsId(p, boardId)
    ensures GetTickets(EditBoard(bs, boardId, p), boardId) == GetTickets(bs, boardId)
  {
    var r := EditBoard(bs, boardId, p);
    var i := FindIndex(Ids(bs), boardId);
    if i >= 0 {
      assert Ids(r)[..i] == Ids(bs)[..i];
      assert IsFirst(Ids(r), boardId, i);
    }
  }

  /** Adding a ticket keeps the store well formed when its id is new to the
      board (one ticket) or the array's ids are distinct (bulk load). */
  lemma AddTicketPreservesWellFormed(bs: seq<Board>, boardId: string, arg: TicketArg)
    requires WellFormed(bs)
    requires arg.One? && boardId in Ids(bs) ==> arg.ticket.id !in TicketIds(GetTickets(bs, boardId).value)
    requires arg.Many? ==> UniqueTicketIds(AddToTickets([], arg))
    ensures WellFormed(AddTicket(bs, boardId, arg))
  {
    var r := AddTicket(bs, boardId, arg);
    var i := FindIndex(Ids(bs), boardId);
    var at := if i >= 0 then i else |bs|;
    var prior := if i >= 0 then bs[i].tickets else [];
    if i >= 0 {
      assert Ids(r) == Ids(bs);
    } else {
      assert Ids(r) == Ids(bs) + [boardId];
    }
    if arg.One? {
      assert TicketIds(r[at].tickets) == TicketIds(prior) + [arg.ticket.id];
    } else {
      assert r[at].tickets == AddToTickets([], arg);
    }
    assert forall j :: 0 <= j < |r| && j != at ==> r[j] == bs[j];
  }

  /** On one board's list: removal keeps the ticket ids distinct. */
  lemma RemoveFromTicketsKeepsUniqueIds(ts: seq<Ticket>, ticketId: string)
    requires UniqueTicketIds(ts)
    ensures UniqueTicketIds(RemoveFromTickets(ts, ticketId))
  {
    var rs := RemoveFromTickets(ts, ticketId);
    var k := FindIndex(TicketIds(ts), ticketId);
    if k >= 0 {
      forall a, b | 0 <= a < b < |rs|
        ensures rs[a].id != rs[b].id
      {
        var a' := if a < k then a else a + 1;
        var b' := if b < k then b else b + 1;
        assert rs[a] == ts[a'] && rs[b] == ts[b'];
        assert TicketIds(ts)[a'] != TicketIds(ts)[b'];
      }
    }
  }

  /** A change confined to one board's tickets keeps the store well formed
      when that board's new ticket ids are distinct. */
  lemma OnlyTicketsKeepWellFormed(bs: seq<Board>, r: seq<Board>, i: int)
    requires WellFormed(bs)
    requires OnlyTicketsOf(bs, r, i)
    requires UniqueTicketIds(r[i].tickets)
    ensures WellFormed(r)
  {
    assert Ids(r) == Ids(bs);
  }

  lemma RemoveTicketPreservesWellFormed(bs: seq<Board>, boardId: string, ticketId: string)
    requires WellFormed(bs)
    ensures WellFormed(RemoveTicket(bs, boardId, ticketId))
  {
    var i := FindIndex(Ids(bs), boardId);
    if i >= 0 {
      RemoveFromTicketsKeepsUniqueIds(bs[i].tickets, ticketId);
      OnlyTicketsKeepWellFormed(bs, RemoveTicket(bs, boardId, ticketId), i);
    }
  }

  /** Renaming a ticket to an id its board does not hold keeps the store
      well formed. */
  lemma EditTicketPreservesWellFormed(bs: seq<Board>, boardId: string, ticketId: string, p: TicketPatch)
    requires WellFormed(bs)
    requires boardId in Ids(bs) && !KeepsTicketId(p, ticketId) ==> p.id.value !in TicketIds(GetTickets(bs, boardId).value)
    ensures WellFormed(EditTicket(bs, boardId, ticketId, p))
  {
    var r := EditTicket(bs, boardId, ticketId, p);
    var i := FindIndex(Ids(bs), boardId);
    if i >= 0 {
      assert Ids(r) == Ids(bs);
      var ts := bs[i].tickets;
      var k := FindIndex(TicketIds(ts), ticketId);
      if k >= 0 {
        var rs := r[i].tickets;
        forall a, b | 0 <= a < b < |rs|
          ensures rs[a].id != rs[b].id
        {
          assert TicketIds(ts)[a] == ts[a].id && TicketIds(ts)[b] == ts[b].id;
        }
      }
    }
  }
}
