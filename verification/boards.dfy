/** Board mutators of src/scripts/stores/ticket.js: `_addBoard`,
    `_removeBoard` and `_editBoard`. Each takes the current board list and
    returns the next one; an unknown id leaves the list as it was. */
module Boards {
  import opened Wrappers
  import opened Records
  import opened Find

  /** `b` is `prior` edited by `p`: metadata follows truthy-overwrite, the
      size is replaced only when supplied, the tickets are kept. */
  predicate EditedBoard(prior: Board, p: BoardPatch, b: Board) {
    && Merged(p.id, prior.id, b.id)
    && Merged(p.name, prior.name, b.name)
    && Merged(p.accessCode, prior.accessCode, b.accessCode)
    && Merged(p.background, prior.background, b.background)
    && (p.size.Some? ==> b.size == p.size)
    && (p.size.None? ==> b.size == prior.size)
    && b.tickets == prior.tickets
  }

  /** `b` is the board `_addBoard` creates from `nb`: a field the input
      lacks is left empty, and there are no tickets yet. */
  predicate CreatedBoard(nb: BoardInput, b: Board) {
    && b.id == nb.id
    && b.name == nb.name.GetOr("")
    && b.accessCode == nb.accessCode.GetOr("")
    && b.background == nb.background.GetOr("")
    && b.size == nb.size
    && b.tickets == []
  }

  /** A patch that leaves the board's id where it was. */
  predicate KeepsId(p: BoardPatch, id: string) {
    !Truthy(p.id) || p.id.value == id
  }

  function EditBoard(bs: seq<Board>, boardId: string, p: BoardPatch): (r: seq<Board>)
    ensures |r| == |bs|
    ensures boardId !in Ids(bs) ==> r == bs
    ensures forall i :: IsFirst(Ids(bs), boardId, i) ==>
      && EditedBoard(bs[i], p, r[i])
      && forall j :: 0 <= j < |bs| && j != i ==> r[j] == bs[j]
  {
    var i := FindIndex(Ids(bs), boardId);
    if i < 0 then bs
    else
      var prior := bs[i];
      bs[i := Board(
        Overwrite(p.id, prior.id),
        Overwrite(p.name, prior.name),
        Overwrite(p.accessCode, prior.accessCode),
        Overwrite(p.background, prior.background),
        if p.size.Some? then p.size else prior.size,
        // The tickets are kept, so editing a board never touches them.
        prior.tickets)]
  }

  function AddBoard(bs: seq<Board>, nb: BoardInput): (r: seq<Board>)
    ensures nb.id !in Ids(bs) ==> |r| == |bs| + 1 && r[..|bs|] == bs && CreatedBoard(nb, r[|bs|])
    ensures nb.id in Ids(bs) ==> r == EditBoard(bs, nb.id, nb.AsPatch())
  {
    var i := FindIndex(Ids(bs), nb.id);
    if i < 0 then
      bs + [Board(nb.id, nb.name.GetOr(""), nb.accessCode.GetOr(""), nb.background.GetOr(""), nb.size, [])]
    else
      EditBoard(bs, nb.id, nb.AsPatch())
  }

  function RemoveBoard(bs: seq<Board>, boardId: string): (r: seq<Board>)
    ensures boardId !in Ids(bs) ==> r == bs
    ensures boardId in Ids(bs) ==> |r| == |bs| - 1
    ensures multiset(Ids(r)) == multiset(Ids(bs)) - multiset{boardId}
    ensures forall i :: IsFirst(Ids(bs), boardId, i) ==>
      && (forall k :: 0 <= k < i ==> r[k] == bs[k])
      && (forall k :: i <= k < |r| ==> r[k] == bs[k + 1])
  {
    var i := FindIndex(Ids(bs), boardId);
    if i < 0 then bs
    else
      assert Ids(RemoveAt(bs, i)) == RemoveAt(Ids(bs), i);
      RemoveAtMultiset(Ids(bs), i);
      RemoveAt(bs, i)
  }

  /** Adding a board under a fresh id and then removing that id gives back
      the list it started from. */
  lemma RemoveBoardUndoesAddBoard(bs: seq<Board>, nb: BoardInput)
    requires nb.id !in Ids(bs)
    ensures RemoveBoard(AddBoard(bs, nb), nb.id) == bs
  {
    var r := AddBoard(bs, nb);
    assert Ids(r) == Ids(bs) + [nb.id];
    assert nb.id !in Ids(r)[..|bs|];
    assert IsFirst(Ids(r), nb.id, |bs|);
  }

  /** `_addBoard` on an existing id is an edit: the length is kept, the
      first board with that id takes the input's truthy fields and keeps its
      tickets, and every other board is untouched. */
  lemma AddBoardExistingIsEdit(bs: seq<Board>, nb: BoardInput, i: int)
    requires IsFirst(Ids(bs), nb.id, i)
    ensures |AddBoard(bs, nb)| == |bs|
    ensures AddBoard(bs, nb)[i].id == nb.id
    ensures AddBoard(bs, nb)[i].tickets == bs[i].tickets
    ensures EditedBoard(bs[i], nb.AsPatch(), AddBoard(bs, nb)[i])
    ensures forall j :: 0 <= j < |bs| && j != i ==> AddBoard(bs, nb)[j] == bs[j]
  {
  }

  /** Editing twice with a patch that keeps the id is the same as editing
      once. */
  lemma {:induction false} EditBoardIdempotent(bs: seq<Board>, boardId: string, p: BoardPatch)
    requires KeepsId(p, boardId)
    ensures EditBoard(EditBoard(bs, boardId, p), boardId, p) == EditBoard(bs, boardId, p)
  {
    var r := EditBoard(bs, boardId, p);
    var i := FindIndex(Ids(bs), boardId);
    if i >= 0 {
      assert Ids(r)[..i] == Ids(bs)[..i];
      assert IsFirst(Ids(r), boardId, i);
    }
  }

  lemma AddBoardPreservesWellFormed(bs: seq<Board>, nb: BoardInput)
    requires WellFormed(bs)
    ensures WellFormed(AddBoard(bs, nb))
  {
    var r := AddBoard(bs, nb);
    if nb.id !in Ids(bs) {
      assert Ids(r) == Ids(bs) + [nb.id];
    } else {
      assert Ids(r) == Ids(bs);
    }
  }

  lemma RemoveBoardPreservesWellFormed(bs: seq<Board>, boardId: string)
    requires WellFormed(bs)
    ensures WellFormed(RemoveBoard(bs, boardId))
    ensures boardId !in Ids(RemoveBoard(bs, boardId))
  {
    var r := RemoveBoard(bs, boardId);
    var i := FindIndex(Ids(bs), boardId);
    if i >= 0 {
      forall a, b | 0 <= a < b < |r|
        ensures r[a].id != r[b].id
      {
        var a' := if a < i then a else a + 1;
        var b' := if b < i then b else b + 1;
        assert r[a] == bs[a'] && r[b] == bs[b'];
      }
      forall k | 0 <= k < |r|
        ensures r[k].id != boardId
      {
        var k' := if k < i then k else k + 1;
        assert r[k] == bs[k'];
        assert Ids(bs)[k'] == boardId ==> k' == i;
      }
    }
  }

  /** Renaming a board to an id no other board has keeps the ids unique. */
  lemma EditBoardPreservesWellFormed(bs: seq<Board>, boardId: string, p: BoardPatch)
    requires WellFormed(bs)
    requires KeepsId(p, boardId) || p.id.value !in Ids(bs)
    ensures WellFormed(EditBoard(bs, boardId, p))
  {
    var r := EditBoard(bs, boardId, p);
    var i := FindIndex(Ids(bs), boardId);
    if i >= 0 {
      forall a, b | 0 <= a < b < |r|
        ensures r[a].id != r[b].id
      {
        if a == i {
          assert Ids(bs)[b] == bs[b].id;
        } else if b == i {
          assert Ids(bs)[a] == bs[a].id;
        }
      }
    }
  }
}
