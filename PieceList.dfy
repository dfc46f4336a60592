/** The piece list of the newer interface: pieces are appended with
    counter-numbered ids, deleted by id, and selected or deselected by a
    click. The counter is the module-level `pieceCounter`: it is created
    once, at the number of built-in pieces, and every mount of the list
    shares it, so a remount starts again from the built-in pieces but goes
    on counting where the last mount stopped. */
module PieceList {
  import opened Util
  import opened Decimal

  /** A piece; its performances are carried along but not looked into. */
  datatype Piece = Piece(id: string, name: string, performances: seq<string>)

  /** The id a new piece gets from counter value `n`. */
  function PieceId(n: nat): string
  {
    "piece-" + NatToDecimal(n)
  }

  /** Different counter values give different ids. */
  lemma PieceIdInjective(m: nat, n: nat)
    requires PieceId(m) == PieceId(n)
    ensures m == n
  {
    assert PieceId(m)[6..] == NatToDecimal(m);
    assert PieceId(n)[6..] == NatToDecimal(n);
    NatToDecimalInjective(m, n);
  }

  /** Ids drawn from strictly increasing counter values are pairwise
      distinct. */
  lemma DistinctIds(counters: seq<nat>)
    requires forall i, j :: 0 <= i < j < |counters| ==> counters[i] < counters[j]
    ensures forall i, j :: 0 <= i < j < |counters| ==> PieceId(counters[i]) != PieceId(counters[j])
  {
    forall i, j | 0 <= i < j < |counters|
      ensures PieceId(counters[i]) != PieceId(counters[j])
    {
      if PieceId(counters[i]) == PieceId(counters[j]) {
        PieceIdInjective(counters[i], counters[j]);
      }
    }
  }

  /** `pieces.filter(piece => piece.id !== id)`. */
  function WithoutPiece(pieces: seq<Piece>, id: string): (r: seq<Piece>)
    ensures |r| <= |pieces|
    ensures forall p :: p in r <==> p in pieces && p.id != id
  {
    if pieces == [] then []
    else (if pieces[0].id != id then [pieces[0]] else []) + WithoutPiece(pieces[1..], id)
  }

  /** The filter keeps the order: filtering a concatenation filters each
      part in place. */
  lemma {:induction false} WithoutPieceAppend(x: seq<Piece>, y: seq<Piece>, id: string)
    ensures WithoutPiece(x + y, id) == WithoutPiece(x, id) + WithoutPiece(y, id)
  {
    if x == [] {
      assert x + y == y;
    } else {
      assert (x + y)[1..] == x[1..] + y;
      WithoutPieceAppend(x[1..], y, id);
    }
  }

  /** Deleting an id no piece has leaves the list as it is. */
  lemma {:induction false} WithoutAbsentPiece(pieces: seq<Piece>, id: string)
    requires forall i :: 0 <= i < |pieces| ==> pieces[i].id != id
    ensures WithoutPiece(pieces, id) == pieces
  {
    if pieces != [] {
      WithoutAbsentPiece(pieces[1..], id);
      assert pieces == [pieces[0]] + pieces[1..];
    }
  }

  /** A click on `piece`: it is deselected when it is the selected one (by
      id), and selected otherwise. */
  function Toggle(selected: Option<Piece>, piece: Piece): (r: Option<Piece>)
    ensures selected.Some? && selected.value.id == piece.id ==> r == None
    ensures !(selected.Some? && selected.value.id == piece.id) ==> r == Some(piece)
  {
    if selected.Some? && selected.value.id == piece.id then None else Some(piece)
  }

  /** Two clicks on the same piece, starting from no selection or from
      another piece, come back to no selection. */
  lemma ToggleTwice(selected: Option<Piece>, piece: Piece)
    requires !(selected.Some? && selected.value.id == piece.id)
    ensures Toggle(Toggle(selected, piece), piece) == None
  {
  }

  /** The module-level `pieceCounter`, set when the module loads. */
  class PieceCounter {
    var value: nat
    /** The counter values `addPiece` has used, in order, over all mounts. */
    ghost var issued: seq<nat>

    /** Every counter value used is at most the counter, and they increase. */
    ghost predicate Valid()
      reads this
    {
      && (forall i :: 0 <= i < |issued| ==> issued[i] <= value)
      && (forall i, j :: 0 <= i < j < |issued| ==> issued[i] < issued[j])
    }

    /** `let pieceCounter = mockPieces.length`. */
    constructor (builtIn: seq<Piece>)
      ensures Valid()
      ensures value == |builtIn| && issued == []
    {
      value := |builtIn|;
      issued := [];
    }

    /** `pieceCounter++`, giving the new value. */
    method Next() returns (n: nat)
      requires Valid()
      modifies this
      ensures Valid()
      ensures value == old(value) + 1 && n == value
      ensures issued == old(issued) + [n]
    {
      value := value + 1;
      issued := issued + [value];
      n := value;
    }
  }

  /** One mount of the list. */
  class PieceList {
    const counter: PieceCounter
    var pieces: seq<Piece>
    var selected: Option<Piece>

    /** A mount: the pieces are the initial ones (`useState(mockPieces)`),
        nothing is selected, and the shared counter is left as it is. */
    constructor (counter: PieceCounter, initial: seq<Piece>)
      ensures this.counter == counter
      ensures pieces == initial && selected == None
    {
      this.counter := counter;
      pieces := initial;
      selected := None;
    }

    /** `addPiece()`: the shared counter goes up by one and a piece numbered
        by it is appended; the pieces before it are untouched. */
    method AddPiece()
      requires counter.Valid()
      modifies this, counter
      ensures counter.Valid()
      ensures counter.value == old(counter.value) + 1 && selected == old(selected)
      ensures pieces == old(pieces) + [Piece(PieceId(counter.value), "New Piece " + NatToDecimal(counter.value), [])]
      ensures counter.issued == old(counter.issued) + [counter.value]
    {
      var n := counter.Next();
      pieces := pieces + [Piece(PieceId(n), "New Piece " + NatToDecimal(n), [])];
    }

    /** `deletePiece(id)`: every piece with that id goes, the rest keep their
        order, and the selection is cleared exactly when it has that id. */
    method DeletePiece(id: string)
      modifies this
      ensures pieces == WithoutPiece(old(pieces), id)
      ensures selected == if old(selected).Some? && old(selected).value.id == id then None else old(selected)
    {
      pieces := WithoutPiece(pieces, id);
      if selected.Some? && selected.value.id == id {
        selected := None;
      }
    }

    /** A click on a listed piece. */
    method Click(piece: Piece)
      modifies this
      ensures pieces == old(pieces)
      ensures selected == Toggle(old(selected), piece)
    {
      selected := Toggle(selected, piece);
    }
  }

  /** Every id `addPiece` hands out, in any mount, is new: the ids of the
      issued counter values are pairwise distinct. */
  lemma IssuedIdsDistinct(counter: PieceCounter)
    requires counter.Valid()
    ensures forall i, j :: 0 <= i < j < |counter.issued| ==> PieceId(counter.issued[i]) != PieceId(counter.issued[j])
  {
    DistinctIds(counter.issued);
  }

  /** Three built-in pieces, a mount that adds one, and a second mount that
      adds one: the second mount starts from the built-in pieces again, and
      its new piece is `piece-5`, not a second `piece-4`. */
  method RemountScenario(builtIn: seq<Piece>) returns (first: Piece, second: Piece, remounted: seq<Piece>)
    requires |builtIn| == 3
    ensures first.id == "piece-4" && second.id == "piece-5"
    ensures remounted == builtIn + [second]
  {
    var counter := new PieceCounter(builtIn);
    var a := new PieceList(counter, builtIn);
    a.AddPiece();
    first := a.pieces[|a.pieces| - 1];
    var b := new PieceList(counter, builtIn);
    b.AddPiece();
    second := b.pieces[|b.pieces| - 1];
    remounted := b.pieces;
    assert NatToDecimal(4) == "4" && NatToDecimal(5) == "5";
  }
}
