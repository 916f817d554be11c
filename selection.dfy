/**
 * The click-driven selection state machine of `input`. The piece entities are
 * a table from entity id to piece; the selection resource is either `None` or
 * `Select(entity)`. A click selects the piece on an empty selection, and on a
 * selection despawns whatever stands on the clicked square and moves the
 * selected piece there.
 */
module Selection {
  import W = Wrappers
  import opened Coordinate
  import opened Pieces
  import Layout

  /** An entity id. */
  type Entity = nat

  datatype SelectionState = None | Select(entity: Entity)

  /** The mouse input of one frame: was the left button just pressed, and the cursor's board position if any. */
  datatype Click = Click(leftJustPressed: bool, cursor: W.Option<Pos>)

  /** The piece table and the selection, as one value. */
  datatype Session = Session(state: SelectionState, pieces: map<Entity, Piece>)

  /** The square a click acts on: none unless the button was just pressed on a cursor inside the bounds. */
  function ClickedSquare(click: Click): (r: W.Option<nat>)
    ensures r.Some? <==> click.leftJustPressed && click.cursor.Some? && !IsOutsideBoard(click.cursor.value)
    ensures r.Some? ==> r.value == IndexFromPos(click.cursor.value) && r.value <= 72
  {
    if click.leftJustPressed && click.cursor.Some? && !IsOutsideBoard(click.cursor.value) then
      IndexOfAcceptedClick(click.cursor.value);
      W.Some(IndexFromPos(click.cursor.value))
    else
      W.None
  }

  /** `target` is a possible result of searching the table for a piece on `square`. */
  predicate IsFound(pieces: map<Entity, Piece>, square: nat, target: W.Option<Entity>)
  {
    match target
    case None => forall e :: e in pieces ==> pieces[e].index != square
    case Some(e) => e in pieces && pieces[e].index == square
  }

  /** No two pieces share a square. */
  predicate OneOccupant(pieces: map<Entity, Piece>)
  {
    forall e1, e2 :: e1 in pieces && e2 in pieces && e1 != e2 ==> pieces[e1].index != pieces[e2].index
  }

  /**
   * The effect of an accepted click on `square`, where `target` is the piece the
   * search found there. A despawn is deferred and so applied after the move.
   */
  function Respond(s: Session, square: nat, target: W.Option<Entity>): (r: Session)
    ensures r.pieces.Keys <= s.pieces.Keys
    ensures r.state != s.state ==>
      (s.state == None && target.Some? && r.state == Select(target.value)) ||
      (s.state.Select? && s.state.entity in s.pieces && r.state == None)
  {
    match s.state
    case None =>
      if target.None? then s else Session(Select(target.value), s.pieces)
    case Select(p) =>
      var moved := if p in s.pieces then s.pieces[p := s.pieces[p].(index := square)] else s.pieces;
      var left := if target.Some? then moved - {target.value} else moved;
      Session(if p in s.pieces then None else s.state, left)
  }

  /** With no selection, a click selects the piece on the square if there is one, and moves nothing. */
  lemma IdleClick(s: Session, square: nat, target: W.Option<Entity>)
    requires s.state == None && IsFound(s.pieces, square, target)
    ensures Respond(s, square, target).pieces == s.pieces
    ensures Respond(s, square, target).state.Select? <==> exists e :: e in s.pieces && s.pieces[e].index == square
    ensures Respond(s, square, target).state.Select? ==>
      var e := Respond(s, square, target).state.entity;
      e in s.pieces && s.pieces[e].index == square
  {
  }

  /**
   * With a selected piece that still exists: whatever the search found on the
   * square is removed (no identity or side check, so a click on the selected
   * piece's own square removes it), the selected piece moves to the square, no
   * other piece changes, and the selection is cleared.
   */
  lemma SelectedClick(s: Session, square: nat, target: W.Option<Entity>)
    requires s.state.Select? && s.state.entity in s.pieces && IsFound(s.pieces, square, target)
    ensures var r := Respond(s, square, target);
      var p := s.state.entity;
      r.state == None &&
      (forall e :: e in r.pieces <==> e in s.pieces && target != W.Some(e)) &&
      (p in r.pieces ==> r.pieces[p] == s.pieces[p].(index := square)) &&
      (forall e :: e in r.pieces && e != p ==> r.pieces[e] == s.pieces[e]) &&
      (target.Some? ==> s.pieces[target.value].index == square)
  {
  }

  /**
   * With a selected piece that no longer exists: the occupant of the square is
   * still removed, nothing moves, and the selection is kept.
   */
  lemma SelectedMissingClick(s: Session, square: nat, target: W.Option<Entity>)
    requires s.state.Select? && s.state.entity !in s.pieces && IsFound(s.pieces, square, target)
    ensures var r := Respond(s, square, target);
      r.state == s.state &&
      (forall e :: e in r.pieces <==> e in s.pieces && target != W.Some(e)) &&
      (forall e :: e in r.pieces ==> r.pieces[e] == s.pieces[e])
  {
  }

  /** A click never creates a piece, removes at most one, and changes no piece's type or side. */
  lemma ClickRemovesAtMostOne(s: Session, square: nat, target: W.Option<Entity>)
    requires IsFound(s.pieces, square, target)
    ensures |Respond(s, square, target).pieces.Keys| + 1 >= |s.pieces.Keys|
    ensures forall e :: e in Respond(s, square, target).pieces ==>
      Respond(s, square, target).pieces[e].kind == s.pieces[e].kind &&
      Respond(s, square, target).pieces[e].side == s.pieces[e].side
  {
  }

  /** When no two pieces share a square, the search has exactly one possible result. */
  lemma FindIsUnique(pieces: map<Entity, Piece>, square: nat, t1: W.Option<Entity>, t2: W.Option<Entity>)
    requires OneOccupant(pieces) && IsFound(pieces, square, t1) && IsFound(pieces, square, t2)
    ensures t1 == t2
  {
  }

  /** A click keeps every square to at most one piece. */
  lemma ClickKeepsOneOccupant(s: Session, square: nat, target: W.Option<Entity>)
    requires OneOccupant(s.pieces) && IsFound(s.pieces, square, target)
    ensures OneOccupant(Respond(s, square, target).pieces)
  {
  }

  /**
   * A click on the accepted corner (200, 200) moves a selected piece to square
   * 72, outside the 64 squares, when every piece is on the board.
   */
  lemma CornerClickLeavesBoard(s: Session, target: W.Option<Entity>)
    requires s.state.Select? && s.state.entity in s.pieces
    requires forall e :: e in s.pieces ==> s.pieces[e].index < 64
    requires ClickedSquare(Click(true, W.Some(Pos(200.0, 200.0)))).Some?
    requires IsFound(s.pieces, ClickedSquare(Click(true, W.Some(Pos(200.0, 200.0)))).value, target)
    ensures target == W.None
    ensures Respond(s, ClickedSquare(Click(true, W.Some(Pos(200.0, 200.0)))).value, target).pieces[s.state.entity].index == 72
  {
  }

  /** The entity table `setup` spawns: the k-th placed piece becomes entity k. */
  function Spawned(layout: seq<Piece>): map<Entity, Piece>
  {
    map k | 0 <= k < |layout| :: layout[k]
  }

  /** A layout on strictly increasing squares spawns at most one piece per square. */
  lemma SpawnedOneOccupant(layout: seq<Piece>)
    requires forall j1, j2 :: 0 <= j1 < j2 < |layout| ==> layout[j1].index < layout[j2].index
    ensures OneOccupant(Spawned(layout))
  {
  }

  /** The board `setup` spawns from the starting layout has at most one piece per square. */
  lemma StartingBoardOneOccupant()
    ensures Layout.Scan(Layout.StartingFen).Ok?
    ensures OneOccupant(Spawned(Layout.Scan(Layout.StartingFen).value.placed))
  {
    Layout.StartingLayout();
    var placed := Layout.Scan(Layout.StartingFen).value.placed;
    Layout.ScanOrdered(Layout.StartingFen);
    SpawnedOneOccupant(placed);
  }

  /** The board's live state: the piece entities and the selection resource. */
  class Board {
    var state: SelectionState
    var pieces: map<Entity, Piece>

    /** `setup`: spawn the placed pieces and an empty selection. */
    constructor (layout: seq<Piece>)
      ensures state == None && pieces == Spawned(layout)
    {
      state := None;
      pieces := Spawned(layout);
    }

    /**
     * `input`: handle one frame's mouse input. Returns the piece the search
     * found on the clicked square, if the click got that far.
     */
    method Input(click: Click) returns (target: W.Option<Entity>)
      modifies this
      ensures ClickedSquare(click).None? ==>
        target == W.None && state == old(state) && pieces == old(pieces)
      ensures ClickedSquare(click).Some? ==>
        IsFound(old(pieces), ClickedSquare(click).value, target) &&
        Session(state, pieces) == Respond(Session(old(state), old(pieces)), ClickedSquare(click).value, target)
    {
      target := W.None;
      if !click.leftJustPressed { return; }
      if click.cursor.None? { return; }
      var cursor := click.cursor.value;
      if IsOutsideBoard(cursor) { return; }
      var clickedIndex := IndexFromPos(cursor);

      if e :| e in pieces && pieces[e].index == clickedIndex {
        target := W.Some(e);
      }

      match state
      case None =>
        if target.None? { return; }
        state := Select(target.value);
      case Select(selected) =>
        if selected in pieces {
          pieces := pieces[selected := pieces[selected].(index := clickedIndex)];
          state := None;
        }
        // the despawn of the square's occupant is deferred, so it takes effect after the move
        if target.Some? {
          pieces := pieces - {target.value};
        }
    }
  }
}
