/**
 * The starting-layout scanner of `setup`: a walk over a FEN-like string with a
 * running square index `i`. A '/' moves `i` to the start of the next rank, a
 * piece letter places one piece on square `i` and advances `i`, and any other
 * character aborts setup.
 */
module Layout {
  import opened Wrappers
  import opened Pieces

  /** The layout `setup` reads: light pieces on ranks 1-2, four empty ranks, dark pieces on ranks 7-8. */
  const StartingFen: string := "rnbqkbnrpppppppp////PPPPPPPPRNBQKBNR"

  /** Piece types of the back rank, file a to file h. */
  const BackRank: seq<PieceType> := [Rook, Knight, Bishop, Queen, King, Bishop, Knight, Rook]

  /** Setup stops on a character that names no piece type. */
  datatype LayoutError = InvalidStartingFen(bad: char)

  /** Scanner state: the running square index and the pieces placed so far. */
  datatype ScanState = ScanState(next: nat, placed: seq<Piece>)

  /** One character of the layout: rejected exactly when it is neither '/' nor a piece letter. */
  function Step(c: ScanState, f: char): (r: Option<ScanState>)
    ensures r.None? <==> f != '/' && PieceTypeFromFen(f).None?
    ensures r.Some? ==> r.value.next > c.next && |r.value.placed| <= |c.placed| + 1
  {
    if f == '/' then
      Some(ScanState(c.next - c.next % 8 + 8, c.placed))
    else
      match PieceTypeFromFen(f)
      case None => None
      case Some(ty) => Some(ScanState(c.next + 1, c.placed + [Piece(ty, SideFromFen(f), c.next)]))
  }

  /**
   * A '/' moves the running index to the next multiple of 8, strictly past it;
   * a piece letter places one piece of that letter's type on the running index
   * (Dark for upper case) and advances the index.
   */
  lemma StepMeaning(c: ScanState, f: char)
    ensures f == '/' ==>
      Step(c, f).Some? && Step(c, f).value.placed == c.placed &&
      Step(c, f).value.next % 8 == 0 && c.next < Step(c, f).value.next <= c.next + 8
    ensures f != '/' && Step(c, f).Some? ==>
      var r := Step(c, f).value;
      r.next == c.next + 1 &&
      |r.placed| == |c.placed| + 1 && r.placed[..|c.placed|] == c.placed &&
      var p := r.placed[|c.placed|];
      p.index == c.next &&
      (f == TypeLetter(p.kind) || f == ToUpper(TypeLetter(p.kind))) &&
      (p.side == Dark <==> IsUpper(f))
  {
    if f != '/' && Step(c, f).Some? {
      assert Step(c, f).value.placed[..|c.placed|] == c.placed;
    }
  }

  /**
   * The scanner's state after the whole string `s`, or the first character it
   * rejects, which is neither '/' nor a piece letter.
   */
  function Scan(s: string): (r: Result<ScanState, LayoutError>)
    ensures r.Err? ==> r.error.bad != '/' && PieceTypeFromFen(r.error.bad).None?
    decreases |s|
  {
    if s == [] then Ok(ScanState(0, []))
    else
      match Scan(s[..|s| - 1])
      case Err(e) => Err(e)
      case Ok(c) =>
        match Step(c, s[|s| - 1])
        case None => Err(InvalidStartingFen(s[|s| - 1]))
        case Some(c') => Ok(c')
  }

  /** Once a prefix is rejected, the whole string is rejected with the same error. */
  lemma {:induction false} ScanErrorPersists(s: string, k: nat)
    requires k <= |s|
    requires Scan(s[..k]).Err?
    ensures Scan(s) == Scan(s[..k])
    decreases |s| - k
  {
    if k < |s| {
      var s' := s[..k + 1];
      assert s'[..k] == s[..k];
      assert Scan(s') == Scan(s[..k]);
      ScanErrorPersists(s, k + 1);
    } else {
      assert s[..k] == s;
    }
  }

  /** Setup fails on every layout that holds a character other than '/' and the piece letters. */
  lemma ScanRejects(s: string, k: nat)
    requires k < |s| && s[k] != '/' && PieceTypeFromFen(s[k]).None?
    ensures Scan(s).Err?
  {
    assert s[..k + 1][..k] == s[..k];
    assert s[..k + 1][k] == s[k];
    ScanErrorPersists(s, k + 1);
  }

  /** Setup succeeds on every layout made only of '/' and piece letters. */
  lemma {:induction false} ScanAccepts(s: string)
    requires forall k :: 0 <= k < |s| ==> s[k] == '/' || PieceTypeFromFen(s[k]).Some?
    ensures Scan(s).Ok?
    decreases |s|
  {
    if s != [] {
      var s' := s[..|s| - 1];
      assert forall k :: 0 <= k < |s'| ==> s'[k] == s[k];
      ScanAccepts(s');
    }
  }

  /** The `setup` loop: place the pieces a layout describes, or report the bad character. */
  method Setup(fen: string) returns (res: Result<seq<Piece>, LayoutError>)
    ensures res.Ok? <==> Scan(fen).Ok?
    ensures res.Ok? ==> res.value == Scan(fen).value.placed
    ensures res.Err? ==> res.error == Scan(fen).error
  {
    var i: nat := 0;
    var placed: seq<Piece> := [];
    var k := 0;
    while k < |fen|
      invariant 0 <= k <= |fen|
      invariant Scan(fen[..k]) == Ok(ScanState(i, placed))
    {
      var f := fen[k];
      assert fen[..k + 1][..k] == fen[..k];
      if f == '/' {
        i := i - i % 8 + 8;
        k := k + 1;
        continue;
      }
      var ty := PieceTypeFromFen(f);
      if ty.None? {
        ScanErrorPersists(fen, k + 1);
        return Err(InvalidStartingFen(f));
      }
      placed := placed + [Piece(ty.value, SideFromFen(f), i)];
      i := i + 1;
      k := k + 1;
    }
    assert fen[..k] == fen;
    res := Ok(placed);
  }

  /** Placed pieces sit on strictly increasing squares below the running index: no square twice. */
  lemma {:induction false} ScanOrdered(s: string)
    requires Scan(s).Ok?
    ensures forall j :: 0 <= j < |Scan(s).value.placed| ==> Scan(s).value.placed[j].index < Scan(s).value.next
    ensures forall j1, j2 :: 0 <= j1 < j2 < |Scan(s).value.placed| ==>
      Scan(s).value.placed[j1].index < Scan(s).value.placed[j2].index
    decreases |s|
  {
    if s != [] {
      ScanOrdered(s[..|s| - 1]);
    }
  }

  predicate AllPieceLetters(t: string)
  {
    forall k :: 0 <= k < |t| ==> PieceTypeFromFen(t[k]).Some?
  }

  /** The pieces a run of piece letters places, starting on square `start`. */
  function Emit(t: string, start: nat): seq<Piece>
    requires AllPieceLetters(t)
  {
    seq(|t|, k requires 0 <= k < |t| => Piece(PieceTypeFromFen(t[k]).value, SideFromFen(t[k]), start + k))
  }

  /** Dropping the last letter of a run drops the last piece it places. */
  lemma EmitLast(t: string, start: nat)
    requires AllPieceLetters(t) && t != []
    ensures AllPieceLetters(t[..|t| - 1])
    ensures Emit(t, start) == Emit(t[..|t| - 1], start) +
      [Piece(PieceTypeFromFen(t[|t| - 1]).value, SideFromFen(t[|t| - 1]), start + |t| - 1)]
  {
  }

  /** A run of piece letters places one piece per letter on consecutive squares. */
  lemma {:induction false} ScanLetters(s: string, t: string)
    requires Scan(s).Ok? && AllPieceLetters(t)
    ensures Scan(s + t) == Ok(ScanState(Scan(s).value.next + |t|, Scan(s).value.placed + Emit(t, Scan(s).value.next)))
    decreases |t|
  {
    var c := Scan(s).value;
    if t == [] {
      assert s + t == s;
      assert c.placed + Emit(t, c.next) == c.placed;
    } else {
      var t' := t[..|t| - 1];
      var f := t[|t| - 1];
      EmitLast(t, c.next);
      ScanLetters(s, t');
      assert s + t == (s + t') + [f];
      ScanStep(s + t', f);
      var p := Piece(PieceTypeFromFen(f).value, SideFromFen(f), c.next + |t'|);
      assert (c.placed + Emit(t', c.next)) + [p] == c.placed + Emit(t, c.next);
    }
  }

  /** Appending one character to an accepted prefix applies one step. */
  lemma ScanStep(u: string, f: char)
    requires Scan(u).Ok?
    ensures Scan(u + [f]) == match Step(Scan(u).value, f)
      case None => Err(InvalidStartingFen(f))
      case Some(c) => Ok(c)
  {
    assert (u + [f])[..|u|] == u;
  }

  /** A '/' moves the running index to the start of the next rank. */
  lemma ScanSlash(s: string)
    requires Scan(s).Ok?
    ensures Scan(s + "/") == Ok(ScanState(Scan(s).value.next - Scan(s).value.next % 8 + 8, Scan(s).value.placed))
  {
  }

  const LightRanks: string := "rnbqkbnrpppppppp"
  const DarkRanks: string := "PPPPPPPPRNBQKBNR"

  /** Both sixteen-letter runs of the starting layout consist of piece letters. */
  lemma RunsArePieceLetters()
    ensures AllPieceLetters(LightRanks) && AllPieceLetters(DarkRanks)
  {
  }

  /** Four rank skips after square 16 move the running index to square 48. */
  lemma ScanFourSkips(s: string)
    requires Scan(s).Ok? && Scan(s).value.next == 16
    ensures Scan(s + "////") == Ok(ScanState(48, Scan(s).value.placed))
  {
    var ps := Scan(s).value.placed;
    ScanSlash(s);
    var s1 := s + "/";
    assert Scan(s1) == Ok(ScanState(24, ps));
    ScanSlash(s1);
    var s2 := s1 + "/";
    assert Scan(s2) == Ok(ScanState(32, ps));
    ScanSlash(s2);
    var s3 := s2 + "/";
    assert Scan(s3) == Ok(ScanState(40, ps));
    ScanSlash(s3);
    assert s3 + "/" == s + "////";
  }

  /** Sixteen piece letters, four rank skips and another run: the second run starts on square 48. */
  lemma ScanTwoRuns(light: string, dark: string)
    requires AllPieceLetters(light) && AllPieceLetters(dark) && |light| == 16
    ensures Scan(light + "////" + dark) == Ok(ScanState(48 + |dark|, Emit(light, 0) + Emit(dark, 48)))
  {
    var empty: string := [];
    assert empty + light == light;
    ScanLetters(empty, light);
    var lit := Emit(light, 0);
    assert [] + lit == lit;
    assert Scan(light) == Ok(ScanState(16, lit));
    ScanFourSkips(light);
    ScanLetters(light + "////", dark);
  }

  /** The starting layout is two runs of sixteen letters separated by four rank skips. */
  lemma StartingScan()
    ensures AllPieceLetters(LightRanks) && AllPieceLetters(DarkRanks)
    ensures Scan(StartingFen) == Ok(ScanState(64, Emit(LightRanks, 0) + Emit(DarkRanks, 48)))
  {
    RunsArePieceLetters();
    ScanTwoRuns(LightRanks, DarkRanks);
    assert LightRanks + "////" + DarkRanks == StartingFen;
  }

  /** Letter k of either sixteen-letter run: the back rank, then pawns (light), or the reverse (dark). */
  lemma RunLetters(k: nat)
    requires k < 16
    ensures PieceTypeFromFen(LightRanks[k]) == Some(if k < 8 then BackRank[k] else Pawn)
    ensures PieceTypeFromFen(DarkRanks[k]) == Some(if k >= 8 then BackRank[k - 8] else Pawn)
    ensures SideFromFen(LightRanks[k]) == Light && SideFromFen(DarkRanks[k]) == Dark
  {
  }

  /** Square, side and type of the k-th piece the starting layout places. */
  function StartingPiece(k: nat): Piece
    requires k < 32
  {
    if k < 16 then Piece(if k < 8 then BackRank[k] else Pawn, Light, k)
    else Piece(if k >= 24 then BackRank[k - 24] else Pawn, Dark, k + 32)
  }

  lemma StartingPieces()
    ensures Scan(StartingFen).Ok? && |Scan(StartingFen).value.placed| == 32
    ensures forall k :: 0 <= k < 32 ==> Scan(StartingFen).value.placed[k] == StartingPiece(k)
  {
    StartingScan();
    var placed := Scan(StartingFen).value.placed;
    forall k | 0 <= k < 32 ensures placed[k] == StartingPiece(k) {
      if k < 16 {
        RunLetters(k);
        assert placed[k] == Emit(LightRanks, 0)[k];
      } else {
        RunLetters(k - 16);
        assert placed[k] == Emit(DarkRanks, 48)[k - 16];
      }
    }
  }

  lemma StartingPieceFacts(k: nat)
    requires k < 32
    ensures var p := StartingPiece(k);
      !(16 <= p.index < 48) &&
      (p.side == Light <==> p.index < 16) &&
      (p.kind == Pawn <==> 8 <= p.index < 56) &&
      (p.kind != Pawn ==> p.kind == BackRank[p.index % 8]) &&
      (p.kind == King <==> p.index == 4 || p.index == 60)
  {
  }

  /**
   * Scanning the starting layout places 32 pieces: light pieces on squares 0-15,
   * dark pieces on 48-63, nothing on 16-47; pawns on ranks 2 and 7, the back
   * ranks follow `BackRank` (kings on 4 and 60).
   */
  lemma StartingLayout()
    ensures Scan(StartingFen).Ok?
    ensures |Scan(StartingFen).value.placed| == 32
    ensures forall k :: 0 <= k < 32 ==>
      Scan(StartingFen).value.placed[k].index == (if k < 16 then k else k + 32)
    ensures forall p :: p in Scan(StartingFen).value.placed ==>
      !(16 <= p.index < 48) &&
      (p.side == Light <==> p.index < 16) &&
      (p.kind == Pawn <==> 8 <= p.index < 56) &&
      (p.kind != Pawn ==> p.kind == BackRank[p.index % 8]) &&
      (p.kind == King <==> p.index == 4 || p.index == 60)
  {
    StartingPieces();
    var placed := Scan(StartingFen).value.placed;
    forall p | p in placed
      ensures !(16 <= p.index < 48) &&
        (p.side == Light <==> p.index < 16) &&
        (p.kind == Pawn <==> 8 <= p.index < 56) &&
        (p.kind != Pawn ==> p.kind == BackRank[p.index % 8]) &&
        (p.kind == King <==> p.index == 4 || p.index == 60)
    {
      var k :| 0 <= k < 32 && placed[k] == p;
      StartingPieceFacts(k);
    }
  }
}
