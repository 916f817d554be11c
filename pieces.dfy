/**
 * Piece attributes: type and side, how they are read from a layout letter,
 * the tile colour of a square, and the texture asset name of a piece.
 */
module Pieces {
  import opened Wrappers

  datatype PieceType = King | Queen | Bishop | Knight | Rook | Pawn
  datatype Side = Light | Dark

  /** A piece entity's components: its type, its side and its square index. */
  datatype Piece = Piece(kind: PieceType, side: Side, index: nat)

  /** Lower-case letter naming a piece type, in layouts and asset names. */
  function TypeLetter(ty: PieceType): char
  {
    match ty
    case King => 'k'
    case Queen => 'q'
    case Bishop => 'b'
    case Knight => 'n'
    case Rook => 'r'
    case Pawn => 'p'
  }

  /** Letter naming a side in asset names. */
  function SideLetter(side: Side): char
  {
    if side == Light then 'l' else 'd'
  }

  predicate IsUpper(c: char) { 'A' <= c <= 'Z' }

  function ToUpper(c: char): char
  {
    if 'a' <= c <= 'z' then (c as int - 'a' as int + 'A' as int) as char else c
  }

  /** The piece type a layout letter names, in either case; no type for any other character. */
  function PieceTypeFromFen(f: char): (r: Option<PieceType>)
    ensures forall ty: PieceType :: r == Some(ty) <==> f == TypeLetter(ty) || f == ToUpper(TypeLetter(ty))
  {
    match f
    case 'k' | 'K' => Some(King)
    case 'q' | 'Q' => Some(Queen)
    case 'b' | 'B' => Some(Bishop)
    case 'n' | 'N' => Some(Knight)
    case 'r' | 'R' => Some(Rook)
    case 'p' | 'P' => Some(Pawn)
    case _ => None
  }

  /**
   * The side a layout letter stands for: upper case is Dark, anything else
   * Light. A piece letter is Dark exactly when it is the upper-case form of its
   * type letter and Light exactly when it is the type letter itself.
   */
  function SideFromFen(f: char): (side: Side)
    ensures PieceTypeFromFen(f).Some? ==>
      (side == Dark <==> f == ToUpper(TypeLetter(PieceTypeFromFen(f).value))) &&
      (side == Light <==> f == TypeLetter(PieceTypeFromFen(f).value))
  {
    if IsUpper(f) then Dark else Light
  }

  /** Tile colour of a square: Light exactly when file + rank is even. */
  function SideFromIndex(value: nat): (side: Side)
    ensures side == Light <==> (value % 8 + value / 8) % 2 == 0
  {
    var a := value % 8;
    var b := (value - a) / 8;
    if (a + b) % 2 == 0 then Light else Dark
  }

  /** Neighbouring squares along a rank or a file have opposite colours. */
  lemma ColoursAlternate(i: nat)
    ensures i % 8 < 7 ==> SideFromIndex(i + 1) != SideFromIndex(i)
    ensures SideFromIndex(i + 8) != SideFromIndex(i)
  {
  }

  /** Squares a1 (0) and b2 (9) are Light, b1 (1) is Dark. */
  lemma CornerColours()
    ensures SideFromIndex(0) == Light && SideFromIndex(9) == Light && SideFromIndex(1) == Dark
  {
  }

  /** Texture file of a piece: type letter, side letter, then "t.png". */
  function AssetName(ty: PieceType, side: Side): (name: string)
    ensures |name| == 7 && name[2..] == "t.png"
    ensures name[0] == TypeLetter(ty) && name[1] == SideLetter(side)
  {
    [TypeLetter(ty), SideLetter(side)] + "t.png"
  }

  /** Distinct piece kinds (type and side) get distinct texture files. */
  lemma AssetNameInjective(t1: PieceType, s1: Side, t2: PieceType, s2: Side)
    ensures AssetName(t1, s1) == AssetName(t2, s2) <==> t1 == t2 && s1 == s2
  {
  }
}
