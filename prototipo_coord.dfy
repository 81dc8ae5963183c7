/**
 * The coordinates of the earlier prototype (damas/src/coord.rs): two unsigned
 * components and the diagonal neighbours one row up and one row down. Modelling the
 * components as `nat` makes every subtraction the code performs a proof obligation,
 * so the model shows the guards keep them from underflowing.
 */
module PrototipoCoord {
  import Motor = Coord

  /** `Coord { x: usize, y: usize }`, built by `Coord::new(x, y)` and by `c(x, y)`. */
  datatype Coord = Coord(x: nat, y: nat)

  /** On the 8x8 board. */
  predicate NoTabuleiro(c: Coord)
  {
    c.x < 8 && c.y < 8
  }

  /** The neighbours of column `x` on row `y`: the left one when `x > 0`, the right one when `x < 7`. */
  function DiagonaisNaLinha(x: nat, y: nat): (r: seq<Coord>)
    ensures 1 <= |r| <= 2
    ensures forall d :: d in r <==> d.y == y && ((x > 0 && d.x + 1 == x) || (x < 7 && d.x == x + 1))
    ensures |r| == 2 ==> r[0].x < r[1].x
  {
    (if x > 0 then [Coord(x - 1, y)] else []) + (if x < 7 then [Coord(x + 1, y)] else [])
  }

  /** `diagonais_da_frente`: the neighbours one row up, left one first; none on row 0. */
  function DiagonaisDaFrente(c: Coord): (r: seq<Coord>)
    ensures r == [] <==> c.y == 0
    ensures |r| <= 2 && (|r| == 2 ==> r[0].x < r[1].x)
    ensures forall d :: d in r <==> c.y > 0 && d.y + 1 == c.y && ((c.x > 0 && d.x + 1 == c.x) || (c.x < 7 && d.x == c.x + 1))
    ensures NoTabuleiro(c) ==> forall d :: d in r ==> NoTabuleiro(d)
  {
    if c.y == 0 then [] else DiagonaisNaLinha(c.x, c.y - 1)
  }

  /** `diagonais_de_tras`: the neighbours one row down, left one first; none on row 7. */
  function DiagonaisDeTras(c: Coord): (r: seq<Coord>)
    ensures r == [] <==> c.y == 7
    ensures |r| <= 2 && (|r| == 2 ==> r[0].x < r[1].x)
    ensures forall d :: d in r <==> c.y != 7 && d.y == c.y + 1 && ((c.x > 0 && d.x + 1 == c.x) || (c.x < 7 && d.x == c.x + 1))
    ensures NoTabuleiro(c) ==> forall d :: d in r ==> NoTabuleiro(d)
  {
    if c.y == 7 then [] else DiagonaisNaLinha(c.x, c.y + 1)
  }

  /** `testar_diagonais`: the expected neighbours of (2,5), (0,0), (7,7) and (7,4). */
  lemma TestarDiagonais()
    ensures DiagonaisDaFrente(Coord(2, 5)) == [Coord(1, 4), Coord(3, 4)]
    ensures DiagonaisDeTras(Coord(2, 5)) == [Coord(1, 6), Coord(3, 6)]
    ensures DiagonaisDaFrente(Coord(0, 0)) == []
    ensures DiagonaisDeTras(Coord(0, 0)) == [Coord(1, 1)]
    ensures DiagonaisDaFrente(Coord(7, 7)) == [Coord(6, 6)]
    ensures DiagonaisDeTras(Coord(7, 7)) == []
    ensures DiagonaisDaFrente(Coord(7, 4)) == [Coord(6, 3)]
    ensures DiagonaisDeTras(Coord(7, 4)) == [Coord(6, 5)]
  {
  }

  // ---------------------------------------------------------------- against the engine's coordinates

  /** The same square in the engine's signed coordinates. */
  function ParaMotor(c: Coord): Motor.Coord
  {
    Motor.Coord(c.x, c.y)
  }

  function TodasParaMotor(cs: seq<Coord>): (r: seq<Motor.Coord>)
    ensures |r| == |cs| && forall k :: 0 <= k < |cs| ==> r[k] == ParaMotor(cs[k])
  {
    seq(|cs|, k requires 0 <= k < |cs| => ParaMotor(cs[k]))
  }

  lemma {:induction false} ParaMotorJunta(l: seq<Coord>, r: seq<Coord>)
    ensures TodasParaMotor(l + r) == TodasParaMotor(l) + TodasParaMotor(r)
  {
  }

  /** On the board, the prototype's forward neighbours are the engine's, in the same order. */
  lemma FrenteComoNoMotor(c: Coord)
    requires NoTabuleiro(c)
    ensures TodasParaMotor(DiagonaisDaFrente(c)) == Motor.DiagonaisFrente(ParaMotor(c))
  {
    if c.y > 0 {
      var l := if c.x > 0 then [Coord(c.x - 1, c.y - 1)] else [];
      var r := if c.x < 7 then [Coord(c.x + 1, c.y - 1)] else [];
      ParaMotorJunta(l, r);
    }
  }

  /** On the board, the prototype's rear neighbours are the engine's, in the same order. */
  lemma TrasComoNoMotor(c: Coord)
    requires NoTabuleiro(c)
    ensures TodasParaMotor(DiagonaisDeTras(c)) == Motor.DiagonaisAtras(ParaMotor(c))
  {
    if c.y < 7 {
      var l := if c.x > 0 then [Coord(c.x - 1, c.y + 1)] else [];
      var r := if c.x < 7 then [Coord(c.x + 1, c.y + 1)] else [];
      ParaMotorJunta(l, r);
    }
  }
}
