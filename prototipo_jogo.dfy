/**
 * The board object of the earlier prototype (damas/src/jogo.rs): the same four piece
 * kinds and cells as the engine (`RainhaBranca`/`RainhaPreta` are the kings
 * `DamaBranca`/`DamaPreta`, `Vez` is `Jogador`), unsigned coordinates, the starting
 * position, the printed board, per-piece neighbour squares, piece listing and an
 * unchecked relocation.
 */
module PrototipoJogo {
  import opened Wrappers
  import opened Pecas
  import opened PrototipoCoord
  import Regras
  import JogoMotor = Jogo
  import CoordMotor = Coord

  /** The prototype's unsigned coordinates, not the engine's. */
  type Coord = PrototipoCoord.Coord

  // ---------------------------------------------------------------- the starting position

  /** `TABULEIRO_INICIAL`: `P` black men on rows 0-2 where `x + y` is even, `B` white men on rows 5-7 where it is odd. */
  const TabuleiroInicial: JogoMotor.Grade := [
    ['P', '.', 'P', '.', 'P', '.', 'P', '.'],
    ['.', 'P', '.', 'P', '.', 'P', '.', 'P'],
    ['P', '.', 'P', '.', 'P', '.', 'P', '.'],
    ['.', '.', '.', '.', '.', '.', '.', '.'],
    ['.', '.', '.', '.', '.', '.', '.', '.'],
    ['B', '.', 'B', '.', 'B', '.', 'B', '.'],
    ['.', 'B', '.', 'B', '.', 'B', '.', 'B'],
    ['B', '.', 'B', '.', 'B', '.', 'B', '.']
  ]

  /** What `default` leaves on a square for a character of the grid: any character but `P` and `B` leaves it empty. */
  function CasaInicial(ch: char): (r: Casa)
    ensures r == Ocupada(Preta) <==> ch == 'P'
    ensures r == Ocupada(Branca) <==> ch == 'B'
    ensures r == Vazia <==> ch != 'P' && ch != 'B'
  {
    match ch
    case 'P' => Ocupada(Preta)
    case 'B' => Ocupada(Branca)
    case _ => Vazia
  }

  /** The board `default` builds. */
  function Inicial(): (b: Regras.Tabuleiro)
  {
    seq(8, y requires 0 <= y < 8 => seq(8, x requires 0 <= x < 8 => CasaInicial(TabuleiroInicial[y][x])))
  }

  /**
   * The starting board square by square: black men on rows 0-2 where `x + y` is
   * even, white men on rows 5-7 where `x + y` is odd, the rest empty. The two
   * colours stand on squares of opposite colour.
   */
  lemma InicialPorCasa(y: nat, x: nat)
    requires y < 8 && x < 8
    ensures Inicial()[y][x] == Esperada(y, x)
  {
    var linha := TabuleiroInicial[y];
    assert Inicial()[y][x] == CasaInicial(linha[x]);
    if y == 0 || y == 2 {
      assert linha == ['P', '.', 'P', '.', 'P', '.', 'P', '.'];
    } else if y == 1 {
      assert linha == ['.', 'P', '.', 'P', '.', 'P', '.', 'P'];
    } else if y == 5 || y == 7 {
      assert linha == ['B', '.', 'B', '.', 'B', '.', 'B', '.'];
    } else if y == 6 {
      assert linha == ['.', 'B', '.', 'B', '.', 'B', '.', 'B'];
    } else {
      assert linha == ['.', '.', '.', '.', '.', '.', '.', '.'];
    }
  }

  /** The layout the starting grid describes, stated by rows and square colour. */
  function Esperada(y: nat, x: nat): Casa
  {
    if y < 3 && (x + y) % 2 == 0 then Ocupada(Preta)
    else if y >= 5 && (x + y) % 2 == 1 then Ocupada(Branca)
    else Vazia
  }

  // ---------------------------------------------------------------- counting pieces

  /** How many cells of a row hold exactly `p`. */
  function ContarNaLinha(linha: seq<Casa>, p: Peca): (n: nat)
    ensures n <= |linha|
  {
    if linha == [] then 0
    else ContarNaLinha(linha[..|linha| - 1], p) + (if linha[|linha| - 1] == Ocupada(p) then 1 else 0)
  }

  /** How many cells of the first `n` rows hold exactly `p`. */
  function Contar(b: Regras.Tabuleiro, n: nat, p: Peca): (r: nat)
    requires n <= 8
    ensures r <= 8 * n
  {
    if n == 0 then 0 else Contar(b, n - 1, p) + ContarNaLinha(b[n - 1], p)
  }

  /** Replacing one cell of a row changes its count only by what left and what arrived. */
  lemma {:induction false} ContarNaLinhaAtualizada(linha: seq<Casa>, x: nat, v: Casa, p: Peca)
    requires x < |linha|
    ensures ContarNaLinha(linha[x := v], p) + (if linha[x] == Ocupada(p) then 1 else 0)
         == ContarNaLinha(linha, p) + (if v == Ocupada(p) then 1 else 0)
  {
    var n := |linha| - 1;
    var nova := linha[x := v];
    if x < n {
      assert nova[..n] == linha[..n][x := v];
      ContarNaLinhaAtualizada(linha[..n], x, v, p);
    } else {
      assert nova[..n] == linha[..n];
    }
  }

  /** Replacing one row of the board changes the count only in that row. */
  lemma {:induction false} ContarAtualizado(b: Regras.Tabuleiro, n: nat, y: nat, linha: seq<Casa>, p: Peca)
    requires n <= 8 && y < 8 && |linha| == 8
    ensures Contar(b[y := linha], n, p) + (if y < n then ContarNaLinha(b[y], p) else 0)
         == Contar(b, n, p) + (if y < n then ContarNaLinha(linha, p) else 0)
  {
    if n > 0 {
      ContarAtualizado(b, n - 1, y, linha, p);
    }
  }

  /** The cell at `c` replaced by `v`. */
  function Atualizar(b: Regras.Tabuleiro, c: Coord, v: Casa): (r: Regras.Tabuleiro)
    requires NoTabuleiro(c)
    ensures forall q :: NoTabuleiro(q) ==> r[q.y][q.x] == if q == c then v else b[q.y][q.x]
    ensures Contar(r, 8, Branca) + (if b[c.y][c.x] == Ocupada(Branca) then 1 else 0)
         == Contar(b, 8, Branca) + (if v == Ocupada(Branca) then 1 else 0)
    ensures Contar(r, 8, Preta) + (if b[c.y][c.x] == Ocupada(Preta) then 1 else 0)
         == Contar(b, 8, Preta) + (if v == Ocupada(Preta) then 1 else 0)
  {
    var r := b[c.y := b[c.y][c.x := v]];
    ContarNaLinhaAtualizada(b[c.y], c.x, v, Branca);
    ContarAtualizado(b, 8, c.y, b[c.y][c.x := v], Branca);
    ContarNaLinhaAtualizada(b[c.y], c.x, v, Preta);
    ContarAtualizado(b, 8, c.y, b[c.y][c.x := v], Preta);
    r
  }

  /** Counting a row split in two. */
  lemma {:induction false} ContarNaLinhaJunta(a: seq<Casa>, b: seq<Casa>, p: Peca)
    ensures ContarNaLinha(a + b, p) == ContarNaLinha(a, p) + ContarNaLinha(b, p)
  {
    if b == [] {
      assert a + b == a;
    } else {
      var n := |b| - 1;
      assert (a + b)[..|a + b| - 1] == a + b[..n];
      assert (a + b)[|a + b| - 1] == b[n];
      ContarNaLinhaJunta(a, b[..n], p);
    }
  }

  /** The starting position has twelve men of each colour. */
  lemma InicialDoze()
    ensures Contar(Inicial(), 8, Branca) == 12 && Contar(Inicial(), 8, Preta) == 12
  {
    var b := Inicial();
    forall y | 0 <= y < 8
      ensures ContarNaLinha(b[y], Branca) == (if y >= 5 then 4 else 0)
      ensures ContarNaLinha(b[y], Preta) == (if y < 3 then 4 else 0)
    {
      forall x | 0 <= x < 8 ensures b[y][x] == Esperada(y, x) {
        InicialPorCasa(y, x);
      }
      ContarLinhaInicial(b[y], y);
    }
  }

  /** A row of the starting position holds four men, or none on rows 3 and 4. */
  lemma ContarLinhaInicial(linha: seq<Casa>, y: nat)
    requires y < 8 && |linha| == 8
    requires forall x :: 0 <= x < 8 ==> linha[x] == Esperada(y, x)
    ensures ContarNaLinha(linha, Branca) == (if y >= 5 then 4 else 0)
    ensures ContarNaLinha(linha, Preta) == (if y < 3 then 4 else 0)
  {
    var m := if y < 3 then Ocupada(Preta) else if y >= 5 then Ocupada(Branca) else Vazia;
    var par := if (y < 3) == (y % 2 == 0) then [m, Vazia] else [Vazia, m];
    var quatro := par + par + par + par;
    forall x | 0 <= x < 8 ensures linha[x] == quatro[x] {
      assert quatro[x] == par[x % 2];
    }
    assert linha == quatro;
    assert par[..1] == [par[0]];
    ContarQuatroPares(par, Branca);
    ContarQuatroPares(par, Preta);
  }

  /** Four copies of a pair hold four times what the pair holds. */
  lemma ContarQuatroPares(par: seq<Casa>, p: Peca)
    ensures ContarNaLinha(par + par + par + par, p) == 4 * ContarNaLinha(par, p)
  {
    ContarNaLinhaJunta(par, par, p);
    ContarNaLinhaJunta(par + par, par, p);
    ContarNaLinhaJunta(par + par + par, par, p);
  }

  // ---------------------------------------------------------------- neighbour squares

  /** The diagonals a piece moves along: forward for white pieces, backward for black ones, kings included. */
  function DiagonaisDaPeca(c: Coord, p: Peca): (r: seq<Coord>)
    ensures p.EBranca() ==> r == DiagonaisDaFrente(c)
    ensures p.EPreta() ==> r == DiagonaisDeTras(c)
  {
    match p
    case Branca => DiagonaisDaFrente(c)
    case DamaBranca => DiagonaisDaFrente(c)
    case Preta => DiagonaisDeTras(c)
    case DamaPreta => DiagonaisDeTras(c)
  }

  /** The empty squares among `ds`, in their order. */
  function Livres(b: Regras.Tabuleiro, ds: seq<Coord>): (r: seq<Coord>)
    requires forall d :: d in ds ==> NoTabuleiro(d)
    ensures forall d :: d in r <==> d in ds && NoTabuleiro(d) && b[d.y][d.x].EVazia()
    ensures |r| <= |ds| && (|r| == |ds| ==> r == ds)
    ensures CoordMotor.Subsequencia(r, ds)
  {
    if ds == [] then []
    else
      var d := ds[0];
      assert d in ds;
      assert NoTabuleiro(d);
      var resto := Livres(b, ds[1..]);
      assert forall e :: e in ds <==> e == d || e in ds[1..];
      if b[d.y][d.x].EVazia() then [d] + resto else resto
  }

  // ---------------------------------------------------------------- relocation

  /**
   * `mover`: the piece at `de` is lifted, `de` is emptied, and the piece is put down at
   * `para`. Afterwards `para` holds the piece, `de` is empty when it differs from `para`,
   * and every other square is unchanged.
   */
  function Relocar(b: Regras.Tabuleiro, de: Coord, para: Coord): (r: Regras.Tabuleiro)
    requires NoTabuleiro(de) && NoTabuleiro(para) && b[de.y][de.x].Ocupada?
    ensures forall q :: NoTabuleiro(q) ==>
      r[q.y][q.x] == if q == para then b[de.y][de.x] else if q == de then Vazia else b[q.y][q.x]
  {
    Atualizar(Atualizar(b, de, Vazia), para, b[de.y][de.x])
  }

  /** Onto an empty square, `mover` keeps the number of men of each colour. */
  lemma RelocarPreservaContagem(b: Regras.Tabuleiro, de: Coord, para: Coord)
    requires NoTabuleiro(de) && NoTabuleiro(para) && b[de.y][de.x].Ocupada?
    requires de == para || b[para.y][para.x].EVazia()
    ensures Contar(Relocar(b, de, para), 8, Branca) == Contar(b, 8, Branca)
    ensures Contar(Relocar(b, de, para), 8, Preta) == Contar(b, 8, Preta)
  {
    var meio := Atualizar(b, de, Vazia);
    assert meio[para.y][para.x] == if para == de then Vazia else b[para.y][para.x];
  }

  /**
   * Between distinct squares the prototype's `mover` is the engine's
   * `mover_sem_checar`; onto its own square it leaves the board as it was, where
   * the engine's erases the piece.
   */
  lemma RelocarComoNoMotor(b: Regras.Tabuleiro, de: Coord, para: Coord)
    requires NoTabuleiro(de) && NoTabuleiro(para) && b[de.y][de.x].Ocupada?
    ensures de != para ==> Relocar(b, de, para) == Regras.MoverSemChecar(b, ParaMotor(de), ParaMotor(para))
    ensures Relocar(b, de, de) == b
    ensures Regras.CasaEm(Regras.MoverSemChecar(b, ParaMotor(de), ParaMotor(de)), ParaMotor(de)) == Vazia
  {
    var r := Relocar(b, de, para);
    if de != para {
      var m := Regras.MoverSemChecar(b, ParaMotor(de), ParaMotor(para));
      forall y | 0 <= y < 8 ensures r[y] == m[y] {
        forall x | 0 <= x < 8 ensures r[y][x] == m[y][x] {
          assert Regras.CasaEm(m, ParaMotor(Coord(x, y))) == m[y][x];
        }
      }
    }
    var s := Relocar(b, de, de);
    forall y | 0 <= y < 8 ensures s[y] == b[y] {
      forall x | 0 <= x < 8 ensures s[y][x] == b[y][x] {
        assert s[y][x] == s[Coord(x, y).y][Coord(x, y).x];
      }
    }
  }

  // ---------------------------------------------------------------- the game object

  class Jogo {
    var tabuleiro: array2<Casa>
    var vez: Jogador

    ghost predicate Valid()
      reads this
    {
      tabuleiro.Length0 == 8 && tabuleiro.Length1 == 8
    }

    /** The board as a value, `[y][x]`. */
    function Tab(): (b: Regras.Tabuleiro)
      reads this, tabuleiro
      requires Valid()
      ensures forall y, x :: 0 <= y < 8 && 0 <= x < 8 ==> b[y][x] == tabuleiro[y, x]
    {
      var t := tabuleiro;
      seq(8, y requires 0 <= y < 8 reads t => seq(8, x requires 0 <= x < 8 reads t => t[y, x]))
    }

    /** `default`: the grid read character by character, white to move. */
    constructor Default()
      ensures Valid() && fresh(tabuleiro) && Tab() == Inicial() && vez == Branco
    {
      var t := new Casa[8, 8]((_, _) => Vazia);
      for y := 0 to 8
        invariant forall i, j :: 0 <= i < 8 && 0 <= j < 8 ==>
          t[i, j] == if i < y then CasaInicial(TabuleiroInicial[i][j]) else Vazia
      {
        for x := 0 to 8
          invariant forall i, j :: 0 <= i < 8 && 0 <= j < 8 ==>
            t[i, j] == if i < y || (i == y && j < x) then CasaInicial(TabuleiroInicial[i][j]) else Vazia
        {
          match TabuleiroInicial[y][x]
          case 'P' => t[y, x] := Ocupada(Preta);
          case 'B' => t[y, x] := Ocupada(Branca);
          case _ =>
        }
      }
      tabuleiro := t;
      vez := Branco;
      new;
      forall y | 0 <= y < 8 ensures Tab()[y] == Inicial()[y] {
      }
    }

    /** `fmt` of `Display`: the column header, then for each row its number, its eight glyphs and a newline. */
    method Exibir() returns (s: string)
      requires Valid()
      ensures s == JogoMotor.Renderizar(Tab())
    {
      ghost var b := Tab();
      s := "   0  1  2  3  4  5  6  7\n";
      for y := 0 to 8
        invariant s == JogoMotor.Cabecalho + JogoMotor.LinhasRender(b, y)
      {
        var glifos := GlifosDaLinha(y);
        CoordMotor.Reagrupa(JogoMotor.Cabecalho, JogoMotor.LinhasRender(b, y), JogoMotor.LinhaImpressa(b, y));
        s := s + ([JogoMotor.Digito(y), ' '] + glifos + "\n");
      }
    }

    /** The inner loop of `fmt`: the glyphs of row `y`, left to right. */
    method GlifosDaLinha(y: nat) returns (glifos: string)
      requires Valid() && y < 8
      ensures glifos == JogoMotor.LinhaRender(Tab()[y], 8)
    {
      ghost var linha := Tab()[y];
      glifos := "";
      for x := 0 to 8
        invariant glifos == JogoMotor.LinhaRender(linha, x)
      {
        assert tabuleiro[y, x] == linha[x];
        match tabuleiro[y, x]
        case Ocupada(Branca) => glifos := glifos + " x ";
        case Ocupada(Preta) => glifos := glifos + " o ";
        case Ocupada(DamaBranca) => glifos := glifos + " X ";
        case Ocupada(DamaPreta) => glifos := glifos + " O ";
        case Vazia => glifos := glifos + " . ";
      }
    }

    /** `casa_em`: the cell at an on-board square. */
    function LerCasa(c: Coord): (r: Casa)
      reads this, tabuleiro
      requires Valid() && NoTabuleiro(c)
      ensures r == Tab()[c.y][c.x]
    {
      tabuleiro[c.y, c.x]
    }

    /** `peça_em`: the piece at an on-board square, `None` when it is empty. */
    function LerPeca(c: Coord): (r: Option<Peca>)
      reads this, tabuleiro
      requires Valid() && NoTabuleiro(c)
      ensures r.None? <==> LerCasa(c).EVazia()
      ensures r.Some? ==> LerCasa(c) == Ocupada(r.value)
    {
      LerCasa(c).GetPeca()
    }

    /**
     * `possiveis_jogadas_em`: nothing for an empty square; otherwise the empty
     * squares among the forward diagonals of a white piece or the rear diagonals
     * of a black one, king or not.
     */
    function PossiveisJogadasEm(c: Coord): (r: seq<Coord>)
      reads this, tabuleiro
      requires Valid() && NoTabuleiro(c)
      ensures LerCasa(c).EVazia() ==> r == []
      ensures LerCasa(c).Ocupada? ==> forall d :: d in r <==> d in DiagonaisDaPeca(c, LerCasa(c).peca) && Tab()[d.y][d.x].EVazia()
      ensures |r| <= 2 && forall i, j :: 0 <= i < j < |r| ==> r[i].x < r[j].x
    {
      var casa := LerCasa(c);
      if casa.Ocupada? then
        var diagonais := DiagonaisDaPeca(c, casa.peca);
        assert forall d :: d in diagonais ==> NoTabuleiro(d);
        Livres(Tab(), diagonais)
      else
        []
    }

    /** The loop shared by `peças_brancas` and `peças_pretas`: one `p` per cell holding exactly `p`. */
    method ListarPecas(p: Peca) returns (pecas: seq<Peca>)
      requires Valid()
      ensures |pecas| == Contar(Tab(), 8, p) && forall i :: 0 <= i < |pecas| ==> pecas[i] == p
    {
      ghost var b := Tab();
      pecas := [];
      for y := 0 to 8
        invariant |pecas| == Contar(b, y, p) && forall i :: 0 <= i < |pecas| ==> pecas[i] == p
      {
        for x := 0 to 8
          invariant |pecas| == Contar(b, y, p) + ContarNaLinha(b[y][..x], p)
          invariant forall i :: 0 <= i < |pecas| ==> pecas[i] == p
        {
          assert b[y][..x + 1][..x] == b[y][..x];
          var casa := tabuleiro[y, x];
          if casa.Ocupada? && casa.peca == p {
            pecas := pecas + [p];
          }
        }
        assert b[y][..8] == b[y];
      }
    }

    /** `peças_brancas`: one entry per white man; white kings are not listed. */
    method PecasBrancas() returns (pecas: seq<Peca>)
      requires Valid()
      ensures |pecas| == Contar(Tab(), 8, Branca) && forall i :: 0 <= i < |pecas| ==> pecas[i] == Branca
    {
      pecas := ListarPecas(Branca);
    }

    /** `peças_pretas`: one entry per black man; black kings are not listed. */
    method PecasPretas() returns (pecas: seq<Peca>)
      requires Valid()
      ensures |pecas| == Contar(Tab(), 8, Preta) && forall i :: 0 <= i < |pecas| ==> pecas[i] == Preta
    {
      pecas := ListarPecas(Preta);
    }

    /** `mover`: the source unwraps the piece at `de`, so `de` must be occupied. */
    method Mover(de: Coord, para: Coord)
      requires Valid() && NoTabuleiro(de) && NoTabuleiro(para) && LerCasa(de).Ocupada?
      modifies tabuleiro
      ensures Valid() && Tab() == Relocar(old(Tab()), de, para)
    {
      var peca := LerPeca(de).value;
      tabuleiro[de.y, de.x] := Vazia;
      tabuleiro[para.y, para.x] := Ocupada(peca);
      forall y | 0 <= y < 8 ensures Tab()[y] == Relocar(old(Tab()), de, para)[y] {
        forall x | 0 <= x < 8 ensures Tab()[y][x] == Relocar(old(Tab()), de, para)[y][x] {
          assert Relocar(old(Tab()), de, para)[y][x] == Relocar(old(Tab()), de, para)[Coord(x, y).y][Coord(x, y).x];
        }
      }
    }
  }
}
