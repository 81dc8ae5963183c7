/**
 * The first prototype board (damas/src/lib.rs): men only, one colour per piece
 * (`Peça` is `Branca | Preta`, and the side to move is a `Peça` too), the starting
 * position read from the prototype's grid and a plain eight-line rendering.
 */
module PrototipoLib {
  import Pecas
  import PrototipoJogo

  datatype Peca = Branca | Preta

  datatype Casa = Ocupada(peca: Peca) | Vazia

  /** `[[Casa; 8]; 8]`, indexed `[y][x]`. */
  type Tabuleiro = b: seq<seq<Casa>> | |b| == 8 && forall y :: 0 <= y < 8 ==> |b[y]| == 8
    witness seq(8, _ => seq(8, _ => Vazia))

  // ---------------------------------------------------------------- the starting position

  /** `TABULEIRO_INICIAL`: `P` black men on rows 0-2 where `x + y` is even, `B` white men on rows 5-7 where it is odd. */
  const TabuleiroInicial: seq<seq<char>> := [
    ['P', '.', 'P', '.', 'P', '.', 'P', '.'],
    ['.', 'P', '.', 'P', '.', 'P', '.', 'P'],
    ['P', '.', 'P', '.', 'P', '.', 'P', '.'],
    ['.', '.', '.', '.', '.', '.', '.', '.'],
    ['.', '.', '.', '.', '.', '.', '.', '.'],
    ['B', '.', 'B', '.', 'B', '.', 'B', '.'],
    ['.', 'B', '.', 'B', '.', 'B', '.', 'B'],
    ['B', '.', 'B', '.', 'B', '.', 'B', '.']
  ]

  /** What `default` leaves on a square: `P` a black man, `B` a white one, any other character nothing. */
  function CasaInicial(ch: char): (r: Casa)
    ensures r == Ocupada(Preta) <==> ch == 'P'
    ensures r == Ocupada(Branca) <==> ch == 'B'
    ensures r == Vazia <==> ch != 'P' && ch != 'B'
  {
    match ch
    case 'P' => Ocupada(Preta)
    case 'B' => Ocupada(Branca)
    case _ => Vazia
  }

  /** The board `default` builds from `TABULEIRO_INICIAL`. */
  function Inicial(): (b: Tabuleiro)
  {
    seq(8, y requires 0 <= y < 8 => seq(8, x requires 0 <= x < 8 => CasaInicial(TabuleiroInicial[y][x])))
  }

  /** The same cell among the four piece kinds of the later prototype and the engine. */
  function ComoPecas(c: Casa): (r: Pecas.Casa)
    ensures r.Ocupada? == c.Ocupada? && (r.Ocupada? ==> !r.peca.EDama())
    ensures c == Ocupada(Branca) <==> r == Pecas.Ocupada(Pecas.Branca)
  {
    match c
    case Ocupada(Branca) => Pecas.Ocupada(Pecas.Branca)
    case Ocupada(Preta) => Pecas.Ocupada(Pecas.Preta)
    case Vazia => Pecas.Vazia
  }

  /**
   * Both prototypes start from the same position: this prototype's grid is the later
   * one's, and square by square the boards agree, black men on rows 0-2 where `x + y` is
   * even and white men on rows 5-7 where it is odd.
   */
  lemma InicialComoNoPrototipo(y: nat, x: nat)
    requires y < 8 && x < 8
    ensures ComoPecas(Inicial()[y][x]) == PrototipoJogo.Inicial()[y][x]
    ensures ComoPecas(Inicial()[y][x]) == PrototipoJogo.Esperada(y, x)
    ensures TabuleiroInicial[y][x] == PrototipoJogo.TabuleiroInicial[y][x]
  {
    PrototipoJogo.InicialPorCasa(y, x);
  }

  // ---------------------------------------------------------------- display

  /** The three characters printed for one square. */
  function Glifo(c: Casa): string
  {
    match c
    case Ocupada(Branca) => " B "
    case Ocupada(Preta) => " P "
    case Vazia => " . "
  }

  /** The middle character of a square's glyph. */
  function Simbolo(c: Casa): char
  {
    match c
    case Ocupada(Branca) => 'B'
    case Ocupada(Preta) => 'P'
    case Vazia => '.'
  }

  /** The glyphs of the first `n` squares of a row. */
  function Glifos(linha: seq<Casa>, n: nat): (s: string)
    requires n <= |linha|
    ensures |s| == 3 * n
  {
    if n == 0 then "" else Glifos(linha, n - 1) + Glifo(linha[n - 1])
  }

  /** The first `n` printed rows, each eight glyphs and a newline. */
  function Linhas(b: Tabuleiro, n: nat): (s: string)
    requires n <= 8
    ensures |s| == 25 * n
  {
    if n == 0 then "" else Linhas(b, n - 1) + (Glifos(b[n - 1], 8) + "\n")
  }

  /** The text `Display` writes: eight rows, no header and no row numbers. */
  function Renderizar(b: Tabuleiro): (s: string)
    ensures |s| == 200
  {
    Linhas(b, 8)
  }

  lemma GlifosSimbolo(linha: seq<Casa>, n: nat, x: nat)
    requires n <= |linha| && x < n
    ensures Glifos(linha, n)[3 * x] == ' ' && Glifos(linha, n)[3 * x + 2] == ' '
    ensures Glifos(linha, n)[3 * x + 1] == Simbolo(linha[x])
  {
    if x < n - 1 {
      GlifosSimbolo(linha, n - 1, x);
    }
  }

  lemma LinhasSimbolo(b: Tabuleiro, n: nat, y: nat, x: nat)
    requires n <= 8 && y < n && x < 8
    ensures Linhas(b, n)[25 * y + 3 * x + 1] == Simbolo(b[y][x])
    ensures Linhas(b, n)[25 * y + 24] == '\n'
  {
    var anteriores := Linhas(b, n - 1);
    if y < n - 1 {
      LinhasSimbolo(b, n - 1, y, x);
      assert Linhas(b, n)[25 * y + 3 * x + 1] == anteriores[25 * y + 3 * x + 1];
      assert Linhas(b, n)[25 * y + 24] == anteriores[25 * y + 24];
    } else {
      GlifosSimbolo(b[y], 8, x);
      var linha := Glifos(b[y], 8) + "\n";
      assert Linhas(b, n) == anteriores + linha;
      assert linha[3 * x + 1] == Glifos(b[y], 8)[3 * x + 1];
    }
  }

  /** Row `y` ends at offset `25 * y + 24`, and square `(x, y)` shows its symbol at `25 * y + 3 * x + 1`. */
  lemma RenderizarPosicoes(b: Tabuleiro, y: nat, x: nat)
    requires y < 8 && x < 8
    ensures Renderizar(b)[25 * y + 24] == '\n'
    ensures Renderizar(b)[25 * y + 3 * x + 1] == Simbolo(b[y][x])
  {
    LinhasSimbolo(b, 8, y, x);
  }

  /** Two boards that print the same are the same board. */
  lemma RenderizarInjetiva(b: Tabuleiro, e: Tabuleiro)
    requires Renderizar(b) == Renderizar(e)
    ensures b == e
  {
    forall y | 0 <= y < 8 ensures b[y] == e[y] {
      forall x | 0 <= x < 8 ensures b[y][x] == e[y][x] {
        RenderizarPosicoes(b, y, x);
        RenderizarPosicoes(e, y, x);
      }
    }
  }

  // ---------------------------------------------------------------- the game object

  class Jogo {
    var tabuleiro: array2<Casa>
    var vez: Peca

    ghost predicate Valid()
      reads this
    {
      tabuleiro.Length0 == 8 && tabuleiro.Length1 == 8
    }

    /** The board as a value, `[y][x]`. */
    function Tab(): (b: Tabuleiro)
      reads this, tabuleiro
      requires Valid()
      ensures forall y, x :: 0 <= y < 8 && 0 <= x < 8 ==> b[y][x] == tabuleiro[y, x]
    {
      var t := tabuleiro;
      seq(8, y requires 0 <= y < 8 reads t => seq(8, x requires 0 <= x < 8 reads t => t[y, x]))
    }

    /** `default`: the grid read character by character, white to move. */
    constructor Default()
      ensures Valid() && fresh(tabuleiro) && Tab() == Inicial() && vez == Branca
    {
      var t := new Casa[8, 8]((_, _) => Vazia);
      for y := 0 to 8
        invariant forall i, j :: 0 <= i < 8 && 0 <= j < 8 ==>
          t[i, j] == if i < y then CasaInicial(TabuleiroInicial[i][j]) else Vazia
      {
        for x := 0 to 8
          invariant forall i, j :: 0 <= i < 8 && 0 <= j < 8 ==>
            t[i, j] == if i < y || (i == y && j < x) then CasaInicial(TabuleiroInicial[i][j]) else Vazia
        {
          match TabuleiroInicial[y][x]
          case 'P' => t[y, x] := Ocupada(Preta);
          case 'B' => t[y, x] := Ocupada(Branca);
          case _ =>
        }
      }
      tabuleiro := t;
      vez := Branca;
      new;
      forall y | 0 <= y < 8 ensures Tab()[y] == Inicial()[y] {
      }
    }

    /** `fmt` of `Display`: for each row, its eight glyphs and a newline. */
    method Exibir() returns (s: string)
      requires Valid()
      ensures s == Renderizar(Tab())
    {
      ghost var b := Tab();
      s := "";
      for y := 0 to 8
        invariant s == Linhas(b, y)
      {
        ghost var antes := s;
        for x := 0 to 8
          invariant s == antes + Glifos(b[y], x)
        {
          assert tabuleiro[y, x] == b[y][x];
          match tabuleiro[y, x]
          case Ocupada(Branca) => s := s + " B ";
          case Ocupada(Preta) => s := s + " P ";
          case Vazia => s := s + " . ";
        }
        s := s + "\n";
      }
    }
  }
}
