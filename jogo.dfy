/**
 * The game object of the engine: an 8x8 array of squares and the side to move.
 * Each method follows the loops of the corresponding source method and is proved
 * against the rule functions of Regras and the chain predicates of Cadeias.
 */
module Jogo {
  import opened Wrappers
  import opened Coord
  import opened Pecas
  import opened Regras
  import opened Cadeias
  import opened Turno

  // ---------------------------------------------------------------- text boards

  /** An 8x8 grid of characters, the input format of the constructors. */
  type Grade = g: seq<seq<char>> | |g| == 8 && forall y :: 0 <= y < 8 ==> |g[y]| == 8
    witness seq(8, _ => seq(8, _ => '.'))

  /** The starting position the default constructor uses. */
  const TabuleiroInicialChars: Grade := [
    ['p', '.', '.', '.', '.', '.', '.', '.'],
    ['.', '.', '.', '.', '.', '.', '.', '.'],
    ['.', '.', '.', '.', '.', '.', '.', '.'],
    ['.', '.', '.', '.', '.', '.', 'p', '.'],
    ['.', '.', '.', '.', '.', '.', '.', '.'],
    ['.', '.', '.', '.', 'p', '.', '.', '.'],
    ['.', '.', '.', 'b', '.', '.', 'p', '.'],
    ['b', '.', '.', '.', '.', '.', '.', 'b']
  ]

  /** The square a grid character stands for; `None` for a character the constructors reject. */
  function DecodificarCasa(ch: char): (r: Option<Casa>)
    ensures r.Some? <==> ch in "pbPB."
  {
    match ch
    case 'p' => Some(Ocupada(Preta))
    case 'b' => Some(Ocupada(Branca))
    case 'P' => Some(Ocupada(DamaPreta))
    case 'B' => Some(Ocupada(DamaBranca))
    case '.' => Some(Vazia)
    case _ => None
  }

  /** The grid character of a square. */
  function Caractere(c: Casa): (ch: char)
    ensures DecodificarCasa(ch) == Some(c)
  {
    match c
    case Ocupada(Preta) => 'p'
    case Ocupada(Branca) => 'b'
    case Ocupada(DamaPreta) => 'P'
    case Ocupada(DamaBranca) => 'B'
    case Vazia => '.'
  }

  /** Every accepted character is the character of the square it decodes to. */
  lemma CaractereDecodificado(ch: char)
    requires DecodificarCasa(ch).Some?
    ensures Caractere(DecodificarCasa(ch).value) == ch
  {
  }

  /** Every character of the grid is accepted. */
  ghost predicate GradeValida(g: Grade)
  {
    forall y, x :: 0 <= y < 8 && 0 <= x < 8 ==> DecodificarCasa(g[y][x]).Some?
  }

  /** The board a valid grid describes. */
  function Decodificar(g: Grade): (b: Tabuleiro)
    requires GradeValida(g)
    ensures forall y, x :: 0 <= y < 8 && 0 <= x < 8 ==> DecodificarCasa(g[y][x]) == Some(b[y][x])
  {
    seq(8, y requires 0 <= y < 8 => seq(8, x requires 0 <= x < 8 => DecodificarCasa(g[y][x]).value))
  }

  /** The grid of a board. */
  function Codificar(b: Tabuleiro): (g: Grade)
    ensures forall y, x :: 0 <= y < 8 && 0 <= x < 8 ==> g[y][x] == Caractere(b[y][x])
  {
    seq(8, y requires 0 <= y < 8 => seq(8, x requires 0 <= x < 8 => Caractere(b[y][x])))
  }

  /** Writing a board as a grid and reading it back gives the same board. */
  lemma DecodificarCodificar(b: Tabuleiro)
    ensures GradeValida(Codificar(b)) && Decodificar(Codificar(b)) == b
  {
    var g := Codificar(b);
    var d := Decodificar(g);
    forall y | 0 <= y < 8 ensures d[y] == b[y] {
      forall x | 0 <= x < 8 ensures d[y][x] == b[y][x] {
        assert DecodificarCasa(g[y][x]) == Some(b[y][x]);
      }
    }
  }

  /** Reading a valid grid and writing the board back gives the same grid. */
  lemma CodificarDecodificar(g: Grade)
    requires GradeValida(g)
    ensures Codificar(Decodificar(g)) == g
  {
    var e := Codificar(Decodificar(g));
    forall y | 0 <= y < 8 ensures e[y] == g[y] {
      forall x | 0 <= x < 8 ensures e[y][x] == g[y][x] {
        CaractereDecodificado(g[y][x]);
      }
    }
  }

  /** The starting grid holds only accepted characters. */
  lemma GradeInicialValida()
    ensures GradeValida(TabuleiroInicialChars)
  {
    forall y, x | 0 <= y < 8 && 0 <= x < 8 ensures DecodificarCasa(TabuleiroInicialChars[y][x]).Some? {
      var linha := TabuleiroInicialChars[y];
      assert linha[x] in linha;
      assert forall ch :: ch in linha ==> ch in "pbPB.";
    }
  }

  // ---------------------------------------------------------------- display

  /** The column header of the printed board. */
  const Cabecalho: string := "   0  1  2  3  4  5  6  7\n"

  /** The three characters printed for one square. */
  function Glifo(c: Casa): (s: string)
  {
    match c
    case Ocupada(Branca) => " x "
    case Ocupada(Preta) => " o "
    case Ocupada(DamaBranca) => " X "
    case Ocupada(DamaPreta) => " O "
    case Vazia => " . "
  }

  /** The middle character of a square's glyph. */
  function Simbolo(c: Casa): char
  {
    match c
    case Ocupada(Branca) => 'x'
    case Ocupada(Preta) => 'o'
    case Ocupada(DamaBranca) => 'X'
    case Ocupada(DamaPreta) => 'O'
    case Vazia => '.'
  }

  /** A glyph is its symbol between two spaces, and different squares print differently. */
  lemma GlifoDoSimbolo(c: Casa, e: Casa)
    ensures Glifo(c) == [' ', Simbolo(c), ' ']
    ensures Simbolo(c) == Simbolo(e) ==> c == e
  {
  }

  /** The decimal digit of a row number, as `format!("{y}")` writes it. */
  function Digito(y: nat): (ch: char)
    requires y < 10
  {
    (('0' as int) + y) as char
  }

  /** The glyphs of the first `n` squares of a row. */
  function LinhaRender(linha: seq<Casa>, n: nat): (s: string)
    requires n <= |linha|
    ensures |s| == 3 * n
  {
    if n == 0 then "" else LinhaRender(linha, n - 1) + Glifo(linha[n - 1])
  }

  /** Printed row `y`: the row number, a space, eight glyphs and a newline. */
  function LinhaImpressa(b: Tabuleiro, y: nat): (s: string)
    requires y < 8
    ensures |s| == 27
  {
    [Digito(y), ' '] + LinhaRender(b[y], 8) + "\n"
  }

  /** The first `n` printed rows. */
  function LinhasRender(b: Tabuleiro, n: nat): (s: string)
    requires n <= 8
    ensures |s| == 27 * n
  {
    if n == 0 then "" else LinhasRender(b, n - 1) + LinhaImpressa(b, n - 1)
  }

  /** The text the `Display` implementation writes for a board. */
  function Renderizar(b: Tabuleiro): (s: string)
    ensures |s| == 26 + 27 * 8
  {
    Cabecalho + LinhasRender(b, 8)
  }

  lemma LinhaRenderSimbolo(linha: seq<Casa>, n: nat, x: nat)
    requires n <= |linha| && x < n
    ensures LinhaRender(linha, n)[3 * x + 1] == Simbolo(linha[x])
    ensures LinhaRender(linha, n)[3 * x] == ' ' && LinhaRender(linha, n)[3 * x + 2] == ' '
  {
    GlifoDoSimbolo(linha[n - 1], linha[n - 1]);
    if x < n - 1 {
      LinhaRenderSimbolo(linha, n - 1, x);
    }
  }

  lemma LinhasRenderSimbolo(b: Tabuleiro, n: nat, y: nat, x: nat)
    requires n <= 8 && y < n && x < 8
    ensures LinhasRender(b, n)[27 * y] == Digito(y)
    ensures LinhasRender(b, n)[27 * y + 3 + 3 * x] == Simbolo(b[y][x])
  {
    var anteriores := LinhasRender(b, n - 1);
    if y < n - 1 {
      LinhasRenderSimbolo(b, n - 1, y, x);
      assert LinhasRender(b, n)[27 * y] == anteriores[27 * y];
      assert LinhasRender(b, n)[27 * y + 3 + 3 * x] == anteriores[27 * y + 3 + 3 * x];
    } else {
      LinhaRenderSimbolo(b[y], 8, x);
      var linha := LinhaImpressa(b, y);
      assert LinhasRender(b, n) == anteriores + linha;
      assert linha[3 + 3 * x] == LinhaRender(b[y], 8)[3 * x + 1];
    }
  }

  /** Where the printed text shows each row number and each square's symbol. */
  lemma RenderizarPosicoes(b: Tabuleiro, y: nat, x: nat)
    requires y < 8 && x < 8
    ensures Renderizar(b)[..26] == Cabecalho
    ensures Renderizar(b)[26 + 27 * y] == Digito(y)
    ensures Renderizar(b)[29 + 27 * y + 3 * x] == Simbolo(b[y][x])
  {
    LinhasRenderSimbolo(b, 8, y, x);
  }

  /** Two boards that print the same are the same board. */
  lemma RenderizarInjetiva(b: Tabuleiro, e: Tabuleiro)
    requires Renderizar(b) == Renderizar(e)
    ensures b == e
  {
    forall y | 0 <= y < 8 ensures b[y] == e[y] {
      forall x | 0 <= x < 8 ensures b[y][x] == e[y][x] {
        RenderizarPosicoes(b, y, x);
        RenderizarPosicoes(e, y, x);
        GlifoDoSimbolo(b[y][x], e[y][x]);
      }
    }
  }

  // ---------------------------------------------------------------- the game object

  class Jogo {
    var tabuleiro: array2<Casa>
    var vez: Jogador

    ghost predicate Valid()
      reads this
    {
      tabuleiro.Length0 == 8 && tabuleiro.Length1 == 8
    }

    /** The board as a value: row `y`, column `x` is `tabuleiro[y, x]`. */
    function Tab(): (b: Tabuleiro)
      reads this, tabuleiro
      requires Valid()
      ensures forall y, x :: 0 <= y < 8 && 0 <= x < 8 ==> b[y][x] == tabuleiro[y, x]
    {
      var t := tabuleiro;
      seq(8, y requires 0 <= y < 8 reads t => seq(8, x requires 0 <= x < 8 reads t => t[y, x]))
    }

    /** The board as a value depends only on the array and its squares. */
    twostate lemma TabPreservada()
      requires old(Valid()) && unchanged(this) && unchanged(old(tabuleiro))
      ensures Valid() && Tab() == old(Tab())
    {
    }

    /** `casa`: the square at `c`, which must be on the board. */
    function LerCasa(c: Coord): (r: Casa)
      reads this, tabuleiro
      requires Valid() && EValida(c)
      ensures r == CasaEm(Tab(), c)
    {
      tabuleiro[c.y, c.x]
    }

    /** `peça`: the piece at `c`, if any. */
    function LerPeca(c: Coord): (r: Option<Peca>)
      reads this, tabuleiro
      requires Valid() && EValida(c)
      ensures r == PecaEm(Tab(), c)
    {
      LerCasa(c).GetPeca()
    }

    constructor (t: array2<Casa>, v: Jogador)
      requires t.Length0 == 8 && t.Length1 == 8
      ensures Valid() && tabuleiro == t && vez == v
    {
      tabuleiro := t;
      vez := v;
    }

    /** `clone`: a game with a fresh copy of the board and the same side to move. */
    constructor Clonar(outro: Jogo)
      requires outro.Valid()
      ensures Valid() && fresh(tabuleiro) && Tab() == outro.Tab() && vez == outro.vez
    {
      var t := new Casa[8, 8]((_, _) => Vazia);
      for y := 0 to 8
        invariant forall i, j :: 0 <= i < y && 0 <= j < 8 ==> t[i, j] == outro.tabuleiro[i, j]
      {
        for x := 0 to 8
          invariant forall i, j :: 0 <= i < y && 0 <= j < 8 ==> t[i, j] == outro.tabuleiro[i, j]
          invariant forall j :: 0 <= j < x ==> t[y, j] == outro.tabuleiro[y, j]
        {
          t[y, x] := outro.tabuleiro[y, x];
        }
      }
      tabuleiro := t;
      vez := outro.vez;
      new;
      forall y | 0 <= y < 8 ensures Tab()[y] == outro.Tab()[y] {
      }
    }

    /**
     * `new`: reads a grid of characters, white to move. The source panics on the
     * first character that is not one of `p b P B .`; here that is `Failure`.
     */
    static method New(grade: Grade) returns (r: Result<Jogo, char>)
      ensures r.Failure? <==> !GradeValida(grade)
      ensures r.Failure? ==> DecodificarCasa(r.error).None? && exists y, x :: 0 <= y < 8 && 0 <= x < 8 && grade[y][x] == r.error
      ensures r.Success? ==> fresh(r.value) && fresh(r.value.tabuleiro) && r.value.Valid()
      ensures r.Success? ==> r.value.Tab() == Decodificar(grade) && r.value.vez == Branco
    {
      var tab := new Casa[8, 8]((_, _) => Vazia);
      for y := 0 to 8
        invariant forall i, j :: 0 <= i < y && 0 <= j < 8 ==> DecodificarCasa(grade[i][j]) == Some(tab[i, j])
        invariant forall i, j :: y <= i < 8 && 0 <= j < 8 ==> tab[i, j] == Vazia
      {
        for x := 0 to 8
          invariant forall i, j :: 0 <= i < y && 0 <= j < 8 ==> DecodificarCasa(grade[i][j]) == Some(tab[i, j])
          invariant forall j :: 0 <= j < x ==> DecodificarCasa(grade[y][j]) == Some(tab[y, j])
          invariant forall i, j :: 0 <= i < 8 && 0 <= j < 8 && (i > y || (i == y && j >= x)) ==> tab[i, j] == Vazia
        {
          match grade[y][x]
          case 'p' => tab[y, x] := Ocupada(Preta);
          case 'b' => tab[y, x] := Ocupada(Branca);
          case 'P' => tab[y, x] := Ocupada(DamaPreta);
          case 'B' => tab[y, x] := Ocupada(DamaBranca);
          case '.' =>
          case c =>
            return Failure(c);
        }
      }
      var jogo := new Jogo(tab, Branco);
      assert GradeValida(grade);
      forall y | 0 <= y < 8 ensures jogo.Tab()[y] == Decodificar(grade)[y] {
        forall x | 0 <= x < 8 ensures jogo.Tab()[y][x] == Decodificar(grade)[y][x] {
          assert DecodificarCasa(grade[y][x]) == Some(tab[y, x]);
        }
      }
      return Success(jogo);
    }

    /** `default`: the starting grid, white to move. */
    static method Default() returns (jogo: Jogo)
      ensures fresh(jogo) && fresh(jogo.tabuleiro) && jogo.Valid()
      ensures GradeValida(TabuleiroInicialChars) && jogo.Tab() == Decodificar(TabuleiroInicialChars)
      ensures jogo.vez == Branco
    {
      GradeInicialValida();
      var r := New(TabuleiroInicialChars);
      jogo := r.value;
    }

    /** `fmt` of `Display`: the column header, then one line per row. */
    method Exibir() returns (s: string)
      requires Valid()
      ensures s == Renderizar(Tab())
    {
      ghost var b := Tab();
      s := "   0  1  2  3  4  5  6  7\n";
      for y := 0 to 8
        invariant s == Cabecalho + LinhasRender(b, y)
      {
        var linha := ExibirLinha(y);
        Reagrupa(Cabecalho, LinhasRender(b, y), linha);
        s := s + linha;
      }
    }

    /** Row `y` as the body of the outer loop of `fmt` writes it. */
    method ExibirLinha(y: nat) returns (s: string)
      requires Valid() && y < 8
      ensures s == LinhaImpressa(Tab(), y)
    {
      ghost var linha := Tab()[y];
      var glifos := "";
      for x := 0 to 8
        invariant glifos == LinhaRender(linha, x)
      {
        var casa := tabuleiro[y, x];
        assert casa == linha[x];
        if casa.Vazia? {
          glifos := glifos + " . ";
        } else {
          var peca := casa.peca;
          if peca == Branca {
            glifos := glifos + " x ";
          } else if peca == Preta {
            glifos := glifos + " o ";
          } else if peca == DamaBranca {
            glifos := glifos + " X ";
          } else {
            glifos := glifos + " O ";
          }
        }
      }
      s := [Digito(y), ' '] + glifos + "\n";
    }

    /** `casa_mut` followed by an assignment. */
    method EscreverCasa(c: Coord, v: Casa)
      requires Valid() && EValida(c)
      modifies tabuleiro
      ensures Valid() && Tab() == Atualizar(old(Tab()), c, v)
    {
      tabuleiro[c.y, c.x] := v;
      forall y | 0 <= y < 8 ensures Tab()[y] == Atualizar(old(Tab()), c, v)[y] {
      }
    }

    /** `mover_sem_checar`: the destination gets the origin's square, then the origin is emptied. */
    method MoverSemChecar(origem: Coord, destino: Coord)
      requires Valid() && EValida(origem) && EValida(destino)
      modifies tabuleiro
      ensures Valid() && Tab() == Regras.MoverSemChecar(old(Tab()), origem, destino)
    {
      EscreverCasa(destino, LerCasa(origem));
      EscreverCasa(origem, Vazia);
    }

    /** `executar_jogada`: a relocation, or a relocation that also empties the captured square. */
    method ExecutarJogada(jogada: Jogada)
      requires Valid() && JogadaNoTabuleiro(jogada)
      modifies tabuleiro
      ensures Valid() && Tab() == Regras.ExecutarJogada(old(Tab()), jogada)
    {
      match jogada
      case Mover(origem, destino) =>
        MoverSemChecar(origem, destino);
      case Capturar(origem, captura, destino) =>
        MoverSemChecar(origem, destino);
        EscreverCasa(captura, Vazia);
    }

    /** `passar_turno`: the other side moves next; the board is untouched. */
    method PassarTurno()
      modifies this`vez
      ensures vez == Outro(old(vez))
    {
      vez := match vez
        case Branco => Preto
        case Preto => Branco;
    }

    // ------------------------------------------------------------ simple moves

    /** One pass of the source's loop over directions: the empty squares along `Direcoes[i]`. */
    method MovimentosDamaNaDirecao(origem: Coord, i: nat, dir: Coord) returns (movimentos: seq<Jogada>)
      requires Valid() && i < 4 && dir == Direcoes[i]
      ensures movimentos == MovimentosDamaDir(Tab(), origem, i)
      ensures Tab() == old(Tab())
    {
      ghost var b := Tab();
      DirecoesUnitarias();
      var atual := Soma(origem, dir);
      movimentos := [];
      ghost var todos := Passos(origem, Raio(b, atual, dir));
      while EValida(atual) && LerCasa(atual).EVazia()
        invariant movimentos + Passos(origem, Raio(b, atual, dir)) == todos
        decreases Restantes(atual, dir)
      {
        PassosDoRaio(b, origem, atual, dir);
        Reagrupa(movimentos, [Mover(origem, atual)], Passos(origem, Raio(b, Soma(atual, dir), dir)));
        movimentos := movimentos + [Mover(origem, atual)];
        atual := Soma(atual, dir);
      }
      assert EValida(atual) ==> LerCasa(atual) == CasaEm(b, atual) by { assert Tab() == b; }
      PassosDoRaio(b, origem, atual, dir);
      assert movimentos + [] == movimentos;
    }

    /** `movimentos_dama`: along each direction, every empty square up to the first obstacle. */
    method MovimentosDama(origem: Coord) returns (movimentos: seq<Jogada>)
      requires Valid() && EValida(origem)
      ensures movimentos == Regras.MovimentosDama(Tab(), origem)
      ensures Tab() == old(Tab())
    {
      DirecoesUnitarias();
      var dirs := [C(1, 1), C(-1, -1), C(1, -1), C(-1, 1)];
      assert dirs == Direcoes;
      ghost var b := Tab();
      movimentos := [];
      for i := 0 to 4
        invariant Tab() == b
        invariant movimentos == MovimentosDamaAte(b, origem, i)
      {
        var novos := MovimentosDamaNaDirecao(origem, i, dirs[i]);
        movimentos := movimentos + novos;
      }
    }

    /** `calcular_movimentos`: the relocations of the piece on `origem`, which must be occupied. */
    method CalcularMovimentos(origem: Coord) returns (movimentos: seq<Jogada>)
      requires Valid() && EValida(origem) && CasaEm(Tab(), origem).Ocupada?
      ensures movimentos == Movimentos(Tab(), origem)
      ensures Tab() == old(Tab()) && vez == old(vez)
    {
      match LerPeca(origem).value
      case Branca => movimentos := Regras.MovimentosPeao(Tab(), origem);
      case Preta => movimentos := Regras.MovimentosPeao(Tab(), origem);
      case DamaBranca => movimentos := MovimentosDama(origem);
      case DamaPreta => movimentos := MovimentosDama(origem);
    }

    // ------------------------------------------------------------ immediate captures

    /**
     * One pass of the source's loop over the diagonal neighbours: the capture of
     * `vizinho`, when it holds a piece of the other side with an empty square behind it.
     */
    method CapturaDoVizinho(origem: Coord, vizinho: Coord) returns (captura: seq<Jogada>)
      requires Valid() && EValida(vizinho)
      ensures captura == Regras.CapturaDoVizinho(Tab(), vez, origem, vizinho)
    {
      captura := [];
      var casa := LerCasa(vizinho);
      if casa.Ocupada? {
        var peca := casa.peca;
        if EAVezDe(vez, peca) {
          return;
        }
        var destino := Soma(vizinho, Distancia(origem, vizinho));
        if EValida(destino) && LerCasa(destino).EVazia() {
          captura := [Capturar(origem, vizinho, destino)];
        }
      }
    }

    /**
     * `capturas_imediatas_peão`: each diagonal neighbour holding a piece of the other
     * side with an empty square behind it (checked to be on the board).
     */
    method CapturasImediatasPeao(origem: Coord) returns (capturas: seq<Jogada>)
      requires Valid() && EValida(origem)
      ensures capturas == CapturasPeao(Tab(), vez, origem)
    {
      ghost var b := Tab();
      var vizinhos := DiagonaisComiveis(origem);
      capturas := [];
      for k := 0 to |vizinhos|
        invariant capturas == CapturasPeaoEm(b, vez, origem, vizinhos[..k])
      {
        CapturasPeaoEmPrefixo(b, vez, origem, vizinhos, k);
        var captura := CapturaDoVizinho(origem, vizinhos[k]);
        capturas := capturas + captura;
      }
      assert vizinhos[..|vizinhos|] == vizinhos;
    }

    /** The empty squares from `pulo` along `dir`, each as a landing square of a jump over `alvo`. */
    method SaltosAte(origem: Coord, alvo: Coord, pulo: Coord, dir: Coord) returns (saltos: seq<Jogada>)
      requires Valid() && Unitaria(dir)
      ensures saltos == Saltos(origem, alvo, Raio(Tab(), pulo, dir))
    {
      ghost var b := Tab();
      var p := pulo;
      saltos := [];
      ghost var todos := Saltos(origem, alvo, Raio(b, pulo, dir));
      while EValida(p) && LerCasa(p).EVazia()
        invariant saltos + Saltos(origem, alvo, Raio(b, p, dir)) == todos
        decreases Restantes(p, dir)
      {
        SaltosDoRaio(b, origem, alvo, p, dir);
        Reagrupa(saltos, [Capturar(origem, alvo, p)], Saltos(origem, alvo, Raio(b, Soma(p, dir), dir)));
        saltos := saltos + [Capturar(origem, alvo, p)];
        p := Soma(p, dir);
      }
      assert EValida(p) ==> LerCasa(p) == CasaEm(b, p) by { assert Tab() == b; }
      SaltosDoRaio(b, origem, alvo, p, dir);
      assert saltos + [] == saltos;
    }

    /** One pass of the source's loop over directions: the king's captures along `Direcoes[i]`. */
    method CapturasDamaNaDirecao(origem: Coord, i: nat, dir: Coord) returns (novas: seq<Jogada>)
      requires Valid() && EValida(origem) && i < 4 && dir == Direcoes[i]
      ensures novas == CapturasDamaDir(Tab(), vez, origem, i)
      ensures Tab() == old(Tab()) && vez == old(vez)
    {
      ghost var b := Tab();
      CapturasDamaDirEm(b, vez, origem, i);
      novas := [];
      var atual := Soma(origem, dir);
      while EValida(atual) && LerCasa(atual).EVazia()
        invariant FimDoRaio(b, atual, dir) == FimDoRaio(b, Soma(origem, dir), dir)
        decreases Restantes(atual, dir)
      {
        atual := Soma(atual, dir);
      }
      if EValida(atual) {
        var peca := LerPeca(atual).value;
        if !EAVezDe(vez, peca) {
          var pulo := Soma(atual, Normal(Distancia(origem, atual)));
          if EValida(atual) && EValida(pulo) && LerCasa(pulo).EVazia() {
            novas := SaltosAte(origem, atual, pulo, dir);
          }
        }
      }
    }

    /**
     * `capturas_imediatas_dama`: along each direction, the first occupied square, when
     * it holds a piece of the other side, with each empty square beyond it.
     */
    method CapturasImediatasDama(origem: Coord) returns (capturas: seq<Jogada>)
      requires Valid() && EValida(origem)
      ensures capturas == CapturasDama(Tab(), vez, origem)
    {
      DirecoesUnitarias();
      var dirs := [C(1, 1), C(-1, -1), C(1, -1), C(-1, 1)];
      assert dirs == Direcoes;
      ghost var b, v := Tab(), vez;
      capturas := [];
      for i := 0 to 4
        invariant Tab() == b && vez == v
        invariant capturas == CapturasDamaAte(b, v, origem, i)
      {
        var novas := CapturasDamaNaDirecao(origem, i, dirs[i]);
        capturas := capturas + novas;
      }
    }

    /** `capturas_imediatas`: the single jumps of a piece of kind `peca` standing on `origem`. */
    method CapturasImediatas(origem: Coord, peca: Peca) returns (capturas: seq<Jogada>)
      requires Valid() && EValida(origem)
      ensures capturas == Regras.CapturasImediatas(Tab(), vez, origem, peca)
    {
      match peca
      case Branca => capturas := CapturasImediatasPeao(origem);
      case Preta => capturas := CapturasImediatasPeao(origem);
      case DamaBranca => capturas := CapturasImediatasDama(origem);
      case DamaPreta => capturas := CapturasImediatasDama(origem);
    }

    // ------------------------------------------------------------ capture chains

    /**
     * `calcular_capturas_recursivamente`: depth-first search over the jumps from the end
     * of the chain `stack` (which started on the ghost square `o0`). It records every
     * non-empty chain beginning with `stack` after the sequences already in
     * `sequencias`, and hands back the stack with its last jump popped.
     */
    method CalcularCapturasRecursivamente(origem: Coord, stack: seq<Jogada>, sequencias: seq<seq<Jogada>>,
                                          peca: Peca, ghost o0: Coord)
      returns (pilha: seq<Jogada>, novas: seq<seq<Jogada>>)
      requires Valid() && Cadeia(Tab(), vez, peca, o0, stack) && origem == FimDe(o0, stack)
      ensures pilha == if stack == [] then [] else stack[..|stack| - 1]
      ensures novas == sequencias + Busca(Tab(), vez, peca, o0, stack)
      ensures |novas| >= |sequencias| && novas[..|sequencias|] == sequencias
      ensures Gravadas(Tab(), vez, peca, o0, stack, sequencias, novas)
      ensures Tab() == old(Tab()) && vez == old(vez)
      decreases Casas - Capturadas(stack), 2
    {
      ghost var b, v := Tab(), vez;
      CadeiaLigada(b, v, peca, o0, stack);
      var capturas := CapturasImediatas(origem, peca);
      pilha, novas := PercorrerCapturas(stack, capturas, sequencias, peca, o0);
      ghost var apos := novas;
      if pilha != [] {
        novas := novas + [pilha];
      }
      if pilha != [] {
        pilha := pilha[..|pilha| - 1];
      }
      BuscaConclui(b, v, peca, o0, stack, capturas, sequencias, apos, novas);
    }

    /**
     * The loop of `calcular_capturas_recursivamente` over the immediate captures
     * `capturas` from the end of the chain `stack`: one `TentarCaptura` per jump, in
     * order, each handing the stack back unchanged.
     */
    method PercorrerCapturas(stack: seq<Jogada>, capturas: seq<Jogada>, sequencias: seq<seq<Jogada>>,
                             peca: Peca, ghost o0: Coord)
      returns (pilha: seq<Jogada>, novas: seq<seq<Jogada>>)
      requires Valid() && Cadeia(Tab(), vez, peca, o0, stack) && EValida(FimDe(o0, stack))
      requires capturas == Regras.CapturasImediatas(Tab(), vez, FimDe(o0, stack), peca)
      ensures pilha == stack
      ensures novas == sequencias + BuscaEm(Tab(), vez, peca, o0, stack, capturas, |capturas|)
      ensures Tab() == old(Tab()) && vez == old(vez)
      decreases Casas - Capturadas(stack), 1
    {
      pilha := stack;
      novas := sequencias;
      for k := 0 to |capturas|
        invariant Tab() == old(Tab()) && vez == old(vez) && pilha == stack
        invariant novas == sequencias + BuscaEm(Tab(), vez, peca, o0, stack, capturas, k)
      {
        pilha, novas := TentarCaptura(pilha, capturas[k], sequencias, novas, peca, o0, capturas, k);
      }
    }

    /** The scan of the stack for a jump over the square `captura` jumps. */
    method JaCapturada(pilha: seq<Jogada>, captura: Jogada) returns (repetida: bool)
      requires Valid() && SoCapturas(pilha) && captura.Capturar?
      ensures repetida <==> captura.capt in Capturadas(pilha)
      ensures Tab() == old(Tab()) && vez == old(vez)
    {
      for m := 0 to |pilha|
        invariant forall i :: 0 <= i < m ==> pilha[i].Captura() != captura.Captura()
      {
        if pilha[m].Captura() == captura.Captura() {
          return true;
        }
      }
      return false;
    }

    /**
     * One turn of the search's loop over the immediate captures `capturas` (the ghost
     * `capturas[k]` is `captura`): skip a jump over a square the stack has already
     * captured, otherwise push it, search on from where it lands, and get the stack back.
     */
    method TentarCaptura(stack: seq<Jogada>, captura: Jogada, sequencias: seq<seq<Jogada>>, novas: seq<seq<Jogada>>,
                         peca: Peca, ghost o0: Coord, ghost capturas: seq<Jogada>, ghost k: nat)
      returns (pilha: seq<Jogada>, depois: seq<seq<Jogada>>)
      requires Valid() && Cadeia(Tab(), vez, peca, o0, stack) && EValida(FimDe(o0, stack))
      requires k < |capturas| && captura == capturas[k]
      requires capturas == Regras.CapturasImediatas(Tab(), vez, FimDe(o0, stack), peca)
      requires novas == sequencias + BuscaEm(Tab(), vez, peca, o0, stack, capturas, k)
      ensures pilha == stack
      ensures depois == novas + ContribuicaoDe(Tab(), vez, peca, o0, stack, capturas, k)
      ensures depois == sequencias + BuscaEm(Tab(), vez, peca, o0, stack, capturas, k + 1)
      ensures Tab() == old(Tab()) && vez == old(vez)
      decreases Casas - Capturadas(stack), 0
    {
      ghost var b, v := Tab(), vez;
      assert CapturaValida(b, v, FimDe(o0, stack), captura);
      pilha, depois := stack, novas;
      var repetida := JaCapturada(pilha, captura);
      if repetida {
        ContribuicaoRepetida(b, v, peca, o0, stack, capturas, k);
        assert depois == novas + [];
        BuscaEmAvanca(b, v, peca, o0, stack, capturas, k, sequencias, novas, depois);
        return;
      }
      CadeiaEstende(b, v, peca, o0, stack, captura);
      CasasSaoAsValidas(captura.capt);
      CapturadasMais(stack, captura);
      pilha := pilha + [captura];
      pilha, depois := CalcularCapturasRecursivamente(captura.Destino(), pilha, novas, peca, o0);
      ContribuicaoNova(b, v, peca, o0, stack, capturas, k);
      BuscaEmAvanca(b, v, peca, o0, stack, capturas, k, sequencias, novas, depois);
    }

    /**
     * `calcular_capturas`: the longest capture chains of the piece on `origem`, searched
     * on a copy of the board with the origin emptied; `[[]]` when the square is empty
     * or the piece has no capture.
     */
    method CalcularCapturas(origem: Coord) returns (r: seq<seq<Jogada>>)
      requires Valid() && EValida(origem)
      ensures CasaEm(Tab(), origem).Vazia? ==> r == [[]]
      ensures CasaEm(Tab(), origem).Ocupada? && !TemCadeia(Tab(), vez, origem) ==> r == [[]]
      ensures TemCadeia(Tab(), vez, origem) ==> r != [] && forall s :: s in r <==> MaximaDe(Tab(), vez, origem, s)
      ensures Tab() == old(Tab()) && vez == old(vez)
    {
      var peca := LerPeca(origem);
      if peca.None? {
        return [[]];
      }
      ghost var b, v := Tab(), vez;
      var clone := new Jogo.Clonar(this);
      assert clone.tabuleiro != tabuleiro;
      clone.EscreverCasa(origem, Vazia);
      ghost var semOrigem := clone.Tab();
      assert semOrigem == SemOrigem(b, origem) && clone.vez == v && peca.value == CasaEm(b, origem).peca;
      var pilha, sequencias := clone.CalcularCapturasRecursivamente(origem, [], [], peca.value, origem);
      TabPreservada();
      MaioresSaoMaximas(b, v, origem, sequencias);
      if sequencias == [] {
        return [[]];
      }
      r := Maiores(sequencias);
    }

    // ------------------------------------------------------------ the whole turn

    /** `peças_da_cor_atual`: scan the board row by row for the pieces of the side to move. */
    method PecasDaCorAtual() returns (pecas: seq<Coord>)
      requires Valid()
      ensures pecas == PecasDaVez(Tab(), vez)
      ensures Tab() == old(Tab()) && vez == old(vez)
    {
      ghost var b := Tab();
      pecas := [];
      for y := 0 to 8
        invariant pecas == PecasAte(b, vez, y)
      {
        ghost var antes := pecas;
        for x := 0 to 8
          invariant pecas == antes + PecasNaLinha(b, vez, y, x)
        {
          var casa := tabuleiro[y, x];
          assert casa == CasaEm(b, C(x, y));
          ghost var novo := if PecaDaVez(b, vez, C(x, y)) then [C(x, y)] else [];
          Reagrupa(antes, PecasNaLinha(b, vez, y, x), novo);
          if casa.Ocupada? {
            if EAVezDe(vez, casa.peca) {
              pecas := pecas + [C(x, y)];
            }
          }
        }
      }
    }

    /** `acabou`: scan the board and stop at the first piece of the other side. */
    method Acabou() returns (acabou: bool)
      requires Valid()
      ensures acabou <==> SemInimigas(Tab(), vez)
    {
      ghost var b := Tab();
      for y := 0 to 8
        invariant forall q :: EValida(q) && q.y < y ==> !Inimiga(b, vez, q)
      {
        for x := 0 to 8
          invariant forall q :: EValida(q) && Antes(q, C(x, y)) ==> !Inimiga(b, vez, q)
        {
          var casa := tabuleiro[y, x];
          assert casa == CasaEm(b, C(x, y));
          if casa.Ocupada? {
            if !EAVezDe(vez, casa.peca) {
              assert Inimiga(b, vez, C(x, y));
              return false;
            }
          }
        }
      }
      return true;
    }

    /**
     * `todas_capturas_possiveis`: the longest chains of every piece of the side to move,
     * without the empty ones, keeping those of the greatest length.
     */
    method TodasCapturasPossiveis() returns (r: seq<seq<Jogada>>)
      requires Valid()
      ensures forall s :: s in r <==> MaximaDaVez(Tab(), vez, s)
      ensures r == [] <==> forall s :: !CadeiaDaVez(Tab(), vez, s)
      ensures Tab() == old(Tab()) && vez == old(vez)
    {
      ghost var b, v := Tab(), vez;
      var capturas := [];
      var pecas := PecasDaCorAtual();
      ColhidasInicio(b, v, pecas);
      for k := 0 to |pecas|
        invariant Tab() == b && vez == v
        invariant Colhidas(b, v, pecas[..k], capturas)
      {
        assert pecas[k] in pecas;
        var novas := CalcularCapturas(pecas[k]);
        ColhidasMais(b, v, pecas, k, capturas, novas);
        capturas := capturas + novas;
      }
      assert pecas[..|pecas|] == pecas;
      var cheias := NaoVazias(capturas);
      ColhidasTodas(b, v, pecas, capturas);
      MaximasGlobais(b, v, cheias);
      if cheias == [] {
        return [];
      }
      r := Maiores(cheias);
    }

    /** `todos_movimentos_possiveis`: the moves of every piece of the side to move, without the empty lists. */
    method TodosMovimentosPossiveis() returns (r: seq<seq<Jogada>>)
      requires Valid()
      ensures r == TodosMovimentos(Tab(), vez)
      ensures Tab() == old(Tab()) && vez == old(vez)
    {
      ghost var b, v := Tab(), vez;
      var movimentos := [];
      var pecas := PecasDaCorAtual();
      for k := 0 to |pecas|
        invariant Tab() == b && vez == v
        invariant |movimentos| == k && forall i :: 0 <= i < k ==> movimentos[i] == Movimentos(b, pecas[i])
      {
        assert pecas[k] in pecas;
        var novos := CalcularMovimentos(pecas[k]);
        movimentos := movimentos + [novos];
      }
      assert movimentos == MovimentosDas(b, pecas);
      r := NaoVazias(movimentos);
    }

    /** `todas_jogadas_possiveis`: the capture chains when there are any, the plain moves otherwise. */
    method TodasJogadasPossiveis() returns (r: seq<seq<Jogada>>)
      requires Valid()
      ensures JogadasDoTurno(Tab(), vez, r)
    {
      var capturas := TodasCapturasPossiveis();
      if capturas == [] {
        r := TodosMovimentosPossiveis();
      } else {
        r := capturas;
      }
    }
  }
}
