/**
 * The engine's rules as functions of a board value and the side to move
 * (`Jogo { tabuleiro, vez }` of src/jogo.rs). The class in jogo.dfy runs the
 * source's loops and is proved against these functions.
 */
module Regras {
  import opened Wrappers
  import opened Coord
  import opened Pecas

  /** `[[Casa; 8]; 8]`, indexed `[y][x]`. */
  type Tabuleiro = b: seq<seq<Casa>> | |b| == 8 && forall y :: 0 <= y < 8 ==> |b[y]| == 8
    witness seq(8, _ => seq(8, _ => Vazia))

  /** `casa(coord)`: the cell at an on-board square. */
  function CasaEm(b: Tabuleiro, c: Coord): Casa
    requires EValida(c)
  {
    b[c.y][c.x]
  }

  /** `peça(coord)`. */
  function PecaEm(b: Tabuleiro, c: Coord): Option<Peca>
    requires EValida(c)
  {
    CasaEm(b, c).GetPeca()
  }

  /** `*casa_mut(c) = v`: the board with one cell replaced. */
  function Atualizar(b: Tabuleiro, c: Coord, v: Casa): (r: Tabuleiro)
    requires EValida(c)
    ensures forall q :: EValida(q) ==> CasaEm(r, q) == if q == c then v else CasaEm(b, q)
  {
    b[c.y := b[c.y][c.x := v]]
  }

  /** `é_a_vez_de`: whether a piece belongs to the side to move. */
  function EAVezDe(vez: Jogador, p: Peca): (r: bool)
    ensures r <==> (p.EBranca() <==> vez == Branco)
    ensures r <==> (p.EPreta() <==> vez == Preto)
  {
    CorExclusiva(p);
    assert vez == Branco || vez == Preto;
    if p.EBranca() && vez == Preto then false
    else if p.EPreta() && vez == Branco then false
    else true
  }

  /** After `passar_turno` the side to move owns exactly the pieces it did not own before. */
  lemma PassarTurnoTrocaDono(vez: Jogador, p: Peca)
    ensures EAVezDe(Outro(vez), p) == !EAVezDe(vez, p)
  {
  }

  /** An on-board square holding a piece of the side to move. */
  predicate PecaDaVez(b: Tabuleiro, vez: Jogador, q: Coord)
    requires EValida(q)
  {
    CasaEm(b, q).Ocupada? && EAVezDe(vez, CasaEm(b, q).peca)
  }

  // ---------------------------------------------------------------- applying moves

  /**
   * `mover_sem_checar`: the destination receives the origin's cell, then the origin
   * is emptied, so that a move onto its own square erases the piece.
   */
  function MoverSemChecar(b: Tabuleiro, origem: Coord, destino: Coord): (r: Tabuleiro)
    requires EValida(origem) && EValida(destino)
    ensures forall q :: EValida(q) ==>
      CasaEm(r, q) == if q == origem then Vazia else if q == destino then CasaEm(b, origem) else CasaEm(b, q)
  {
    Atualizar(Atualizar(b, destino, CasaEm(b, origem)), origem, Vazia)
  }

  /** The squares a move names are on the board. */
  predicate JogadaNoTabuleiro(j: Jogada)
  {
    EValida(j.Origem()) && EValida(j.Destino()) && (j.Capturar? ==> EValida(j.Captura()))
  }

  /** `executar_jogada`: relocate, and for a capture also empty the captured square. */
  function ExecutarJogada(b: Tabuleiro, j: Jogada): (r: Tabuleiro)
    requires JogadaNoTabuleiro(j)
    ensures forall q :: EValida(q) ==>
      CasaEm(r, q) ==
        if q == j.Origem() || (j.Capturar? && q == j.Captura()) then Vazia
        else if q == j.Destino() then CasaEm(b, j.Origem())
        else CasaEm(b, q)
  {
    match j
    case Mover(o, d) => MoverSemChecar(b, o, d)
    case Capturar(o, c, d) => Atualizar(MoverSemChecar(b, o, d), c, Vazia)
  }

  /** A relocation followed by the reverse relocation restores the board when the destination was empty. */
  lemma MoverIdaEVolta(b: Tabuleiro, o: Coord, d: Coord)
    requires EValida(o) && EValida(d) && o != d && CasaEm(b, d).EVazia()
    ensures MoverSemChecar(MoverSemChecar(b, o, d), d, o) == b
  {
    var r := MoverSemChecar(MoverSemChecar(b, o, d), d, o);
    forall y | 0 <= y < 8
      ensures r[y] == b[y]
    {
      forall x | 0 <= x < 8
        ensures r[y][x] == b[y][x]
      {
        assert CasaEm(r, Coord(x, y)) == CasaEm(b, Coord(x, y));
      }
    }
  }

  // ---------------------------------------------------------------- rays

  /** How many more on-board squares a ray along `d` can visit from `a`. */
  function Restantes(a: Coord, d: Coord): nat
  {
    if !EValida(a) then 0 else if d.x > 0 then 8 - a.x else a.x + 1
  }

  /**
   * The consecutive empty squares from `a` (inclusive) along the unit diagonal `d`,
   * stopping at the first occupied square or at the board's edge.
   */
  function Raio(b: Tabuleiro, a: Coord, d: Coord): (r: seq<Coord>)
    requires Unitaria(d)
    decreases Restantes(a, d)
  {
    if EValida(a) && CasaEm(b, a).EVazia() then [a] + Raio(b, Soma(a, d), d) else []
  }

  /** The ray holds the consecutive steps from `a`, each on the board and empty, and stops at an obstacle. */
  lemma {:induction false} RaioPropriedades(b: Tabuleiro, a: Coord, d: Coord)
    requires Unitaria(d)
    ensures forall k :: 0 <= k < |Raio(b, a, d)| ==>
      Raio(b, a, d)[k] == Passo(a, d, k) && EValida(Raio(b, a, d)[k]) && CasaEm(b, Raio(b, a, d)[k]).EVazia()
    ensures var n := |Raio(b, a, d)|; !EValida(Passo(a, d, n)) || !CasaEm(b, Passo(a, d, n)).EVazia()
    decreases Restantes(a, d)
  {
    var r := Raio(b, a, d);
    if EValida(a) && CasaEm(b, a).EVazia() {
      var s := Soma(a, d);
      var resto := Raio(b, s, d);
      RaioPropriedades(b, s, d);
      assert r == [a] + resto;
      forall k | 0 <= k < |r|
        ensures r[k] == Passo(a, d, k) && EValida(r[k]) && CasaEm(b, r[k]).EVazia()
      {
        if k > 0 {
          assert r[k] == resto[k - 1];
          assert Passo(s, d, k - 1) == Passo(a, d, k);
        }
      }
      assert Passo(s, d, |resto|) == Passo(a, d, |r|);
    } else {
      assert r == [];
    }
  }

  /** The square where the ray stops: off the board or the first occupied one. */
  function FimDoRaio(b: Tabuleiro, a: Coord, d: Coord): (r: Coord)
    requires Unitaria(d)
    decreases Restantes(a, d)
  {
    if EValida(a) && CasaEm(b, a).EVazia() then FimDoRaio(b, Soma(a, d), d) else a
  }

  /** The ray stops right after its last square, off the board or on an occupied square. */
  lemma {:induction false} FimDoRaioPropriedades(b: Tabuleiro, a: Coord, d: Coord)
    requires Unitaria(d)
    ensures FimDoRaio(b, a, d) == Passo(a, d, |Raio(b, a, d)|)
    ensures !EValida(FimDoRaio(b, a, d)) || CasaEm(b, FimDoRaio(b, a, d)).Ocupada?
    decreases Restantes(a, d)
  {
    if EValida(a) && CasaEm(b, a).EVazia() {
      FimDoRaioPropriedades(b, Soma(a, d), d);
    }
  }

  lemma DirecoesUnitarias()
    ensures forall i :: 0 <= i < 4 ==> Unitaria(Direcoes[i])
    ensures |Direcoes| == 4
  {
  }

  // ---------------------------------------------------------------- simple moves

  /** One relocation from `o` to each square of `cs`, in order. */
  function Passos(o: Coord, cs: seq<Coord>): (r: seq<Jogada>)
    ensures |r| == |cs|
    ensures forall k :: 0 <= k < |r| ==> r[k] == Mover(o, cs[k])
  {
    if cs == [] then [] else [Mover(o, cs[0])] + Passos(o, cs[1..])
  }

  /** The relocations along a ray: one to its first square and the rest, or none. */
  lemma PassosDoRaio(b: Tabuleiro, o: Coord, a: Coord, d: Coord)
    requires Unitaria(d)
    ensures EValida(a) && CasaEm(b, a).EVazia() ==>
      Passos(o, Raio(b, a, d)) == [Mover(o, a)] + Passos(o, Raio(b, Soma(a, d), d))
    ensures !(EValida(a) && CasaEm(b, a).EVazia()) ==> Raio(b, a, d) == []
  {
    if EValida(a) && CasaEm(b, a).EVazia() {
      var resto := Raio(b, Soma(a, d), d);
      assert Raio(b, a, d) == [a] + resto;
      assert ([a] + resto)[1..] == resto;
    }
  }

  /** The king's relocations along the `i`-th direction. */
  function MovimentosDamaDir(b: Tabuleiro, o: Coord, i: nat): seq<Jogada>
    requires i < 4
  {
    DirecoesUnitarias();
    Passos(o, Raio(b, Soma(o, Direcoes[i]), Direcoes[i]))
  }

  /** The king's relocations along the first `n` directions. */
  function MovimentosDamaAte(b: Tabuleiro, o: Coord, n: nat): (r: seq<Jogada>)
    requires n <= 4
    ensures forall m :: m in r ==> m.Mover? && m.orig == o && EValida(m.dest) && CasaEm(b, m.dest).EVazia()
  {
    if n == 0 then []
    else
      DirecoesUnitarias();
      RaioPropriedades(b, Soma(o, Direcoes[n - 1]), Direcoes[n - 1]);
      MovimentosDamaAte(b, o, n - 1) + MovimentosDamaDir(b, o, n - 1)
  }

  /** A relocation is among those along `cs` exactly when it leaves `o` for a square of `cs`. */
  lemma PassosMembros(o: Coord, cs: seq<Coord>)
    ensures forall m :: m in Passos(o, cs) <==> m.Mover? && m.orig == o && m.dest in cs
  {
    var r := Passos(o, cs);
    forall m: Jogada | m.Mover? && m.orig == o && m.dest in cs ensures m in r {
      var k :| 0 <= k < |cs| && cs[k] == m.dest;
      assert r[k] == m;
    }
  }

  /** Along the first `n` directions a king moves exactly to the squares of those rays. */
  lemma {:induction false} MovimentosDamaAteMembros(b: Tabuleiro, o: Coord, n: nat)
    requires n <= 4
    ensures forall m :: m in MovimentosDamaAte(b, o, n) <==>
      m.Mover? && m.orig == o && exists i :: 0 <= i < n && m.dest in Raio(b, Soma(o, Direcoes[i]), Direcoes[i])
  {
    if n > 0 {
      MovimentosDamaAteMembros(b, o, n - 1);
      DirecoesUnitarias();
      PassosMembros(o, Raio(b, Soma(o, Direcoes[n - 1]), Direcoes[n - 1]));
    }
  }

  /**
   * `movimentos_dama`: the four rays of empty squares, in the order (1,1), (-1,-1), (1,-1),
   * (-1,1). A king moves exactly to the squares of those rays, each on the board and empty.
   */
  function MovimentosDama(b: Tabuleiro, o: Coord): (r: seq<Jogada>)
    ensures forall m :: m in r <==>
      m.Mover? && m.orig == o && exists i :: 0 <= i < 4 && m.dest in Raio(b, Soma(o, Direcoes[i]), Direcoes[i])
    ensures forall m :: m in r ==> EValida(m.dest) && CasaEm(b, m.dest).EVazia()
  {
    MovimentosDamaAteMembros(b, o, 4);
    MovimentosDamaAte(b, o, 4)
  }

  /** The empty squares among `cs`, in order. */
  function FiltrarVazias(b: Tabuleiro, cs: seq<Coord>): (r: seq<Coord>)
    requires forall k :: 0 <= k < |cs| ==> EValida(cs[k])
    ensures |r| <= |cs|
    ensures forall c :: c in r <==> c in cs && EValida(c) && CasaEm(b, c).EVazia()
    ensures Subsequencia(r, cs)
    ensures |r| == |cs| ==> r == cs
  {
    if cs == [] then []
    else if CasaEm(b, cs[0]).EVazia() then [cs[0]] + FiltrarVazias(b, cs[1..])
    else FiltrarVazias(b, cs[1..])
  }

  /** A man's stepping squares: forward for white, rear for black. */
  function DiagonaisDoPeao(p: Peca, o: Coord): seq<Coord>
    requires EValida(o)
  {
    if p == Branca then DiagonaisFrente(o) else DiagonaisAtras(o)
  }

  /** `movimentos_peão`; the source panics unless the square holds a man. */
  function MovimentosPeao(b: Tabuleiro, o: Coord): (r: seq<Jogada>)
    requires EValida(o) && (PecaEm(b, o) == Some(Branca) || PecaEm(b, o) == Some(Preta))
    ensures |r| <= 2
    ensures forall m :: m in r <==>
      m.Mover? && m.orig == o && m.dest in DiagonaisDoPeao(CasaEm(b, o).peca, o) && CasaEm(b, m.dest).EVazia()
    ensures |r| == 2 ==> r[0].dest.x < r[1].dest.x
    ensures SemRepeticao(r)
  {
    var cs := DiagonaisDoPeao(CasaEm(b, o).peca, o);
    var r := Passos(o, FiltrarVazias(b, cs));
    assert forall m :: m in r ==> exists k :: 0 <= k < |r| && r[k] == m;
    assert |r| == 2 ==> FiltrarVazias(b, cs) == cs;
    r
  }

  /** `calcular_movimentos`; the source panics on an empty square. */
  function Movimentos(b: Tabuleiro, o: Coord): (r: seq<Jogada>)
    requires EValida(o) && CasaEm(b, o).Ocupada?
    ensures forall m :: m in r ==> m.Mover? && m.orig == o && EValida(m.dest) && CasaEm(b, m.dest).EVazia()
  {
    if CasaEm(b, o).peca.EDama() then MovimentosDama(b, o) else MovimentosPeao(b, o)
  }

  // ---------------------------------------------------------------- immediate captures

  /** A capture from `o` that jumps a piece of the other side and lands on an empty square. */
  predicate CapturaValida(b: Tabuleiro, vez: Jogador, o: Coord, j: Jogada)
  {
    && j.Capturar? && j.orig == o && EValida(j.capt) && EValida(j.dest)
    && CasaEm(b, j.capt).Ocupada? && !EAVezDe(vez, CasaEm(b, j.capt).peca)
    && CasaEm(b, j.dest).EVazia()
  }

  /** Where a man jumping from `o` over its neighbour `v` lands: `v + o.distancia(v)`. */
  function Pouso(o: Coord, v: Coord): Coord
  {
    Soma(v, Distancia(o, v))
  }

  /** `v` holds a piece of the other side. */
  predicate Inimiga(b: Tabuleiro, vez: Jogador, v: Coord)
    requires EValida(v)
  {
    CasaEm(b, v).Ocupada? && !EAVezDe(vez, CasaEm(b, v).peca)
  }

  /** A man on `o` can jump `v`: an enemy piece with an on-board empty square behind it. */
  predicate SaltavelPeloPeao(b: Tabuleiro, vez: Jogador, o: Coord, v: Coord)
    requires EValida(v)
  {
    Inimiga(b, vez, v) && EValida(Pouso(o, v)) && CasaEm(b, Pouso(o, v)).EVazia()
  }

  /**
   * The loop of `capturas_imediatas_peão` over the neighbours `vizinhos`, with the
   * landing square checked to be on the board (see CapturasPeaoComoEscrito).
   */
  function CapturasPeaoEm(b: Tabuleiro, vez: Jogador, o: Coord, vizinhos: seq<Coord>): (r: seq<Jogada>)
    requires forall k :: 0 <= k < |vizinhos| ==> EValida(vizinhos[k])
    ensures |r| <= |vizinhos|
  {
    if vizinhos == [] then []
    else CapturaDoVizinho(b, vez, o, vizinhos[0]) + CapturasPeaoEm(b, vez, o, vizinhos[1..])
  }

  /** The man's jumps are exactly those over a jumpable neighbour, landing just behind it. */
  lemma {:induction false} CapturasPeaoEmMembros(b: Tabuleiro, vez: Jogador, o: Coord, vizinhos: seq<Coord>)
    requires forall k :: 0 <= k < |vizinhos| ==> EValida(vizinhos[k])
    ensures forall j :: j in CapturasPeaoEm(b, vez, o, vizinhos) <==>
      j.Capturar? && j.orig == o && j.capt in vizinhos && EValida(j.capt)
      && SaltavelPeloPeao(b, vez, o, j.capt) && j.dest == Pouso(o, j.capt)
  {
    if vizinhos != [] {
      assert forall c :: c in vizinhos <==> c == vizinhos[0] || c in vizinhos[1..];
      CapturasPeaoEmMembros(b, vez, o, vizinhos[1..]);
    }
  }

  /** Extending the neighbour list by one square appends that square's jump, if any. */
  lemma {:induction false} CapturasPeaoEmMaisUm(b: Tabuleiro, vez: Jogador, o: Coord, vizinhos: seq<Coord>, v: Coord)
    requires forall k :: 0 <= k < |vizinhos| ==> EValida(vizinhos[k])
    requires EValida(v)
    ensures CapturasPeaoEm(b, vez, o, vizinhos + [v]) == CapturasPeaoEm(b, vez, o, vizinhos) + CapturaDoVizinho(b, vez, o, v)
  {
    if vizinhos == [] {
      assert ([] + [v])[1..] == [];
    } else {
      assert (vizinhos + [v])[1..] == vizinhos[1..] + [v];
      CapturasPeaoEmMaisUm(b, vez, o, vizinhos[1..], v);
    }
  }

  /** The captures over the first `k + 1` neighbours extend those over the first `k` by one turn. */
  lemma CapturasPeaoEmPrefixo(b: Tabuleiro, vez: Jogador, o: Coord, vizinhos: seq<Coord>, k: nat)
    requires forall i :: 0 <= i < |vizinhos| ==> EValida(vizinhos[i])
    requires k < |vizinhos|
    ensures CapturasPeaoEm(b, vez, o, vizinhos[..k + 1])
      == CapturasPeaoEm(b, vez, o, vizinhos[..k]) + CapturaDoVizinho(b, vez, o, vizinhos[k])
  {
    assert vizinhos[..k + 1] == vizinhos[..k] + [vizinhos[k]];
    CapturasPeaoEmMaisUm(b, vez, o, vizinhos[..k], vizinhos[k]);
  }

  /** One turn of the loop of `capturas_imediatas_peão`: the jump over the neighbour `v`, if any. */
  function CapturaDoVizinho(b: Tabuleiro, vez: Jogador, o: Coord, v: Coord): (r: seq<Jogada>)
    requires EValida(v)
    ensures r == [] || r == [Capturar(o, v, Pouso(o, v))]
    ensures r != [] <==> SaltavelPeloPeao(b, vez, o, v)
  {
    match CasaEm(b, v)
    case Vazia => []
    case Ocupada(p) =>
      if EAVezDe(vez, p) then []
      else
        var destino := Soma(v, Distancia(o, v));
        if EValida(destino) && CasaEm(b, destino).EVazia() then [Capturar(o, v, destino)]
        else []
  }

  /**
   * The same loop as the source writes it: the landing square is indexed without
   * an on-board check, which panics. `None` stands for that panic.
   */
  function CapturasPeaoComoEscrito(b: Tabuleiro, vez: Jogador, o: Coord, vizinhos: seq<Coord>): (r: Option<seq<Jogada>>)
    requires forall k :: 0 <= k < |vizinhos| ==> EValida(vizinhos[k])
    ensures r.None? <==> exists k :: 0 <= k < |vizinhos| && Inimiga(b, vez, vizinhos[k]) && !EValida(Pouso(o, vizinhos[k]))
    ensures r.Some? ==> r.value == CapturasPeaoEm(b, vez, o, vizinhos)
  {
    if vizinhos == [] then Some([])
    else
      var v := vizinhos[0];
      var resto := CapturasPeaoComoEscrito(b, vez, o, vizinhos[1..]);
      assert forall k :: 1 <= k < |vizinhos| ==> vizinhos[k] == vizinhos[1..][k - 1];
      match CasaEm(b, v)
      case Vazia => resto
      case Ocupada(p) =>
        if EAVezDe(vez, p) then resto
        else
          var destino := Soma(v, Distancia(o, v));
          if !EValida(destino) then None
          else if CasaEm(b, destino).EVazia() then
            if resto.Some? then Some([Capturar(o, v, destino)] + resto.value) else None
          else resto
  }

  /** `capturas_imediatas_peão`. */
  function CapturasPeao(b: Tabuleiro, vez: Jogador, o: Coord): (r: seq<Jogada>)
    requires EValida(o)
    ensures forall j :: j in r ==> CapturaValida(b, vez, o, j)
  {
    CapturasPeaoEmMembros(b, vez, o, DiagonaisComiveis(o));
    CapturasPeaoEm(b, vez, o, DiagonaisComiveis(o))
  }

  /** A white man on (1,1) beside a black piece in the corner (0,0); nothing else on the board. */
  function TabuleiroDoCanto(): (b: Tabuleiro)
    ensures Canto(b)
  {
    Atualizar(Atualizar(seq(8, _ => seq(8, _ => Vazia)), C(1, 1), Ocupada(Branca)), C(0, 0), Ocupada(Preta))
  }

  /** A black piece in the corner (0,0) and the other three neighbours of (1,1) empty. */
  predicate Canto(b: Tabuleiro)
  {
    CasaEm(b, C(0, 0)) == Ocupada(Preta)
    && CasaEm(b, C(2, 0)) == Vazia && CasaEm(b, C(0, 2)) == Vazia && CasaEm(b, C(2, 2)) == Vazia
  }

  /** The four neighbours of (1,1), forward ones first. */
  lemma VizinhosDoCanto(o: Coord)
    requires o == C(1, 1)
    ensures DiagonaisComiveis(o) == [C(0, 0), C(2, 0), C(0, 2), C(2, 2)]
  {
    DiagonaisComiveisFrenteAtras(o);
  }

  /** Neighbours none of which can be jumped give no capture. */
  lemma {:induction false} CapturasPeaoEmNenhuma(b: Tabuleiro, vez: Jogador, o: Coord, vizinhos: seq<Coord>)
    requires forall k :: 0 <= k < |vizinhos| ==> EValida(vizinhos[k]) && !SaltavelPeloPeao(b, vez, o, vizinhos[k])
    ensures CapturasPeaoEm(b, vez, o, vizinhos) == []
  {
    if vizinhos != [] {
      CapturasPeaoEmNenhuma(b, vez, o, vizinhos[1..]);
    }
  }

  /**
   * A white man on (1,1) with a black piece in the corner: the source reads the
   * square behind the corner, (-1,-1), which is off the board, so the as-written
   * function returns `None`. `TabuleiroDoCanto` is such a board.
   */
  lemma PeaoJuntoAoCantoComoEscrito(b: Tabuleiro, o: Coord)
    requires Canto(b) && o == C(1, 1)
    ensures CapturasPeaoComoEscrito(b, Branco, o, DiagonaisComiveis(o)).None?
  {
    CantoInimigo(b, o);
    ComoEscritoFalha(b, Branco, o, 0);
  }

  /** The first neighbour of (1,1) is the black corner piece, and the square behind it is off the board. */
  lemma CantoInimigo(b: Tabuleiro, o: Coord)
    requires Canto(b) && o == C(1, 1)
    ensures EValida(o) && 0 < |DiagonaisComiveis(o)|
    ensures Inimiga(b, Branco, DiagonaisComiveis(o)[0]) && !EValida(Pouso(o, DiagonaisComiveis(o)[0]))
  {
    VizinhosDoCanto(o);
  }

  /** The as-written function fails as soon as one enemy neighbour has its landing square off the board. */
  lemma ComoEscritoFalha(b: Tabuleiro, vez: Jogador, o: Coord, k: nat)
    requires EValida(o) && k < |DiagonaisComiveis(o)|
    requires Inimiga(b, vez, DiagonaisComiveis(o)[k]) && !EValida(Pouso(o, DiagonaisComiveis(o)[k]))
    ensures CapturasPeaoComoEscrito(b, vez, o, DiagonaisComiveis(o)).None?
  {
  }

  /** On the same boards the corrected function finds no capture. */
  lemma PeaoJuntoAoCantoCorrigido(b: Tabuleiro, o: Coord)
    requires Canto(b) && o == C(1, 1)
    ensures CapturasPeao(b, Branco, o) == []
  {
    VizinhosDoCanto(o);
    var vizinhos := DiagonaisComiveis(o);
    forall k | 0 <= k < |vizinhos| ensures !SaltavelPeloPeao(b, Branco, o, vizinhos[k]) {
      if k == 0 {
        assert !EValida(Pouso(o, vizinhos[k]));
      } else {
        assert CasaEm(b, vizinhos[k]) == Vazia;
      }
    }
    CapturasPeaoEmNenhuma(b, Branco, o, vizinhos);
  }

  /** One capture of `alvo` from `o` for each landing square of `cs`, in order. */
  function Saltos(o: Coord, alvo: Coord, cs: seq<Coord>): (r: seq<Jogada>)
    ensures |r| == |cs|
    ensures forall k :: 0 <= k < |r| ==> r[k] == Capturar(o, alvo, cs[k])
  {
    if cs == [] then [] else [Capturar(o, alvo, cs[0])] + Saltos(o, alvo, cs[1..])
  }

  /** The jumps landing along a ray: one on its first square and the rest, or none. */
  lemma SaltosDoRaio(b: Tabuleiro, o: Coord, alvo: Coord, a: Coord, d: Coord)
    requires Unitaria(d)
    ensures EValida(a) && CasaEm(b, a).EVazia() ==>
      Saltos(o, alvo, Raio(b, a, d)) == [Capturar(o, alvo, a)] + Saltos(o, alvo, Raio(b, Soma(a, d), d))
    ensures !(EValida(a) && CasaEm(b, a).EVazia()) ==> Raio(b, a, d) == []
  {
    if EValida(a) && CasaEm(b, a).EVazia() {
      var resto := Raio(b, Soma(a, d), d);
      assert Raio(b, a, d) == [a] + resto;
      assert ([a] + resto)[1..] == resto;
    }
  }

  /**
   * The king's captures along the `i`-th direction: the first occupied square of the
   * ray, when it holds a piece of the other side, with each empty square beyond it.
   */
  function CapturasDamaDir(b: Tabuleiro, vez: Jogador, o: Coord, i: nat): (r: seq<Jogada>)
    requires EValida(o) && i < 4
  {
    DirecoesUnitarias();
    var d := Direcoes[i];
    var atual := FimDoRaio(b, Soma(o, d), d);
    FimDoRaioPropriedades(b, Soma(o, d), d);
    if EValida(atual) && !EAVezDe(vez, CasaEm(b, atual).peca) then
      var pulo := Soma(atual, Normal(Distancia(o, atual)));
      if EValida(atual) && EValida(pulo) && CasaEm(b, pulo).EVazia() then Saltos(o, atual, Raio(b, pulo, d)) else []
    else []
  }

  /**
   * The `i`-th direction's captures written with the landing step made explicit: the
   * source's `origem.distancia(atual).normal()` is the direction itself.
   */
  lemma CapturasDamaDirEm(b: Tabuleiro, vez: Jogador, o: Coord, i: nat)
    requires EValida(o) && i < 4
    ensures Unitaria(Direcoes[i])
    ensures var d := Direcoes[i]; var atual := FimDoRaio(b, Soma(o, d), d);
      EValida(atual) ==> CasaEm(b, atual).Ocupada? && Soma(atual, Normal(Distancia(o, atual))) == Soma(atual, d)
    ensures var d := Direcoes[i]; var atual := FimDoRaio(b, Soma(o, d), d);
      CapturasDamaDir(b, vez, o, i) ==
        if EValida(atual) && Inimiga(b, vez, atual) then Saltos(o, atual, Raio(b, Soma(atual, d), d)) else []
  {
    DirecoesUnitarias();
    var d := Direcoes[i];
    FimDoRaioPropriedades(b, Soma(o, d), d);
    var atual := FimDoRaio(b, Soma(o, d), d);
    NormalDoPasso(o, d, |Raio(b, Soma(o, d), d)| + 1);
    assert Passo(Soma(o, d), d, |Raio(b, Soma(o, d), d)|) == Passo(o, d, |Raio(b, Soma(o, d), d)| + 1);
  }

  /**
   * A king captures along a direction exactly the first occupied square of the ray,
   * when it holds a piece of the other side, landing on each empty square beyond it.
   */
  lemma CapturasDamaDirMembros(b: Tabuleiro, vez: Jogador, o: Coord, i: nat)
    requires EValida(o) && i < 4
    ensures forall j :: j in CapturasDamaDir(b, vez, o, i) <==>
      var d := Direcoes[i];
      j.Capturar? && j.orig == o && j.capt == FimDoRaio(b, Soma(o, d), d) && EValida(j.capt)
      && Inimiga(b, vez, j.capt) && j.dest in Raio(b, Soma(j.capt, d), d)
  {
    CapturasDamaDirEm(b, vez, o, i);
  }

  /** The king's captures along the first `n` directions. */
  function CapturasDamaAte(b: Tabuleiro, vez: Jogador, o: Coord, n: nat): seq<Jogada>
    requires EValida(o) && n <= 4
  {
    if n == 0 then [] else CapturasDamaAte(b, vez, o, n - 1) + CapturasDamaDir(b, vez, o, n - 1)
  }

  /** Every capture generated for a king jumps a piece of the other side and lands on an empty square. */
  lemma {:induction false} CapturasDamaValidas(b: Tabuleiro, vez: Jogador, o: Coord, n: nat)
    requires EValida(o) && n <= 4
    ensures forall j :: j in CapturasDamaAte(b, vez, o, n) ==> CapturaValida(b, vez, o, j)
  {
    if n > 0 {
      CapturasDamaValidas(b, vez, o, n - 1);
      CapturasDamaDirMembros(b, vez, o, n - 1);
      DirecoesUnitarias();
      var d := Direcoes[n - 1];
      forall j | j in CapturasDamaDir(b, vez, o, n - 1) ensures CapturaValida(b, vez, o, j) {
        RaioPropriedades(b, Soma(j.capt, d), d);
      }
    }
  }

  /** Over the first `n` directions a king captures exactly what it captures along one of them. */
  lemma {:induction false} CapturasDamaAteMembros(b: Tabuleiro, vez: Jogador, o: Coord, n: nat)
    requires EValida(o) && n <= 4
    ensures forall j :: j in CapturasDamaAte(b, vez, o, n) <==> exists i :: 0 <= i < n && j in CapturasDamaDir(b, vez, o, i)
  {
    if n > 0 {
      CapturasDamaAteMembros(b, vez, o, n - 1);
    }
  }

  /**
   * `capturas_imediatas_dama`: the captures along the four directions, each a valid
   * capture, none listed twice.
   */
  function CapturasDama(b: Tabuleiro, vez: Jogador, o: Coord): (r: seq<Jogada>)
    requires EValida(o)
    ensures forall j :: j in r <==> exists i :: 0 <= i < 4 && j in CapturasDamaDir(b, vez, o, i)
    ensures forall j :: j in r ==> CapturaValida(b, vez, o, j)
    ensures SemRepeticao(r)
  {
    CapturasDamaAteMembros(b, vez, o, 4);
    CapturasDamaValidas(b, vez, o, 4);
    CapturasDamaAteSemRepeticao(b, vez, o, 4);
    CapturasDamaAte(b, vez, o, 4)
  }

  /** Distinct neighbours give a man distinct jumps. */
  lemma {:induction false} CapturasPeaoEmSemRepeticao(b: Tabuleiro, vez: Jogador, o: Coord, vizinhos: seq<Coord>)
    requires forall k :: 0 <= k < |vizinhos| ==> EValida(vizinhos[k])
    requires SemRepeticao(vizinhos)
    ensures SemRepeticao(CapturasPeaoEm(b, vez, o, vizinhos))
  {
    if vizinhos != [] {
      var resto := vizinhos[1..];
      assert SemRepeticao(resto) by {
        forall i, j | 0 <= i < j < |resto| ensures resto[i] != resto[j] {
          assert resto[i] == vizinhos[i + 1] && resto[j] == vizinhos[j + 1];
        }
      }
      CapturasPeaoEmSemRepeticao(b, vez, o, resto);
      CapturasPeaoEmMembros(b, vez, o, resto);
      var cabeca := CapturaDoVizinho(b, vez, o, vizinhos[0]);
      forall j | j in cabeca ensures j !in CapturasPeaoEm(b, vez, o, resto) {
        assert j.capt == vizinhos[0];
        assert vizinhos[0] !in resto by {
          forall i | 0 <= i < |resto| ensures resto[i] != vizinhos[0] {
            assert resto[i] == vizinhos[i + 1];
          }
        }
      }
      SemRepeticaoJuntas(cabeca, CapturasPeaoEm(b, vez, o, resto));
    }
  }

  /** A man never lists the same jump twice. */
  lemma CapturasPeaoSemRepeticao(b: Tabuleiro, vez: Jogador, o: Coord)
    requires EValida(o)
    ensures SemRepeticao(CapturasPeao(b, vez, o))
  {
    DiagonaisComiveisSemRepeticao(o);
    CapturasPeaoEmSemRepeticao(b, vez, o, DiagonaisComiveis(o));
  }

  /**
   * Jumps of `alvo` onto consecutive squares `m`, `m + 1`, ... steps out from `o` along
   * `d` are distinct, and each lands along `d` as seen from `o`.
   */
  lemma SaltosAoLongoSemRepeticao(o: Coord, alvo: Coord, d: Coord, m: int, cs: seq<Coord>)
    requires Unitaria(d) && m >= 1
    requires forall k :: 0 <= k < |cs| ==> cs[k] == Passo(o, d, m + k)
    ensures SemRepeticao(Saltos(o, alvo, cs))
    ensures forall j :: j in Saltos(o, alvo, cs) ==> j.Capturar? && Normal(Distancia(o, j.dest)) == d
  {
    var r := Saltos(o, alvo, cs);
    forall p, q | 0 <= p < q < |r| ensures r[p] != r[q] {
      PassoInjetivo(o, d, m + p, m + q);
    }
    forall j | j in r ensures j.Capturar? && Normal(Distancia(o, j.dest)) == d {
      var k :| 0 <= k < |r| && r[k] == j;
      NormalDoPasso(o, d, m + k);
    }
  }

  /**
   * A king's jumps along the `i`-th direction are distinct, and each lands along that
   * direction as seen from `o`.
   */
  lemma CapturasDamaDirSemRepeticao(b: Tabuleiro, vez: Jogador, o: Coord, i: nat)
    requires EValida(o) && i < 4
    ensures SemRepeticao(CapturasDamaDir(b, vez, o, i))
    ensures forall j :: j in CapturasDamaDir(b, vez, o, i) ==> j.Capturar? && Normal(Distancia(o, j.dest)) == Direcoes[i]
  {
    CapturasDamaDirEm(b, vez, o, i);
    var d := Direcoes[i];
    var inicio := Soma(o, d);
    var atual := FimDoRaio(b, inicio, d);
    if EValida(atual) && Inimiga(b, vez, atual) {
      FimDoRaioPropriedades(b, inicio, d);
      RaioPropriedades(b, Soma(atual, d), d);
      PassoDePasso(o, d, 1, |Raio(b, inicio, d)|);
      forall k | 0 <= k < |Raio(b, Soma(atual, d), d)| ensures Raio(b, Soma(atual, d), d)[k] == Passo(atual, d, k + 1) {
        PassoDePasso(atual, d, 1, k);
      }
      SaltosAlemSemRepeticao(o, d, |Raio(b, inicio, d)|, atual, Raio(b, Soma(atual, d), d));
    }
  }

  /**
   * Jumps of the piece `alvo`, `n + 1` steps out from `o` along `d`, onto the consecutive
   * squares `cs` just beyond it are distinct, and each lands along `d` as seen from `o`.
   */
  lemma SaltosAlemSemRepeticao(o: Coord, d: Coord, n: nat, alvo: Coord, cs: seq<Coord>)
    requires Unitaria(d) && alvo == Passo(o, d, n + 1)
    requires forall k :: 0 <= k < |cs| ==> cs[k] == Passo(alvo, d, k + 1)
    ensures SemRepeticao(Saltos(o, alvo, cs))
    ensures forall j :: j in Saltos(o, alvo, cs) ==> j.Capturar? && Normal(Distancia(o, j.dest)) == d
  {
    forall k | 0 <= k < |cs| ensures cs[k] == Passo(o, d, n + 2 + k) {
      PassoDePasso(o, d, n + 1, k + 1);
    }
    SaltosAoLongoSemRepeticao(o, alvo, d, n + 2, cs);
  }

  /** The four directions are distinct. */
  lemma DirecoesSemRepeticao()
    ensures SemRepeticao(Direcoes)
  {
  }

  /** A king's jumps along the first `n` directions are distinct, each landing along one of them. */
  lemma {:induction false} CapturasDamaAteSemRepeticao(b: Tabuleiro, vez: Jogador, o: Coord, n: nat)
    requires EValida(o) && n <= 4
    ensures SemRepeticao(CapturasDamaAte(b, vez, o, n))
    ensures forall j :: j in CapturasDamaAte(b, vez, o, n) ==> j.Capturar? && Normal(Distancia(o, j.dest)) in Direcoes[..n]
  {
    if n > 0 {
      CapturasDamaAteSemRepeticao(b, vez, o, n - 1);
      CapturasDamaDirSemRepeticao(b, vez, o, n - 1);
      DirecoesSemRepeticao();
      var antes := CapturasDamaAte(b, vez, o, n - 1);
      var dir := CapturasDamaDir(b, vez, o, n - 1);
      forall j | j in antes ensures j !in dir {
        var e := Normal(Distancia(o, j.dest));
        var i :| 0 <= i < n - 1 && Direcoes[..n - 1][i] == e;
        assert e == Direcoes[i] != Direcoes[n - 1];
      }
      SemRepeticaoJuntas(antes, dir);
      forall j | j in CapturasDamaAte(b, vez, o, n) ensures j.Capturar? && Normal(Distancia(o, j.dest)) in Direcoes[..n] {
        if j in antes {
          var e := Normal(Distancia(o, j.dest));
          var i :| 0 <= i < n - 1 && Direcoes[..n - 1][i] == e;
          assert Direcoes[..n][i] == e;
        } else {
          assert Direcoes[..n][n - 1] == Direcoes[n - 1];
        }
      }
    }
  }

  /** `capturas_imediatas`: the single jumps a piece of kind `p` standing on `o` can make. */
  function CapturasImediatas(b: Tabuleiro, vez: Jogador, o: Coord, p: Peca): (r: seq<Jogada>)
    requires EValida(o)
    ensures forall j :: j in r ==> CapturaValida(b, vez, o, j)
  {
    CapturasDamaValidas(b, vez, o, 4);
    match p
    case Branca => CapturasPeao(b, vez, o)
    case Preta => CapturasPeao(b, vez, o)
    case DamaBranca => CapturasDama(b, vez, o)
    case DamaPreta => CapturasDama(b, vez, o)
  }

  /** A piece never lists the same immediate capture twice. */
  lemma CapturasImediatasSemRepeticao(b: Tabuleiro, vez: Jogador, o: Coord, p: Peca)
    requires EValida(o)
    ensures SemRepeticao(CapturasImediatas(b, vez, o, p))
  {
    CapturasPeaoSemRepeticao(b, vez, o);
    CapturasDamaAteSemRepeticao(b, vez, o, 4);
  }
}
