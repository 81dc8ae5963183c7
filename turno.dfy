/**
 * What the side to move can do on a whole board: its pieces in scanning order,
 * whether the other side has any piece left, its plain moves, and the choice
 * between captures and moves (`peças_da_cor_atual`, `acabou`,
 * `todos_movimentos_possiveis`, `todas_jogadas_possiveis` of src/jogo.rs).
 */
module Turno {
  import opened Coord
  import opened Pecas
  import opened Regras
  import opened Cadeias

  // ---------------------------------------------------------------- pieces of the side to move

  /** The engine's scanning order, row by row and left to right: `p` comes before `q`. */
  predicate Antes(p: Coord, q: Coord)
  {
    p.y < q.y || (p.y == q.y && p.x < q.x)
  }

  /** The side's pieces among the first `n` squares of row `y`, left to right. */
  function PecasNaLinha(b: Tabuleiro, vez: Jogador, y: nat, n: nat): seq<Coord>
    requires y < 8 && n <= 8
  {
    if n == 0 then []
    else
      var c := C(n - 1, y);
      PecasNaLinha(b, vez, y, n - 1) + (if PecaDaVez(b, vez, c) then [c] else [])
  }

  /** The side's pieces in the first `m` rows, in scanning order. */
  function PecasAte(b: Tabuleiro, vez: Jogador, m: nat): seq<Coord>
    requires m <= 8
  {
    if m == 0 then [] else PecasAte(b, vez, m - 1) + PecasNaLinha(b, vez, m - 1, 8)
  }

  /**
   * `peças_da_cor_atual`: every on-board square holding a piece of the side, nothing
   * else, each once, ordered by row and then by column.
   */
  function PecasDaVez(b: Tabuleiro, vez: Jogador): (r: seq<Coord>)
    ensures forall q :: q in r <==> EValida(q) && PecaDaVez(b, vez, q)
    ensures EmOrdem(r)
  {
    PecasAteMembros(b, vez, 8);
    PecasAte(b, vez, 8)
  }

  /** A sequence of squares in strictly increasing scanning order. */
  predicate EmOrdem(cs: seq<Coord>)
  {
    forall i, j :: 0 <= i < j < |cs| ==> Antes(cs[i], cs[j])
  }

  /** Two runs in order, every square of the first before every square of the second, make one. */
  lemma EmOrdemJuntas(xs: seq<Coord>, ys: seq<Coord>)
    requires EmOrdem(xs) && EmOrdem(ys)
    requires forall p, q :: p in xs && q in ys ==> Antes(p, q)
    ensures EmOrdem(xs + ys)
  {
    var r := xs + ys;
    forall i, j | 0 <= i < j < |r|
      ensures Antes(r[i], r[j])
    {
      if j < |xs| {
        assert r[i] == xs[i] && r[j] == xs[j];
      } else if i >= |xs| {
        assert r[i] == ys[i - |xs|] && r[j] == ys[j - |xs|];
      } else {
        assert r[i] in xs && r[j] in ys;
      }
    }
  }

  /** Part of a row finds exactly the side's pieces it passes, left to right. */
  lemma {:induction false} PecasNaLinhaMembros(b: Tabuleiro, vez: Jogador, y: nat, n: nat)
    requires y < 8 && n <= 8
    ensures forall q :: q in PecasNaLinha(b, vez, y, n) <==> EValida(q) && q.y == y && q.x < n && PecaDaVez(b, vez, q)
    ensures EmOrdem(PecasNaLinha(b, vez, y, n))
  {
    if n > 0 {
      PecasNaLinhaMembros(b, vez, y, n - 1);
      var c := C(n - 1, y);
      var antes := PecasNaLinha(b, vez, y, n - 1);
      var novo := if PecaDaVez(b, vez, c) then [c] else [];
      assert PecasNaLinha(b, vez, y, n) == antes + novo;
      EmOrdemJuntas(antes, novo);
    }
  }

  /** The first `m` rows find exactly the side's pieces in them, in scanning order. */
  lemma {:induction false} PecasAteMembros(b: Tabuleiro, vez: Jogador, m: nat)
    requires m <= 8
    ensures forall q :: q in PecasAte(b, vez, m) <==> EValida(q) && q.y < m && PecaDaVez(b, vez, q)
    ensures EmOrdem(PecasAte(b, vez, m))
  {
    if m > 0 {
      PecasAteMembros(b, vez, m - 1);
      PecasNaLinhaMembros(b, vez, m - 1, 8);
      var antes := PecasAte(b, vez, m - 1);
      var linha := PecasNaLinha(b, vez, m - 1, 8);
      assert PecasAte(b, vez, m) == antes + linha;
      EmOrdemJuntas(antes, linha);
    }
  }

  // ---------------------------------------------------------------- end of the game

  /** Occupied squares hold an enemy piece exactly when they hold a piece of the other side. */
  lemma InimigasSaoDoOutro(b: Tabuleiro, vez: Jogador)
    ensures forall q :: EValida(q) ==> (Inimiga(b, vez, q) <==> PecaDaVez(b, Outro(vez), q))
  {
    forall q | EValida(q) && CasaEm(b, q).Ocupada?
      ensures Inimiga(b, vez, q) <==> PecaDaVez(b, Outro(vez), q)
    {
      PassarTurnoTrocaDono(vez, CasaEm(b, q).peca);
    }
  }

  /**
   * `acabou`: no square holds a piece of the other side, which is to say that the other
   * side has no piece to list.
   */
  ghost predicate SemInimigas(b: Tabuleiro, vez: Jogador): (r: bool)
    ensures r <==> PecasDaVez(b, Outro(vez)) == []
  {
    InimigasSaoDoOutro(b, vez);
    var ps := PecasDaVez(b, Outro(vez));
    assert ps != [] ==> ps[0] in ps;
    forall q :: EValida(q) ==> !Inimiga(b, vez, q)
  }

  // ---------------------------------------------------------------- plain moves

  /** The moves of the pieces on `qs`, one list per square, in order. */
  function MovimentosDas(b: Tabuleiro, qs: seq<Coord>): seq<seq<Jogada>>
    requires forall q :: q in qs ==> EValida(q) && CasaEm(b, q).Ocupada?
  {
    seq(|qs|, i requires 0 <= i < |qs| => Movimentos(b, qs[i]))
  }

  /**
   * The non-empty move lists of the pieces on `qs`, the squares of the side's pieces: exactly
   * the non-empty lists of moves of those pieces, each move relocating one of them to an
   * empty square.
   */
  lemma MovimentosDasMembros(b: Tabuleiro, vez: Jogador, qs: seq<Coord>)
    requires forall q :: q in qs <==> EValida(q) && PecaDaVez(b, vez, q)
    requires forall q :: q in qs ==> EValida(q) && CasaEm(b, q).Ocupada?
    ensures forall ms :: ms in NaoVazias(MovimentosDas(b, qs)) <==>
      ms != [] && exists q :: EValida(q) && PecaDaVez(b, vez, q) && ms == Movimentos(b, q)
    ensures forall ms, m :: ms in NaoVazias(MovimentosDas(b, qs)) && m in ms ==>
      m.Mover? && EValida(m.orig) && PecaDaVez(b, vez, m.orig) && EValida(m.dest) && CasaEm(b, m.dest).EVazia()
  {
    var todas := MovimentosDas(b, qs);
    forall ms | ms in todas
      ensures exists q :: EValida(q) && PecaDaVez(b, vez, q) && ms == Movimentos(b, q)
    {
      var i :| 0 <= i < |todas| && todas[i] == ms;
      assert qs[i] in qs;
    }
    forall q | EValida(q) && PecaDaVez(b, vez, q)
      ensures Movimentos(b, q) in todas
    {
      var i :| 0 <= i < |qs| && qs[i] == q;
      assert todas[i] == Movimentos(b, q);
    }
    forall ms, m | ms in NaoVazias(todas) && m in ms
      ensures m.Mover? && EValida(m.orig) && PecaDaVez(b, vez, m.orig) && EValida(m.dest) && CasaEm(b, m.dest).EVazia()
    {
      var q :| EValida(q) && PecaDaVez(b, vez, q) && ms == Movimentos(b, q);
    }
  }

  /**
   * `todos_movimentos_possiveis`: the non-empty move lists of the side's pieces, in
   * scanning order. A list is offered exactly when it is the non-empty list of moves of
   * some piece of the side; each of its moves relocates that piece to an empty square.
   */
  function TodosMovimentos(b: Tabuleiro, vez: Jogador): (r: seq<seq<Jogada>>)
    ensures forall ms :: ms in r <==> ms != [] && exists q :: EValida(q) && PecaDaVez(b, vez, q) && ms == Movimentos(b, q)
    ensures forall ms, m :: ms in r && m in ms ==>
      m.Mover? && EValida(m.orig) && PecaDaVez(b, vez, m.orig) && EValida(m.dest) && CasaEm(b, m.dest).EVazia()
  {
    MovimentosDasMembros(b, vez, PecasDaVez(b, vez));
    NaoVazias(MovimentosDas(b, PecasDaVez(b, vez)))
  }

  // ---------------------------------------------------------------- gathering the captures

  /**
   * `cs` holds what `calcular_capturas` returned for the squares `qs`: every non-empty
   * entry is a longest chain of one of them, and every longest chain of each of them is there.
   */
  ghost predicate Colhidas(b: Tabuleiro, vez: Jogador, qs: seq<Coord>, cs: seq<seq<Jogada>>)
  {
    && (forall s :: s in cs && s != [] ==> exists q :: q in qs && MaximaDe(b, vez, q, s))
    && (forall q, s :: q in qs && MaximaDe(b, vez, q, s) ==> s in cs)
    && (forall q :: q in qs && TemCadeia(b, vez, q) ==> exists u :: u in cs && MaximaDe(b, vez, q, u))
  }

  lemma ColhidasInicio(b: Tabuleiro, vez: Jogador, qs: seq<Coord>)
    ensures Colhidas(b, vez, qs[..0], [])
  {
  }

  /** Appending what `calcular_capturas` promises for the next square keeps the gathering. */
  lemma ColhidasMais(b: Tabuleiro, vez: Jogador, qs: seq<Coord>, k: nat, cs: seq<seq<Jogada>>, novas: seq<seq<Jogada>>)
    requires k < |qs| && EValida(qs[k])
    requires Colhidas(b, vez, qs[..k], cs)
    requires !TemCadeia(b, vez, qs[k]) ==> novas == [[]]
    requires TemCadeia(b, vez, qs[k]) ==> forall s :: s in novas <==> MaximaDe(b, vez, qs[k], s)
    requires TemCadeia(b, vez, qs[k]) ==> novas != []
    ensures Colhidas(b, vez, qs[..k + 1], cs + novas)
  {
    var q := qs[k];
    assert qs[..k + 1] == qs[..k] + [q];
    forall s | s in cs + novas && s != []
      ensures exists q' :: q' in qs[..k + 1] && MaximaDe(b, vez, q', s)
    {
      if s !in cs {
        assert s in novas;
        assert MaximaDe(b, vez, q, s);
      }
    }
    forall q', s | q' in qs[..k + 1] && MaximaDe(b, vez, q', s)
      ensures s in cs + novas
    {
      if q' == q {
        assert TemCadeia(b, vez, q);
      } else {
        assert q' in qs[..k];
      }
    }
    forall q' | q' in qs[..k + 1] && TemCadeia(b, vez, q')
      ensures exists u :: u in cs + novas && MaximaDe(b, vez, q', u)
    {
      if q' == q {
        assert novas[0] in cs + novas;
      } else {
        assert q' in qs[..k];
      }
    }
  }

  /** Gathered over all the side's pieces, the non-empty entries satisfy the longest-chain lemma's premises. */
  lemma ColhidasTodas(b: Tabuleiro, vez: Jogador, qs: seq<Coord>, cs: seq<seq<Jogada>>)
    requires forall q :: q in qs <==> EValida(q) && PecaDaVez(b, vez, q)
    requires Colhidas(b, vez, qs, cs)
    ensures SoMaximas(b, vez, NaoVazias(cs)) && Cobertas(b, vez, NaoVazias(cs))
  {
    var cheias := NaoVazias(cs);
    forall s: seq<Jogada>
      ensures s in cheias <==> MaximaDeUmaPeca(b, vez, s)
    {
      if s in cheias {
        var q :| q in qs && MaximaDe(b, vez, q, s);
        CadeiaDeComecaNaOrigem(b, vez, q, s);
      }
      if MaximaDeUmaPeca(b, vez, s) {
        assert s[0].Origem() in qs;
      }
    }
    forall q | EValida(q) && PecaDaVez(b, vez, q) && TemCadeia(b, vez, q)
      ensures exists u :: u in cheias && MaximaDe(b, vez, q, u)
    {
      var u :| u in cs && MaximaDe(b, vez, q, u);
      assert u in cheias;
    }
  }

  // ---------------------------------------------------------------- the turn's options

  /**
   * `todas_jogadas_possiveis` as the rules state it: the longest capture chains of the
   * side when it has any, its plain moves otherwise.
   */
  ghost predicate JogadasDoTurno(b: Tabuleiro, vez: Jogador, r: seq<seq<Jogada>>)
  {
    && ((exists s :: CadeiaDaVez(b, vez, s)) ==> (forall s :: s in r <==> MaximaDaVez(b, vez, s)))
    && ((forall s :: !CadeiaDaVez(b, vez, s)) ==> r == TodosMovimentos(b, vez))
  }

  /** When a capture exists, every option offered is a non-empty run of captures. */
  lemma JogadasDoTurnoCapturam(b: Tabuleiro, vez: Jogador, r: seq<seq<Jogada>>)
    requires JogadasDoTurno(b, vez, r) && exists s :: CadeiaDaVez(b, vez, s)
    ensures forall s, m :: s in r && m in s ==> m.Capturar?
    ensures forall s :: s in r ==> s != []
  {
    forall s | s in r
      ensures s != [] && forall m :: m in s ==> m.Capturar?
    {
      CapturaObrigatoria(b, vez, s);
    }
  }

  /** Without captures, every option offered is a non-empty list of plain moves of one piece. */
  lemma JogadasDoTurnoMovem(b: Tabuleiro, vez: Jogador, r: seq<seq<Jogada>>)
    requires JogadasDoTurno(b, vez, r) && forall s :: !CadeiaDaVez(b, vez, s)
    ensures forall ms, m :: ms in r && m in ms ==> m.Mover? && EValida(m.orig) && PecaDaVez(b, vez, m.orig)
    ensures forall ms :: ms in r ==> ms != []
  {
  }
}
