/**
 * Capture chains: what the recursive search of src/jogo/mod.rs looks for, and the
 * "longest chains only" filtering that follows it.
 */
module Cadeias {
  import opened Wrappers
  import opened Coord
  import opened Pecas
  import opened Regras

  /** The square the `i`-th jump of a chain that starts on `o0` leaves from. */
  function OrigemDoPasso(o0: Coord, s: seq<Jogada>, i: nat): Coord
    requires i <= |s|
  {
    if i == 0 then o0 else s[i - 1].Destino()
  }

  /** Where the piece stands once the chain `s` from `o0` is done. */
  function FimDe(o0: Coord, s: seq<Jogada>): Coord
  {
    OrigemDoPasso(o0, s, |s|)
  }

  predicate SoCapturas(s: seq<Jogada>)
  {
    forall i :: 0 <= i < |s| ==> s[i].Capturar?
  }

  /** The squares a sequence of captures has jumped. */
  function Capturadas(s: seq<Jogada>): set<Coord>
  {
    set i | 0 <= i < |s| && s[i].Capturar? :: s[i].capt
  }

  lemma CapturadasMais(s: seq<Jogada>, j: Jogada)
    requires j.Capturar?
    ensures Capturadas(s + [j]) == Capturadas(s) + {j.capt}
  {
    var t := s + [j];
    assert forall i :: 0 <= i < |s| ==> t[i] == s[i];
    assert t[|s|] == j;
    forall c | c in Capturadas(t) ensures c in Capturadas(s) + {j.capt} {
      var i :| 0 <= i < |t| && t[i].Capturar? && t[i].capt == c;
      if i < |s| { assert s[i].capt == c; }
    }
  }

  /**
   * `s` is a capture chain for a piece of kind `p` starting on `o0`: every jump is an
   * immediate capture from the square the previous one landed on, and no square is
   * captured twice.
   */
  ghost predicate Cadeia(b: Tabuleiro, vez: Jogador, p: Peca, o0: Coord, s: seq<Jogada>)
  {
    && EValida(o0)
    && SoCapturas(s)
    && (forall i {:trigger OrigemDoPasso(o0, s, i)} :: 0 <= i < |s| ==>
          EValida(OrigemDoPasso(o0, s, i)) && s[i] in CapturasImediatas(b, vez, OrigemDoPasso(o0, s, i), p))
    && (forall i, j :: 0 <= i < j < |s| ==> s[i].capt != s[j].capt)
  }

  /** `s` begins with `t`. */
  predicate Prolonga(s: seq<Jogada>, t: seq<Jogada>)
  {
    |s| >= |t| && s[..|t|] == t
  }

  /** A chain starts on its origin, each jump leaves from where the previous one landed, and lands on the board. */
  lemma CadeiaLigada(b: Tabuleiro, vez: Jogador, p: Peca, o0: Coord, s: seq<Jogada>)
    requires Cadeia(b, vez, p, o0, s)
    ensures s != [] ==> s[0].Origem() == o0
    ensures forall i :: 0 < i < |s| ==> s[i].Origem() == s[i - 1].Destino()
    ensures forall i :: 0 <= i < |s| ==> CapturaValida(b, vez, OrigemDoPasso(o0, s, i), s[i])
    ensures EValida(FimDe(o0, s))
    ensures SoCapturas(s) && Capturadas(s) <= Casas
  {
    forall i | 0 <= i < |s|
      ensures CapturaValida(b, vez, OrigemDoPasso(o0, s, i), s[i])
    {
      assert s[i] in CapturasImediatas(b, vez, OrigemDoPasso(o0, s, i), p);
    }
    forall c | c in Capturadas(s) ensures c in Casas {
      var i :| 0 <= i < |s| && s[i].capt == c;
      CasasSaoAsValidas(c);
    }
    if s != [] {
      assert CapturaValida(b, vez, OrigemDoPasso(o0, s, |s| - 1), s[|s| - 1]);
    }
  }

  /** Every prefix of a chain is a chain. */
  lemma CadeiaPrefixo(b: Tabuleiro, vez: Jogador, p: Peca, o0: Coord, s: seq<Jogada>, k: nat)
    requires Cadeia(b, vez, p, o0, s) && k <= |s|
    ensures Cadeia(b, vez, p, o0, s[..k])
  {
    var t := s[..k];
    forall i | 0 <= i < |t|
      ensures t[i].Capturar? && EValida(OrigemDoPasso(o0, t, i))
      ensures t[i] in CapturasImediatas(b, vez, OrigemDoPasso(o0, t, i), p)
    {
      assert OrigemDoPasso(o0, t, i) == OrigemDoPasso(o0, s, i);
    }
    assert forall i, j :: 0 <= i < j < |t| ==> t[i] == s[i] && t[j] == s[j];
  }

  /** A chain grows by an immediate capture from its end that jumps a square not jumped before. */
  lemma CadeiaEstende(b: Tabuleiro, vez: Jogador, p: Peca, o0: Coord, s: seq<Jogada>, j: Jogada)
    requires Cadeia(b, vez, p, o0, s)
    requires EValida(FimDe(o0, s)) && j in CapturasImediatas(b, vez, FimDe(o0, s), p)
    requires j.Capturar? && j.capt !in Capturadas(s)
    ensures Cadeia(b, vez, p, o0, s + [j])
    ensures FimDe(o0, s + [j]) == j.dest
  {
    var t := s + [j];
    assert forall i :: 0 <= i < |s| ==> t[i] == s[i];
    assert t[|s|] == j;
    forall i | 0 <= i < |t|
      ensures t[i].Capturar? && EValida(OrigemDoPasso(o0, t, i))
      ensures t[i] in CapturasImediatas(b, vez, OrigemDoPasso(o0, t, i), p)
    {
      if i < |s| {
        if 0 < i { assert t[i - 1] == s[i - 1]; }
        assert OrigemDoPasso(o0, t, i) == OrigemDoPasso(o0, s, i);
        assert t[i] == s[i];
      } else {
        if 0 < i { assert t[i - 1] == s[i - 1]; }
        assert OrigemDoPasso(o0, t, i) == FimDe(o0, s);
      }
    }
    forall i, k | 0 <= i < k < |t|
      ensures t[i].capt != t[k].capt
    {
      if k == |s| {
        assert s[i].Capturar? && t[i].capt in Capturadas(s);
      }
    }
  }

  /** A chain cannot go on with a jump over a square it has already captured. */
  lemma CadeiaNaoRepete(b: Tabuleiro, vez: Jogador, p: Peca, o0: Coord, s: seq<Jogada>, j: Jogada)
    requires j.Capturar? && j.capt in Capturadas(s)
    ensures forall t :: |t| > |s| && t[..|s|] == s && t[|s|] == j ==> !Cadeia(b, vez, p, o0, t)
  {
    var i :| 0 <= i < |s| && s[i].Capturar? && s[i].capt == j.capt;
    forall t | |t| > |s| && t[..|s|] == s && t[|s|] == j
      ensures !Cadeia(b, vez, p, o0, t)
    {
      assert t[i] == s[i];
    }
  }

  // ---------------------------------------------------------------- the depth-first search

  /** `s` goes on past `t` with one of the jumps `js`. */
  predicate EstendePor(s: seq<Jogada>, t: seq<Jogada>, js: seq<Jogada>)
  {
    |s| > |t| && s[..|t|] == t && s[|t|] in js
  }

  /**
   * What the search from the chain `t` has recorded once it has tried the jumps `js`:
   * the sequences it was given, and every chain going on past `t` with one of `js`.
   */
  ghost predicate Registradas(b: Tabuleiro, vez: Jogador, p: Peca, o0: Coord, t: seq<Jogada>, js: seq<Jogada>,
                              antes: seq<seq<Jogada>>, depois: seq<seq<Jogada>>)
  {
    forall s :: s in depois <==> s in antes || (Cadeia(b, vez, p, o0, s) && EstendePor(s, t, js))
  }

  /**
   * `depois` holds the sequences of `antes` and, besides them, exactly the non-empty
   * chains that begin with `t`: what the search from `t` promises to record.
   */
  ghost predicate Gravadas(b: Tabuleiro, vez: Jogador, p: Peca, o0: Coord, t: seq<Jogada>,
                           antes: seq<seq<Jogada>>, depois: seq<seq<Jogada>>)
  {
    forall s :: s in depois <==> s in antes || (s != [] && Prolonga(s, t) && Cadeia(b, vez, p, o0, s))
  }

  /** A prefix of a prefix is a prefix. */
  lemma PrefixoDePrefixo(a: seq<seq<Jogada>>, b: seq<seq<Jogada>>, c: seq<seq<Jogada>>)
    requires |a| <= |b| <= |c| && c[..|b|] == b && b[..|a|] == a
    ensures c[..|a|] == a
  {
    assert c[..|a|] == c[..|b|][..|a|];
  }

  /** Before any jump is tried nothing has been recorded. */
  lemma RegistradasInicio(b: Tabuleiro, vez: Jogador, p: Peca, o0: Coord, t: seq<Jogada>, js: seq<Jogada>,
                          antes: seq<seq<Jogada>>)
    ensures Registradas(b, vez, p, o0, t, js[..0], antes, antes)
  {
  }

  /** A jump over a square the chain has already captured adds nothing. */
  lemma RegistradasRepetida(b: Tabuleiro, vez: Jogador, p: Peca, o0: Coord, t: seq<Jogada>, js: seq<Jogada>, k: nat,
                            antes: seq<seq<Jogada>>, depois: seq<seq<Jogada>>)
    requires k < |js| && Registradas(b, vez, p, o0, t, js[..k], antes, depois)
    requires js[k].Capturar? && js[k].capt in Capturadas(t)
    ensures Registradas(b, vez, p, o0, t, js[..k + 1], antes, depois)
  {
    var j := js[k];
    assert js[..k + 1] == js[..k] + [j];
    CadeiaNaoRepete(b, vez, p, o0, t, j);
    forall s ensures s in depois <==> s in antes || (Cadeia(b, vez, p, o0, s) && EstendePor(s, t, js[..k + 1])) {
      assert s in depois <==> s in antes || (Cadeia(b, vez, p, o0, s) && EstendePor(s, t, js[..k]));
    }
  }

  /** Searching on from `t + [js[k]]` records exactly the chains that go on past `t` with that jump. */
  lemma RegistradasRecursao(b: Tabuleiro, vez: Jogador, p: Peca, o0: Coord, t: seq<Jogada>, js: seq<Jogada>, k: nat,
                            antes: seq<seq<Jogada>>, meio: seq<seq<Jogada>>, depois: seq<seq<Jogada>>, u: seq<Jogada>)
    requires k < |js| && Registradas(b, vez, p, o0, t, js[..k], antes, meio)
    requires u == t + [js[k]] && Gravadas(b, vez, p, o0, u, meio, depois)
    ensures Registradas(b, vez, p, o0, t, js[..k + 1], antes, depois)
  {
    var j := js[k];
    assert js[..k + 1] == js[..k] + [j];
    forall s ensures s in depois <==> s in antes || (Cadeia(b, vez, p, o0, s) && EstendePor(s, t, js[..k + 1])) {
      ProlongaUm(s, t, j);
      assert s in meio <==> s in antes || (Cadeia(b, vez, p, o0, s) && EstendePor(s, t, js[..k]));
    }
  }

  /**
   * Once every immediate capture from the end of the chain `t` has been tried and `t`
   * itself recorded (when not empty), the record holds every non-empty chain that
   * begins with `t`.
   */
  lemma RegistradasFim(b: Tabuleiro, vez: Jogador, p: Peca, o0: Coord, t: seq<Jogada>, js: seq<Jogada>,
                       antes: seq<seq<Jogada>>, depois: seq<seq<Jogada>>, fim: seq<seq<Jogada>>)
    requires Cadeia(b, vez, p, o0, t) && EValida(FimDe(o0, t)) && js == CapturasImediatas(b, vez, FimDe(o0, t), p)
    requires Registradas(b, vez, p, o0, t, js[..|js|], antes, depois)
    requires fim == if t != [] then depois + [t] else depois
    ensures Gravadas(b, vez, p, o0, t, antes, fim)
  {
    assert js[..|js|] == js;
    forall s ensures s in fim <==> s in antes || (s != [] && Prolonga(s, t) && Cadeia(b, vez, p, o0, s)) {
      assert s in depois <==> s in antes || (Cadeia(b, vez, p, o0, s) && EstendePor(s, t, js));
      if s != [] && Prolonga(s, t) && Cadeia(b, vez, p, o0, s) && |s| > |t| {
        ExtensaoComecaNaCaptura(b, vez, p, o0, t, s);
      }
      if Prolonga(s, t) && |s| == |t| {
        assert s == s[..|t|];
      }
    }
  }

  /**
   * What the search from the chain `t` appends, in the order it appends it: for each
   * immediate capture from the chain's end, in the order the rules list them, whatever
   * the search from the longer chain appends when the capture takes a square not yet
   * taken; then `t` itself, when it is not empty.
   */
  ghost function Busca(b: Tabuleiro, vez: Jogador, p: Peca, o0: Coord, t: seq<Jogada>): seq<seq<Jogada>>
    requires Cadeia(b, vez, p, o0, t)
    decreases Casas - Capturadas(t), 1, 0
  {
    CadeiaLigada(b, vez, p, o0, t);
    var js := CapturasImediatas(b, vez, FimDe(o0, t), p);
    BuscaEm(b, vez, p, o0, t, js, |js|) + (if t != [] then [t] else [])
  }

  /** What the search from `t` appends while it tries the first `k` captures of `js`. */
  ghost function BuscaEm(b: Tabuleiro, vez: Jogador, p: Peca, o0: Coord, t: seq<Jogada>, js: seq<Jogada>, k: nat): seq<seq<Jogada>>
    requires Cadeia(b, vez, p, o0, t) && EValida(FimDe(o0, t))
    requires js == CapturasImediatas(b, vez, FimDe(o0, t), p) && k <= |js|
    decreases Casas - Capturadas(t), 0, k
  {
    if k == 0 then [] else BuscaEm(b, vez, p, o0, t, js, k - 1) + ContribuicaoDe(b, vez, p, o0, t, js, k - 1)
  }

  /**
   * What trying the capture `js[k]` from the end of `t` appends: nothing when it jumps a
   * square `t` has already taken, otherwise the whole search from `t` extended by it.
   */
  ghost function ContribuicaoDe(b: Tabuleiro, vez: Jogador, p: Peca, o0: Coord, t: seq<Jogada>, js: seq<Jogada>, k: nat): seq<seq<Jogada>>
    requires Cadeia(b, vez, p, o0, t) && EValida(FimDe(o0, t))
    requires js == CapturasImediatas(b, vez, FimDe(o0, t), p) && k < |js|
    decreases Casas - Capturadas(t), 0, k
  {
    var j := js[k];
    assert CapturaValida(b, vez, FimDe(o0, t), j);
    if j.capt in Capturadas(t) then []
    else
      CadeiaEstende(b, vez, p, o0, t, j);
      CasasSaoAsValidas(j.capt);
      CapturadasMais(t, j);
      Busca(b, vez, p, o0, t + [j])
  }

  /** `Busca` unfolded once: the captures from the end of `t`, then `t` itself. */
  lemma BuscaDesdobra(b: Tabuleiro, vez: Jogador, p: Peca, o0: Coord, t: seq<Jogada>, js: seq<Jogada>)
    requires Cadeia(b, vez, p, o0, t) && EValida(FimDe(o0, t))
    requires js == CapturasImediatas(b, vez, FimDe(o0, t), p)
    ensures Busca(b, vez, p, o0, t) == BuscaEm(b, vez, p, o0, t, js, |js|) + (if t != [] then [t] else [])
  {
  }

  /** Trying one more capture appends its contribution. */
  lemma BuscaEmMaisUm(b: Tabuleiro, vez: Jogador, p: Peca, o0: Coord, t: seq<Jogada>, js: seq<Jogada>, k: nat)
    requires Cadeia(b, vez, p, o0, t) && EValida(FimDe(o0, t))
    requires js == CapturasImediatas(b, vez, FimDe(o0, t), p) && k < |js|
    ensures BuscaEm(b, vez, p, o0, t, js, k + 1) == BuscaEm(b, vez, p, o0, t, js, k) + ContribuicaoDe(b, vez, p, o0, t, js, k)
  {
  }

  /** A record that ends with the first `k` captures' contribution, extended by the next one. */
  lemma BuscaEmAvanca(b: Tabuleiro, vez: Jogador, p: Peca, o0: Coord, t: seq<Jogada>, js: seq<Jogada>, k: nat,
                      ss: seq<seq<Jogada>>, antes: seq<seq<Jogada>>, depois: seq<seq<Jogada>>)
    requires Cadeia(b, vez, p, o0, t) && EValida(FimDe(o0, t))
    requires js == CapturasImediatas(b, vez, FimDe(o0, t), p) && k < |js|
    requires antes == ss + BuscaEm(b, vez, p, o0, t, js, k)
    requires depois == antes + ContribuicaoDe(b, vez, p, o0, t, js, k)
    ensures depois == ss + BuscaEm(b, vez, p, o0, t, js, k + 1)
  {
    BuscaEmMaisUm(b, vez, p, o0, t, js, k);
    Reagrupa(ss, BuscaEm(b, vez, p, o0, t, js, k), ContribuicaoDe(b, vez, p, o0, t, js, k));
  }

  /**
   * Once every capture has been tried, recording `t` itself (when not empty) completes
   * the search from `t`, which then holds exactly the chains beginning with `t`.
   */
  lemma BuscaConclui(b: Tabuleiro, vez: Jogador, p: Peca, o0: Coord, t: seq<Jogada>, js: seq<Jogada>,
                     ss: seq<seq<Jogada>>, antes: seq<seq<Jogada>>, fim: seq<seq<Jogada>>)
    requires Cadeia(b, vez, p, o0, t) && EValida(FimDe(o0, t))
    requires js == CapturasImediatas(b, vez, FimDe(o0, t), p)
    requires antes == ss + BuscaEm(b, vez, p, o0, t, js, |js|)
    requires fim == if t != [] then antes + [t] else antes
    ensures fim == ss + Busca(b, vez, p, o0, t)
    ensures |fim| >= |ss| && fim[..|ss|] == ss
    ensures Gravadas(b, vez, p, o0, t, ss, fim)
  {
    BuscaDesdobra(b, vez, p, o0, t, js);
    Reagrupa(ss, BuscaEm(b, vez, p, o0, t, js, |js|), if t != [] then [t] else []);
    BuscaGrava(b, vez, p, o0, t, ss);
  }

  /** A capture over a square already taken contributes nothing. */
  lemma ContribuicaoRepetida(b: Tabuleiro, vez: Jogador, p: Peca, o0: Coord, t: seq<Jogada>, js: seq<Jogada>, k: nat)
    requires Cadeia(b, vez, p, o0, t) && EValida(FimDe(o0, t))
    requires js == CapturasImediatas(b, vez, FimDe(o0, t), p) && k < |js|
    requires js[k].Capturar? && js[k].capt in Capturadas(t)
    ensures ContribuicaoDe(b, vez, p, o0, t, js, k) == []
  {
  }

  /** A capture over a fresh square contributes the search from the extended chain. */
  lemma ContribuicaoNova(b: Tabuleiro, vez: Jogador, p: Peca, o0: Coord, t: seq<Jogada>, js: seq<Jogada>, k: nat)
    requires Cadeia(b, vez, p, o0, t) && EValida(FimDe(o0, t))
    requires js == CapturasImediatas(b, vez, FimDe(o0, t), p) && k < |js|
    requires js[k].Capturar? && js[k].capt !in Capturadas(t) && Cadeia(b, vez, p, o0, t + [js[k]])
    ensures ContribuicaoDe(b, vez, p, o0, t, js, k) == Busca(b, vez, p, o0, t + [js[k]])
  {
  }

  /**
   * Appending what the search from `t` appends records exactly the non-empty chains
   * that begin with `t`.
   */
  lemma {:induction false} BuscaGrava(b: Tabuleiro, vez: Jogador, p: Peca, o0: Coord, t: seq<Jogada>, antes: seq<seq<Jogada>>)
    requires Cadeia(b, vez, p, o0, t)
    ensures Gravadas(b, vez, p, o0, t, antes, antes + Busca(b, vez, p, o0, t))
    decreases Casas - Capturadas(t), 1, 0
  {
    CadeiaLigada(b, vez, p, o0, t);
    var js := CapturasImediatas(b, vez, FimDe(o0, t), p);
    var cauda := if t != [] then [t] else [];
    BuscaEmRegistra(b, vez, p, o0, t, js, |js|, antes);
    BuscaDesdobra(b, vez, p, o0, t, js);
    Reagrupa(antes, BuscaEm(b, vez, p, o0, t, js, |js|), cauda);
    RegistradasFim(b, vez, p, o0, t, js, antes, antes + BuscaEm(b, vez, p, o0, t, js, |js|), antes + Busca(b, vez, p, o0, t));
  }

  /**
   * Appending what the search from `t` appends while it tries the first `k` captures of
   * `js` records exactly the chains that go on past `t` with one of them.
   */
  lemma {:induction false} BuscaEmRegistra(b: Tabuleiro, vez: Jogador, p: Peca, o0: Coord, t: seq<Jogada>, js: seq<Jogada>, k: nat,
                                           antes: seq<seq<Jogada>>)
    requires Cadeia(b, vez, p, o0, t) && EValida(FimDe(o0, t))
    requires js == CapturasImediatas(b, vez, FimDe(o0, t), p) && k <= |js|
    ensures Registradas(b, vez, p, o0, t, js[..k], antes, antes + BuscaEm(b, vez, p, o0, t, js, k))
    decreases Casas - Capturadas(t), 0, k
  {
    if k == 0 {
      RegistraNada(b, vez, p, o0, t, js, antes);
    } else {
      BuscaEmRegistra(b, vez, p, o0, t, js, k - 1, antes);
      RegistraUm(b, vez, p, o0, t, js, k - 1, antes);
    }
  }

  /** Before any capture is tried nothing is recorded. */
  lemma RegistraNada(b: Tabuleiro, vez: Jogador, p: Peca, o0: Coord, t: seq<Jogada>, js: seq<Jogada>, antes: seq<seq<Jogada>>)
    requires Cadeia(b, vez, p, o0, t) && EValida(FimDe(o0, t))
    requires js == CapturasImediatas(b, vez, FimDe(o0, t), p)
    ensures Registradas(b, vez, p, o0, t, js[..0], antes, antes + BuscaEm(b, vez, p, o0, t, js, 0))
  {
    RegistradasInicio(b, vez, p, o0, t, js, antes);
    assert antes + BuscaEm(b, vez, p, o0, t, js, 0) == antes;
  }

  /** `BuscaEmRegistra`'s step over the capture `js[k]`. */
  lemma {:induction false} RegistraUm(b: Tabuleiro, vez: Jogador, p: Peca, o0: Coord, t: seq<Jogada>, js: seq<Jogada>, k: nat,
                                      antes: seq<seq<Jogada>>)
    requires Cadeia(b, vez, p, o0, t) && EValida(FimDe(o0, t))
    requires js == CapturasImediatas(b, vez, FimDe(o0, t), p) && k < |js|
    requires Registradas(b, vez, p, o0, t, js[..k], antes, antes + BuscaEm(b, vez, p, o0, t, js, k))
    ensures Registradas(b, vez, p, o0, t, js[..k + 1], antes, antes + BuscaEm(b, vez, p, o0, t, js, k + 1))
    decreases Casas - Capturadas(t), 0, k
  {
    var j := js[k];
    assert CapturaValida(b, vez, FimDe(o0, t), j);
    if j.capt in Capturadas(t) {
      RegistraRepetida(b, vez, p, o0, t, js, k, antes);
    } else {
      CadeiaEstende(b, vez, p, o0, t, j);
      CasasSaoAsValidas(j.capt);
      CapturadasMais(t, j);
      BuscaGrava(b, vez, p, o0, t + [j], antes + BuscaEm(b, vez, p, o0, t, js, k));
      RegistraNova(b, vez, p, o0, t, js, k, antes);
    }
  }

  /** `BuscaEmRegistra`'s step over a capture of a square the chain has already taken. */
  lemma RegistraRepetida(b: Tabuleiro, vez: Jogador, p: Peca, o0: Coord, t: seq<Jogada>, js: seq<Jogada>, k: nat,
                         antes: seq<seq<Jogada>>)
    requires Cadeia(b, vez, p, o0, t) && EValida(FimDe(o0, t))
    requires js == CapturasImediatas(b, vez, FimDe(o0, t), p) && k < |js|
    requires js[k].Capturar? && js[k].capt in Capturadas(t)
    requires Registradas(b, vez, p, o0, t, js[..k], antes, antes + BuscaEm(b, vez, p, o0, t, js, k))
    ensures Registradas(b, vez, p, o0, t, js[..k + 1], antes, antes + BuscaEm(b, vez, p, o0, t, js, k + 1))
  {
    BuscaEmMaisUm(b, vez, p, o0, t, js, k);
    ContribuicaoRepetida(b, vez, p, o0, t, js, k);
    assert BuscaEm(b, vez, p, o0, t, js, k + 1) == BuscaEm(b, vez, p, o0, t, js, k) + [];
    RegistradasRepetida(b, vez, p, o0, t, js, k, antes, antes + BuscaEm(b, vez, p, o0, t, js, k));
  }

  /** `BuscaEmRegistra`'s step over a capture of a fresh square, given what the deeper search records. */
  lemma RegistraNova(b: Tabuleiro, vez: Jogador, p: Peca, o0: Coord, t: seq<Jogada>, js: seq<Jogada>, k: nat,
                     antes: seq<seq<Jogada>>)
    requires Cadeia(b, vez, p, o0, t) && EValida(FimDe(o0, t))
    requires js == CapturasImediatas(b, vez, FimDe(o0, t), p) && k < |js|
    requires js[k].Capturar? && js[k].capt !in Capturadas(t) && Cadeia(b, vez, p, o0, t + [js[k]])
    requires Registradas(b, vez, p, o0, t, js[..k], antes, antes + BuscaEm(b, vez, p, o0, t, js, k))
    requires Gravadas(b, vez, p, o0, t + [js[k]], antes + BuscaEm(b, vez, p, o0, t, js, k),
                      antes + BuscaEm(b, vez, p, o0, t, js, k) + Busca(b, vez, p, o0, t + [js[k]]))
    ensures Registradas(b, vez, p, o0, t, js[..k + 1], antes, antes + BuscaEm(b, vez, p, o0, t, js, k + 1))
  {
    var meio := antes + BuscaEm(b, vez, p, o0, t, js, k);
    BuscaEmMaisUm(b, vez, p, o0, t, js, k);
    ContribuicaoNova(b, vez, p, o0, t, js, k);
    Reagrupa(antes, BuscaEm(b, vez, p, o0, t, js, k), Busca(b, vez, p, o0, t + [js[k]]));
    RegistradasRecursao(b, vez, p, o0, t, js, k, antes, meio, antes + BuscaEm(b, vez, p, o0, t, js, k + 1), t + [js[k]]);
  }

  /** The search from `t` records each chain once. */
  lemma {:induction false} BuscaSemRepeticao(b: Tabuleiro, vez: Jogador, p: Peca, o0: Coord, t: seq<Jogada>)
    requires Cadeia(b, vez, p, o0, t)
    ensures SemRepeticao(Busca(b, vez, p, o0, t))
    decreases Casas - Capturadas(t), 1, 0
  {
    CadeiaLigada(b, vez, p, o0, t);
    var js := CapturasImediatas(b, vez, FimDe(o0, t), p);
    var ss := BuscaEm(b, vez, p, o0, t, js, |js|);
    BuscaEmSemRepeticao(b, vez, p, o0, t, js, |js|);
    BuscaEmRegistra(b, vez, p, o0, t, js, |js|, []);
    assert [] + ss == ss;
    BuscaDesdobra(b, vez, p, o0, t, js);
    SemRepeticaoJuntas(ss, if t != [] then [t] else []);
  }

  /** Trying the first `k` captures of `js` records each chain once. */
  lemma {:induction false} BuscaEmSemRepeticao(b: Tabuleiro, vez: Jogador, p: Peca, o0: Coord, t: seq<Jogada>, js: seq<Jogada>, k: nat)
    requires Cadeia(b, vez, p, o0, t) && EValida(FimDe(o0, t))
    requires js == CapturasImediatas(b, vez, FimDe(o0, t), p) && k <= |js|
    ensures SemRepeticao(BuscaEm(b, vez, p, o0, t, js, k))
    decreases Casas - Capturadas(t), 0, k
  {
    if k > 0 {
      BuscaEmSemRepeticao(b, vez, p, o0, t, js, k - 1);
      SemRepeticaoUm(b, vez, p, o0, t, js, k - 1);
    }
  }

  /** `BuscaEmSemRepeticao`'s step over the capture `js[k]`. */
  lemma {:induction false} SemRepeticaoUm(b: Tabuleiro, vez: Jogador, p: Peca, o0: Coord, t: seq<Jogada>, js: seq<Jogada>, k: nat)
    requires Cadeia(b, vez, p, o0, t) && EValida(FimDe(o0, t))
    requires js == CapturasImediatas(b, vez, FimDe(o0, t), p) && k < |js|
    requires SemRepeticao(BuscaEm(b, vez, p, o0, t, js, k))
    ensures SemRepeticao(BuscaEm(b, vez, p, o0, t, js, k + 1))
    decreases Casas - Capturadas(t), 0, k
  {
    var j := js[k];
    assert CapturaValida(b, vez, FimDe(o0, t), j);
    BuscaEmMaisUm(b, vez, p, o0, t, js, k);
    if j.capt in Capturadas(t) {
      ContribuicaoRepetida(b, vez, p, o0, t, js, k);
      assert BuscaEm(b, vez, p, o0, t, js, k + 1) == BuscaEm(b, vez, p, o0, t, js, k) + [];
    } else {
      CadeiaEstende(b, vez, p, o0, t, j);
      CasasSaoAsValidas(j.capt);
      CapturadasMais(t, j);
      ContribuicaoNova(b, vez, p, o0, t, js, k);
      BuscaSemRepeticao(b, vez, p, o0, t + [j]);
      BuscaEmRegistra(b, vez, p, o0, t, js, k, []);
      BuscaGrava(b, vez, p, o0, t + [j], []);
      CapturasImediatasSemRepeticao(b, vez, FimDe(o0, t), p);
      BuscasSeparadas(b, vez, p, o0, t, js, k);
      SemRepeticaoJuntas(BuscaEm(b, vez, p, o0, t, js, k), Busca(b, vez, p, o0, t + [j]));
    }
  }

  /**
   * What the first `k` captures record and what the search after `js[k]` records have
   * nothing in common: they differ in the jump that follows `t`.
   */
  lemma BuscasSeparadas(b: Tabuleiro, vez: Jogador, p: Peca, o0: Coord, t: seq<Jogada>, js: seq<Jogada>, k: nat)
    requires Cadeia(b, vez, p, o0, t) && EValida(FimDe(o0, t))
    requires js == CapturasImediatas(b, vez, FimDe(o0, t), p) && k < |js| && SemRepeticao(js)
    requires Cadeia(b, vez, p, o0, t + [js[k]])
    requires Registradas(b, vez, p, o0, t, js[..k], [], [] + BuscaEm(b, vez, p, o0, t, js, k))
    requires Gravadas(b, vez, p, o0, t + [js[k]], [], [] + Busca(b, vez, p, o0, t + [js[k]]))
    ensures forall s :: s in BuscaEm(b, vez, p, o0, t, js, k) ==> s !in Busca(b, vez, p, o0, t + [js[k]])
  {
    var ss := BuscaEm(b, vez, p, o0, t, js, k);
    var us := Busca(b, vez, p, o0, t + [js[k]]);
    assert [] + ss == ss && [] + us == us;
    SeguemPelo(t, js[k], us);
    SeguemPorOutras(t, js, k, ss);
  }

  /** Every chain that begins with `t + [j]` takes `j` right after `t`. */
  lemma SeguemPelo(t: seq<Jogada>, j: Jogada, us: seq<seq<Jogada>>)
    requires forall u :: u in us ==> Prolonga(u, t + [j])
    ensures forall u :: u in us ==> |u| > |t| && u[|t|] == j
  {
    forall u | u in us ensures |u| > |t| && u[|t|] == j {
      assert u[|t|] == u[..|t| + 1][|t|] == (t + [j])[|t|];
    }
  }

  /** Chains that go on past `t` with one of the first `k` jumps of `js` do not take `js[k]` there. */
  lemma SeguemPorOutras(t: seq<Jogada>, js: seq<Jogada>, k: nat, ss: seq<seq<Jogada>>)
    requires k < |js| && SemRepeticao(js)
    requires forall s :: s in ss ==> EstendePor(s, t, js[..k])
    ensures forall s :: s in ss ==> |s| > |t| && s[|t|] != js[k]
  {
    forall s | s in ss ensures |s| > |t| && s[|t|] != js[k] {
      var i :| 0 <= i < k && js[..k][i] == s[|t|];
      assert s[|t|] == js[i];
    }
  }

  /** The search from `t` lists every non-empty chain beginning with `t`, each exactly once, and nothing else. */
  lemma BuscaExata(b: Tabuleiro, vez: Jogador, p: Peca, o0: Coord, t: seq<Jogada>)
    requires Cadeia(b, vez, p, o0, t)
    ensures forall s :: s in Busca(b, vez, p, o0, t) <==> s != [] && Prolonga(s, t) && Cadeia(b, vez, p, o0, s)
    ensures SemRepeticao(Busca(b, vez, p, o0, t))
  {
    BuscaGrava(b, vez, p, o0, t, []);
    assert [] + Busca(b, vez, p, o0, t) == Busca(b, vez, p, o0, t);
    BuscaSemRepeticao(b, vez, p, o0, t);
  }

  /**
   * The search from the empty chain records exactly the non-empty chains of the piece,
   * and keeping the longest of them yields its maximal chains.
   */
  lemma MaioresSaoMaximas(b: Tabuleiro, vez: Jogador, o: Coord, ss: seq<seq<Jogada>>)
    requires EValida(o) && CasaEm(b, o).Ocupada?
    requires Gravadas(SemOrigem(b, o), vez, CasaEm(b, o).peca, o, [], [], ss)
    ensures ss == [] <==> !TemCadeia(b, vez, o)
    ensures forall s :: s in Maiores(ss) <==> MaximaDe(b, vez, o, s)
  {
    forall s ensures s in ss <==> s != [] && CadeiaDe(b, vez, o, s) {
      assert Prolonga(s, []);
    }
    if ss != [] {
      assert ss[0] in ss;
    }
    forall s ensures s in Maiores(ss) <==> MaximaDe(b, vez, o, s) {
      if s in Maiores(ss) {
        forall t | CadeiaDe(b, vez, o, t) ensures |t| <= |s| {
          if t != [] {
            assert t in ss;
          }
        }
      }
    }
  }

  // ---------------------------------------------------------------- longest chains

  /** The length of the longest sequence in `ss` (`max_by_key(len)`). */
  function MaiorComprimento(ss: seq<seq<Jogada>>): (r: nat)
    ensures forall s :: s in ss ==> |s| <= r
    ensures ss != [] ==> exists k :: 0 <= k < |ss| && |ss[k]| == r
    ensures ss == [] ==> r == 0
  {
    if ss == [] then 0
    else
      var m := MaiorComprimento(ss[1..]);
      assert forall s :: s in ss ==> s == ss[0] || s in ss[1..];
      if |ss[0]| >= m then |ss[0]|
      else
        assert exists k :: 0 <= k < |ss[1..]| && |ss[1..][k]| == m;
        m
  }

  /** The sequences of `ss` that have length `n`, in order. */
  function ComComprimento(ss: seq<seq<Jogada>>, n: nat): (r: seq<seq<Jogada>>)
    ensures forall s :: s in r <==> s in ss && |s| == n
  {
    if ss == [] then []
    else
      assert forall s :: s in ss <==> s == ss[0] || s in ss[1..];
      (if |ss[0]| == n then [ss[0]] else []) + ComComprimento(ss[1..], n)
  }

  /** The non-empty sequences of `ss`, in order (`filter(|x| !x.is_empty())`). */
  function NaoVazias(ss: seq<seq<Jogada>>): (r: seq<seq<Jogada>>)
    ensures forall s :: s in r <==> s in ss && s != []
  {
    if ss == [] then []
    else
      assert forall s :: s in ss <==> s == ss[0] || s in ss[1..];
      (if ss[0] != [] then [ss[0]] else []) + NaoVazias(ss[1..])
  }

  /** Keep exactly the sequences of greatest length. */
  function Maiores(ss: seq<seq<Jogada>>): (r: seq<seq<Jogada>>)
    ensures forall s :: s in r <==> s in ss && forall t :: t in ss ==> |t| <= |s|
    ensures ss != [] ==> r != []
    ensures forall s, t :: s in r && t in r ==> |s| == |t|
  {
    var n := MaiorComprimento(ss);
    var r := ComComprimento(ss, n);
    assert ss != [] ==> r != [] by {
      if ss != [] {
        var k :| 0 <= k < |ss| && |ss[k]| == n;
        assert ss[k] in r;
      }
    }
    r
  }

  // ---------------------------------------------------------------- chains of one square, of one side

  /** The board the search runs on: a copy with only the origin emptied. */
  function SemOrigem(b: Tabuleiro, o: Coord): Tabuleiro
    requires EValida(o)
  {
    Atualizar(b, o, Vazia)
  }

  /** `s` is a capture chain of the piece standing on `o`. */
  ghost predicate CadeiaDe(b: Tabuleiro, vez: Jogador, o: Coord, s: seq<Jogada>)
  {
    EValida(o) && CasaEm(b, o).Ocupada? && Cadeia(SemOrigem(b, o), vez, CasaEm(b, o).peca, o, s)
  }

  /** `s` is a non-empty chain of the piece on `o` that no chain of that piece outgrows. */
  ghost predicate MaximaDe(b: Tabuleiro, vez: Jogador, o: Coord, s: seq<Jogada>)
  {
    s != [] && CadeiaDe(b, vez, o, s) && forall t :: CadeiaDe(b, vez, o, t) ==> |t| <= |s|
  }

  /** `s` is a non-empty chain of some piece of the side to move. */
  ghost predicate CadeiaDaVez(b: Tabuleiro, vez: Jogador, s: seq<Jogada>)
  {
    s != [] && EValida(s[0].Origem()) && PecaDaVez(b, vez, s[0].Origem()) && CadeiaDe(b, vez, s[0].Origem(), s)
  }

  /** `s` is a chain of the side to move of the greatest length any of its chains reaches. */
  ghost predicate MaximaDaVez(b: Tabuleiro, vez: Jogador, s: seq<Jogada>)
  {
    CadeiaDaVez(b, vez, s) && forall t :: CadeiaDaVez(b, vez, t) ==> |t| <= |s|
  }

  /** The piece on `o` has a non-empty chain. */
  ghost predicate TemCadeia(b: Tabuleiro, vez: Jogador, o: Coord)
  {
    exists s :: s != [] && CadeiaDe(b, vez, o, s)
  }

  /** A piece has a non-empty chain exactly when it has an immediate capture on the search board. */
  lemma TemCadeiaSseCaptura(b: Tabuleiro, vez: Jogador, o: Coord)
    requires EValida(o) && CasaEm(b, o).Ocupada?
    ensures TemCadeia(b, vez, o) <==> CapturasImediatas(SemOrigem(b, o), vez, o, CasaEm(b, o).peca) != []
  {
    var bb, p := SemOrigem(b, o), CasaEm(b, o).peca;
    var caps := CapturasImediatas(bb, vez, o, p);
    if caps != [] {
      CadeiaEstende(bb, vez, p, o, [], caps[0]);
      assert [] + [caps[0]] == [caps[0]];
      assert CadeiaDe(b, vez, o, [caps[0]]);
    }
    if s :| s != [] && CadeiaDe(b, vez, o, s) {
      assert s[0] in caps by { assert OrigemDoPasso(o, s, 0) == o; }
    }
  }

  /** The chains of a piece all leave from its square. */
  lemma CadeiaDeComecaNaOrigem(b: Tabuleiro, vez: Jogador, o: Coord, s: seq<Jogada>)
    requires CadeiaDe(b, vez, o, s) && s != []
    ensures s[0].Origem() == o
  {
    CadeiaLigada(SemOrigem(b, o), vez, CasaEm(b, o).peca, o, s);
  }

  /** `s` goes on from `t` with the jump `j`. */
  lemma ProlongaUm(s: seq<Jogada>, t: seq<Jogada>, j: Jogada)
    ensures Prolonga(s, t + [j]) <==> |s| > |t| && s[..|t|] == t && s[|t|] == j
  {
    if |s| > |t| && s[..|t|] == t && s[|t|] == j {
      assert s[..|t| + 1] == s[..|t|] + [s[|t|]];
    }
    if Prolonga(s, t + [j]) {
      assert s[..|t|] == s[..|t| + 1][..|t|];
      assert s[|t|] == s[..|t| + 1][|t|];
    }
  }

  /** A chain that goes on past `t` does so with an immediate capture from where `t` ends. */
  lemma ExtensaoComecaNaCaptura(b: Tabuleiro, vez: Jogador, p: Peca, o0: Coord, t: seq<Jogada>, s: seq<Jogada>)
    requires Cadeia(b, vez, p, o0, s) && |s| > |t| && s[..|t|] == t
    ensures EValida(FimDe(o0, t)) && s[|t|] in CapturasImediatas(b, vez, FimDe(o0, t), p)
  {
    if |t| > 0 {
      assert s[|t| - 1] == t[|t| - 1];
    }
    assert OrigemDoPasso(o0, s, |t|) == FimDe(o0, t);
  }

  /** The chains the longest-chain rule keeps consist of captures only. */
  lemma CapturaObrigatoria(b: Tabuleiro, vez: Jogador, s: seq<Jogada>)
    requires MaximaDaVez(b, vez, s)
    ensures s != [] && forall m :: m in s ==> m.Capturar?
  {
    var o := s[0].Origem();
    CadeiaLigada(SemOrigem(b, o), vez, CasaEm(b, o).peca, o, s);
  }

  /** A non-empty maximal chain of a piece of the side to move. */
  ghost predicate MaximaDeUmaPeca(b: Tabuleiro, vez: Jogador, s: seq<Jogada>)
  {
    s != [] && EValida(s[0].Origem()) && PecaDaVez(b, vez, s[0].Origem()) && MaximaDe(b, vez, s[0].Origem(), s)
  }

  /** Every piece of the side to move that has a chain has a longest one among `cheias`. */
  ghost predicate Cobertas(b: Tabuleiro, vez: Jogador, cheias: seq<seq<Jogada>>)
  {
    forall q :: EValida(q) && PecaDaVez(b, vez, q) && TemCadeia(b, vez, q) ==>
      exists u :: u in cheias && MaximaDe(b, vez, q, u)
  }

  /** `cheias` holds exactly the longest chains of each piece of the side to move. */
  ghost predicate SoMaximas(b: Tabuleiro, vez: Jogador, cheias: seq<seq<Jogada>>)
  {
    forall s :: s in cheias <==> MaximaDeUmaPeca(b, vez, s)
  }

  lemma CobertasAlcancam(b: Tabuleiro, vez: Jogador, cheias: seq<seq<Jogada>>, t: seq<Jogada>)
    requires Cobertas(b, vez, cheias) && CadeiaDaVez(b, vez, t)
    ensures exists u :: u in cheias && |t| <= |u|
  {
    var q := t[0].Origem();
    var u :| u in cheias && MaximaDe(b, vez, q, u);
  }

  lemma SoMaximasEm(b: Tabuleiro, vez: Jogador, cheias: seq<seq<Jogada>>, s: seq<Jogada>)
    requires SoMaximas(b, vez, cheias)
    ensures s in cheias <==> MaximaDeUmaPeca(b, vez, s)
  {
  }

  /** A longest chain of a piece that no gathered chain outgrows is a longest chain of the side. */
  lemma MaximaDaPecaEDaVez(b: Tabuleiro, vez: Jogador, cheias: seq<seq<Jogada>>, s: seq<Jogada>)
    requires Cobertas(b, vez, cheias) && MaximaDeUmaPeca(b, vez, s)
    requires forall t :: t in cheias ==> |t| <= |s|
    ensures MaximaDaVez(b, vez, s)
  {
    forall t: seq<Jogada> | CadeiaDaVez(b, vez, t) ensures |t| <= |s| {
      CobertasAlcancam(b, vez, cheias, t);
    }
  }

  /** A longest chain of the side is a longest chain of its own piece. */
  lemma MaximaDaVezEDaPeca(b: Tabuleiro, vez: Jogador, s: seq<Jogada>)
    requires MaximaDaVez(b, vez, s)
    ensures MaximaDeUmaPeca(b, vez, s)
  {
    var o := s[0].Origem();
    forall t: seq<Jogada> | CadeiaDe(b, vez, o, t) ensures |t| <= |s| {
      if t != [] {
        CadeiaDeComecaNaOrigem(b, vez, o, t);
        assert CadeiaDaVez(b, vez, t);
      }
    }
  }

  lemma MaximaGlobalEm(b: Tabuleiro, vez: Jogador, cheias: seq<seq<Jogada>>, s: seq<Jogada>)
    requires SoMaximas(b, vez, cheias) && Cobertas(b, vez, cheias)
    ensures (s in cheias && forall t :: t in cheias ==> |t| <= |s|) <==> MaximaDaVez(b, vez, s)
  {
    SoMaximasEm(b, vez, cheias, s);
    if s in cheias && forall t :: t in cheias ==> |t| <= |s| {
      MaximaDaPecaEDaVez(b, vez, cheias, s);
    }
    if MaximaDaVez(b, vez, s) {
      MaximaDaVezEDaPeca(b, vez, s);
      forall t | t in cheias ensures |t| <= |s| {
        SoMaximasEm(b, vez, cheias, t);
      }
    }
  }

  /**
   * Gathering, for every piece of the side to move, its longest chains, and keeping
   * the longest of those, yields exactly the longest chains of the side.
   */
  lemma MaximasGlobais(b: Tabuleiro, vez: Jogador, cheias: seq<seq<Jogada>>)
    requires SoMaximas(b, vez, cheias) && Cobertas(b, vez, cheias)
    ensures cheias == [] <==> forall s :: !CadeiaDaVez(b, vez, s)
    ensures forall s :: (s in cheias && forall t :: t in cheias ==> |t| <= |s|) <==> MaximaDaVez(b, vez, s)
  {
    if cheias == [] {
      forall t: seq<Jogada> ensures !CadeiaDaVez(b, vez, t) {
        if CadeiaDaVez(b, vez, t) {
          CobertasAlcancam(b, vez, cheias, t);
        }
      }
    } else {
      SoMaximasEm(b, vez, cheias, cheias[0]);
      assert CadeiaDaVez(b, vez, cheias[0]);
    }
    forall s: seq<Jogada> ensures (s in cheias && forall t :: t in cheias ==> |t| <= |s|) <==> MaximaDaVez(b, vez, s) {
      MaximaGlobalEm(b, vez, cheias, s);
    }
  }
}
