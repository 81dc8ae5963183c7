/**
 * The signed coordinate type the engine works with (`crate::coord`).
 *
 * That module is not part of this model: only its use in the engine is known.
 * Each definition below is the smallest one consistent with that use and is an
 * assumption about the unseen code:
 *  - `Distancia(a, b)` is `b - a`, because a man's landing square is written
 *    `vizinho + origem.distancia(vizinho)`, two steps out from the origin;
 *  - `Normal` reduces a diagonal distance to its unit step (component-wise sign);
 *  - `EValida` holds exactly for the 64 squares of the board;
 *  - `DiagonaisFrente`, `DiagonaisAtras` return the on-board diagonal neighbours one
 *    row up (decreasing y) and one row down, left neighbour first, as the usize
 *    prototype does; `DiagonaisComiveis` is the two together, edge neighbours included
 *    even when the landing square beyond them is off the board.
 * The source stores 32-bit integers; every coordinate the engine builds stays
 * within one step of the board, so the model uses unbounded integers.
 */
module Coord {

  datatype Coord = Coord(x: int, y: int)

  /** The constructor shorthand `c(x, y)`. */
  function C(x: int, y: int): (r: Coord)
    ensures r.x == x && r.y == y
  {
    Coord(x, y)
  }

  /** Vector addition `a + b`. */
  function Soma(a: Coord, b: Coord): Coord
  {
    Coord(a.x + b.x, a.y + b.y)
  }

  /** `a.distancia(b)`: the vector leading from `a` to `b`. */
  function Distancia(a: Coord, b: Coord): (r: Coord)
    ensures Soma(a, r) == b
  {
    Coord(b.x - a.x, b.y - a.y)
  }

  function Sinal(n: int): int
  {
    if n > 0 then 1 else if n < 0 then -1 else 0
  }

  /** `d.normal()`: the unit step in the direction of `d`. */
  function Normal(d: Coord): Coord
  {
    Coord(Sinal(d.x), Sinal(d.y))
  }

  /** `é_valida`: the square lies on the 8x8 board. */
  predicate EValida(c: Coord)
  {
    0 <= c.x < 8 && 0 <= c.y < 8
  }

  /** The four ray directions, in the order the engine walks them. */
  const Direcoes: seq<Coord> := [Coord(1, 1), Coord(-1, -1), Coord(1, -1), Coord(-1, 1)]

  predicate Unitaria(d: Coord)
  {
    (d.x == 1 || d.x == -1) && (d.y == 1 || d.y == -1)
  }

  /** `k` steps of the unit diagonal `d` from `a`. */
  function Passo(a: Coord, d: Coord, k: int): Coord
    requires Unitaria(d)
  {
    Coord(a.x + (if d.x > 0 then k else -k), a.y + (if d.y > 0 then k else -k))
  }

  /** The squares of the board, as a set. */
  const Casas: set<Coord> := set x: int, y: int | 0 <= x < 8 && 0 <= y < 8 :: Coord(x, y)

  lemma CasasSaoAsValidas(c: Coord)
    ensures c in Casas <==> EValida(c)
  {
    if EValida(c) {
      assert c == Coord(c.x, c.y);
    }
  }

  /** The forward (decreasing y) diagonal neighbours of a square, left one first. */
  function DiagonaisFrente(c: Coord): (r: seq<Coord>)
    requires EValida(c)
    ensures |r| <= 2
    ensures forall k :: 0 <= k < |r| ==> EValida(r[k]) && r[k].y == c.y - 1 && (r[k].x == c.x - 1 || r[k].x == c.x + 1)
    ensures Coord(c.x - 1, c.y - 1) in r <==> c.y > 0 && c.x > 0
    ensures Coord(c.x + 1, c.y - 1) in r <==> c.y > 0 && c.x < 7
    ensures |r| == 2 ==> r[0].x < r[1].x
  {
    if c.y == 0 then []
    else (if c.x > 0 then [Coord(c.x - 1, c.y - 1)] else []) + (if c.x < 7 then [Coord(c.x + 1, c.y - 1)] else [])
  }

  /** The rear (increasing y) diagonal neighbours of a square, left one first. */
  function DiagonaisAtras(c: Coord): (r: seq<Coord>)
    requires EValida(c)
    ensures |r| <= 2
    ensures forall k :: 0 <= k < |r| ==> EValida(r[k]) && r[k].y == c.y + 1 && (r[k].x == c.x - 1 || r[k].x == c.x + 1)
    ensures Coord(c.x - 1, c.y + 1) in r <==> c.y < 7 && c.x > 0
    ensures Coord(c.x + 1, c.y + 1) in r <==> c.y < 7 && c.x < 7
    ensures |r| == 2 ==> r[0].x < r[1].x
  {
    if c.y == 7 then []
    else (if c.x > 0 then [Coord(c.x - 1, c.y + 1)] else []) + (if c.x < 7 then [Coord(c.x + 1, c.y + 1)] else [])
  }

  /** The on-board squares among `c + d` for the offsets `ds`, in order. */
  function VizinhasEm(c: Coord, ds: seq<Coord>): (r: seq<Coord>)
    ensures |r| <= |ds|
    ensures forall k :: 0 <= k < |r| ==> EValida(r[k])
  {
    if ds == [] then []
    else
      var resto := VizinhasEm(c, ds[1..]);
      var r := (if EValida(Soma(c, ds[0])) then [Soma(c, ds[0])] else []) + resto;
      assert forall k :: 0 <= k < |r| ==> r[k] == Soma(c, ds[0]) || r[k] in resto;
      r
  }

  /** `VizinhasEm(c, ds)` holds exactly the on-board squares `c + d` for `d` in `ds`. */
  lemma {:induction false} VizinhasEmMembros(c: Coord, ds: seq<Coord>)
    ensures forall d :: d in ds && EValida(Soma(c, d)) ==> Soma(c, d) in VizinhasEm(c, ds)
    ensures forall k :: 0 <= k < |VizinhasEm(c, ds)| ==> exists d :: d in ds && VizinhasEm(c, ds)[k] == Soma(c, d)
  {
    if ds != [] {
      VizinhasEmMembros(c, ds[1..]);
      var resto := VizinhasEm(c, ds[1..]);
      var cabeca := if EValida(Soma(c, ds[0])) then [Soma(c, ds[0])] else [];
      var r := VizinhasEm(c, ds);
      assert r == cabeca + resto;
      forall d | d in ds && EValida(Soma(c, d)) ensures Soma(c, d) in r {
        if d != ds[0] {
          assert d in ds[1..];
        }
      }
      forall k | 0 <= k < |r| ensures exists d :: d in ds && r[k] == Soma(c, d) {
        if k < |cabeca| {
          assert ds[0] in ds && r[k] == Soma(c, ds[0]);
        } else {
          assert r[k] == resto[k - |cabeca|];
          var d :| d in ds[1..] && resto[k - |cabeca|] == Soma(c, d);
          assert d in ds;
        }
      }
      assert forall k :: 0 <= k < |r| ==> exists d :: d in ds && r[k] == Soma(c, d);
    } else {
      assert VizinhasEm(c, ds) == [];
    }
  }

  /** The offsets of the four diagonal neighbours: forward left, forward right, rear left, rear right. */
  const Vizinhancas: seq<Coord> := [Coord(-1, -1), Coord(1, -1), Coord(-1, 1), Coord(1, 1)]

  /** The squares a man may jump over: its on-board diagonal neighbours, forward ones first. */
  function DiagonaisComiveis(c: Coord): (r: seq<Coord>)
    requires EValida(c)
    ensures |r| <= 4
    ensures forall k :: 0 <= k < |r| ==> EValida(r[k])
  {
    VizinhasEm(c, Vizinhancas)
  }

  /** The capturable diagonals are the forward diagonals followed by the rear ones. */
  lemma DiagonaisComiveisFrenteAtras(c: Coord)
    requires EValida(c)
    ensures DiagonaisComiveis(c) == DiagonaisFrente(c) + DiagonaisAtras(c)
  {
    var ds := Vizinhancas;
    var u3 := if c.y < 7 && c.x < 7 then [Coord(c.x + 1, c.y + 1)] else [];
    var u2 := if c.y < 7 && c.x > 0 then [Coord(c.x - 1, c.y + 1)] else [];
    var u1 := if c.y > 0 && c.x < 7 then [Coord(c.x + 1, c.y - 1)] else [];
    var u0 := if c.y > 0 && c.x > 0 then [Coord(c.x - 1, c.y - 1)] else [];
    assert VizinhasEm(c, ds[3..]) == u3 by {
      assert ds[3..][1..] == [];
    }
    assert VizinhasEm(c, ds[2..]) == u2 + u3 by {
      assert ds[2..][1..] == ds[3..];
    }
    assert VizinhasEm(c, ds[1..]) == u1 + (u2 + u3) by {
      assert ds[1..][1..] == ds[2..];
    }
    assert VizinhasEm(c, ds) == u0 + (u1 + (u2 + u3));
    FrenteEmPartes(c);
    AtrasEmPartes(c);
    Reagrupa(u0, u1, u2 + u3);
  }

  /** No element occurs twice in `s`. */
  predicate SemRepeticao<T(==)>(s: seq<T>)
  {
    forall i, j :: 0 <= i < j < |s| ==> s[i] != s[j]
  }

  /** `r` is `s` with some elements left out and the rest in their order. */
  predicate Subsequencia<T(==)>(r: seq<T>, s: seq<T>)
    decreases |s|
  {
    if r == [] then true
    else if s == [] then false
    else (r[0] == s[0] && Subsequencia(r[1..], s[1..])) || Subsequencia(r, s[1..])
  }

  /** Two sequences without repetitions and with no element in common join into one. */
  lemma SemRepeticaoJuntas<T>(a: seq<T>, b: seq<T>)
    requires SemRepeticao(a) && SemRepeticao(b)
    requires forall x :: x in a ==> x !in b
    ensures SemRepeticao(a + b)
  {
    var s := a + b;
    forall i, j | 0 <= i < j < |s| ensures s[i] != s[j] {
      if i < |a| && j >= |a| {
        assert s[i] in a && s[j] == b[j - |a|];
      } else if i >= |a| {
        assert s[i] == b[i - |a|] && s[j] == b[j - |a|];
      }
    }
  }

  /** `m` more steps after `k` steps are `k + m` steps. */
  lemma PassoDePasso(a: Coord, d: Coord, k: int, m: int)
    requires Unitaria(d)
    ensures Passo(Passo(a, d, k), d, m) == Passo(a, d, k + m)
    ensures Passo(Soma(a, d), d, m) == Passo(a, d, m + 1)
  {
  }

  /** A diagonal walk never comes back: distinct step counts reach distinct squares. */
  lemma PassoInjetivo(a: Coord, d: Coord, k: int, m: int)
    requires Unitaria(d) && k != m
    ensures Passo(a, d, k) != Passo(a, d, m)
  {
  }

  /** Walks from `a` along two different unit diagonals meet only at `a`. */
  lemma PassosSeparados(a: Coord, d: Coord, e: Coord, k: int, m: int)
    requires Unitaria(d) && Unitaria(e) && d != e && k >= 1 && m >= 1
    ensures Passo(a, d, k) != Passo(a, e, m)
  {
  }

  /** Distinct offsets from one square give distinct on-board neighbours. */
  lemma {:induction false} VizinhasEmSemRepeticao(c: Coord, ds: seq<Coord>)
    requires SemRepeticao(ds)
    ensures SemRepeticao(VizinhasEm(c, ds))
  {
    if ds != [] {
      var resto := VizinhasEm(c, ds[1..]);
      assert SemRepeticao(ds[1..]) by {
        forall i, j | 0 <= i < j < |ds[1..]| ensures ds[1..][i] != ds[1..][j] {
          assert ds[1..][i] == ds[i + 1] && ds[1..][j] == ds[j + 1];
        }
      }
      VizinhasEmSemRepeticao(c, ds[1..]);
      VizinhasEmMembros(c, ds[1..]);
      var cabeca := if EValida(Soma(c, ds[0])) then [Soma(c, ds[0])] else [];
      forall k | 0 <= k < |resto| ensures resto[k] != Soma(c, ds[0]) {
        var d :| d in ds[1..] && resto[k] == Soma(c, d);
        var i :| 0 <= i < |ds[1..]| && ds[1..][i] == d;
        assert d == ds[i + 1] != ds[0];
      }
      SemRepeticaoJuntas(cabeca, resto);
      assert VizinhasEm(c, ds) == cabeca + resto;
    }
  }

  /** The four neighbours of a square are distinct. */
  lemma DiagonaisComiveisSemRepeticao(c: Coord)
    requires EValida(c)
    ensures SemRepeticao(DiagonaisComiveis(c))
  {
    VizinhasEmSemRepeticao(c, Vizinhancas);
  }

  /** Concatenation is associative. */
  lemma Reagrupa<T>(a: seq<T>, b: seq<T>, c: seq<T>)
    ensures a + (b + c) == (a + b) + c
  {
  }

  /** The forward diagonals as the left and the right candidate, each kept when on the board. */
  lemma FrenteEmPartes(c: Coord)
    requires EValida(c)
    ensures DiagonaisFrente(c) ==
      (if c.y > 0 && c.x > 0 then [Coord(c.x - 1, c.y - 1)] else []) + (if c.y > 0 && c.x < 7 then [Coord(c.x + 1, c.y - 1)] else [])
  {
    if c.y == 0 {
      assert DiagonaisFrente(c) == [] + [];
    }
  }

  /** The rear diagonals as the left and the right candidate, each kept when on the board. */
  lemma AtrasEmPartes(c: Coord)
    requires EValida(c)
    ensures DiagonaisAtras(c) ==
      (if c.y < 7 && c.x > 0 then [Coord(c.x - 1, c.y + 1)] else []) + (if c.y < 7 && c.x < 7 then [Coord(c.x + 1, c.y + 1)] else [])
  {
    if c.y == 7 {
      assert DiagonaisAtras(c) == [] + [];
    }
  }

  /** The capturable diagonals are exactly the on-board unit diagonal neighbours. */
  lemma DiagonaisComiveisVizinhas(c: Coord)
    requires EValida(c)
    ensures forall k :: 0 <= k < |DiagonaisComiveis(c)| ==> Unitaria(Distancia(c, DiagonaisComiveis(c)[k]))
    ensures forall d :: d in Direcoes && EValida(Soma(c, d)) ==> Soma(c, d) in DiagonaisComiveis(c)
  {
    var r := DiagonaisComiveis(c);
    VizinhasEmMembros(c, Vizinhancas);
    forall k | 0 <= k < |r| ensures Unitaria(Distancia(c, r[k])) {
      var d :| d in Vizinhancas && r[k] == Soma(c, d);
    }
    forall d | d in Direcoes ensures d in Vizinhancas {
    }
  }

  /** The step along a diagonal ray from `a` towards `Passo(a, d, k)` is `d` itself. */
  lemma NormalDoPasso(a: Coord, d: Coord, k: int)
    requires Unitaria(d) && k >= 1
    ensures Normal(Distancia(a, Passo(a, d, k))) == d
  {
  }
}
