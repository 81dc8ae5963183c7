/**
 * The engine's value types: the two players, the four piece kinds, a board
 * cell and a single move (src/jogo.rs; the cell accessors are those of
 * src/jogo/casa.rs, which src/jogo.rs repeats as `get_peça`).
 */
module Pecas {
  import opened Wrappers
  import opened Coord

  /** The side to move. */
  datatype Jogador = Branco | Preto

  /** The other side: what `passar_turno` assigns. */
  function Outro(j: Jogador): (r: Jogador)
    ensures r != j
  {
    match j
    case Branco => Preto
    case Preto => Branco
  }

  lemma OutroInvolucao(j: Jogador)
    ensures Outro(Outro(j)) == j
  {
  }

  /** Men (`Branca`, `Preta`) and kings (`DamaBranca`, `DamaPreta`). */
  datatype Peca = Branca | DamaBranca | Preta | DamaPreta {

    /** `é_branca`: a white man or a white king, that is, no black piece. */
    predicate EBranca(): (r: bool)
      ensures r <==> this != Preta && this != DamaPreta
    {
      Branca? || DamaBranca?
    }

    /** `é_preta`: exactly the pieces that are not white. */
    predicate EPreta(): (r: bool)
      ensures r <==> !EBranca()
    {
      Preta? || DamaPreta?
    }

    /** A king of either colour, that is, no man. */
    predicate EDama(): (r: bool)
      ensures r <==> this != Branca && this != Preta
    {
      DamaBranca? || DamaPreta?
    }

    /** The king of the same colour. */
    function Dama(): (r: Peca)
      ensures r.EDama()
      ensures r.EBranca() == EBranca() && r.EPreta() == EPreta()
      ensures EDama() ==> r == this
    {
      if EBranca() then DamaBranca else DamaPreta
    }
  }

  /** Promoting twice is promoting once. */
  lemma DamaIdempotente(p: Peca)
    ensures p.Dama().Dama() == p.Dama()
  {
  }

  /** Every piece has exactly one colour. */
  lemma CorExclusiva(p: Peca)
    ensures p.EBranca() != p.EPreta()
  {
  }

  /** A board square: empty or holding one piece. */
  datatype Casa = Ocupada(peca: Peca) | Vazia {

    /** `peça()` for src/jogo/casa.rs, `get_peça()` in src/jogo.rs. */
    function GetPeca(): (r: Option<Peca>)
      ensures r.Some? <==> Ocupada?
      ensures Ocupada? ==> r == Some(peca)
    {
      match this
      case Ocupada(p) => Some(p)
      case Vazia => None
    }

    function EVazia(): (r: bool)
      ensures r <==> GetPeca() == None
      ensures r <==> this == Vazia
    {
      match this
      case Ocupada(_) => false
      case Vazia => true
    }
  }

  /** A simple relocation or one capturing jump over `capt`. */
  datatype Jogada = Mover(orig: Coord, dest: Coord) | Capturar(orig: Coord, capt: Coord, dest: Coord) {

    function Origem(): (r: Coord)
      ensures Mover? ==> r == orig
      ensures Capturar? ==> r == orig
    {
      match this
      case Mover(o, _) => o
      case Capturar(o, _, _) => o
    }

    function Destino(): (r: Coord)
      ensures Mover? ==> r == dest
      ensures Capturar? ==> r == dest
    {
      match this
      case Mover(_, d) => d
      case Capturar(_, _, d) => d
    }

    /** The captured square; the source panics when asked this of a relocation. */
    function Captura(): (r: Coord)
      requires Capturar?
      ensures this == Capturar(Origem(), r, Destino())
    {
      capt
    }

    function ECapturar(): (r: bool)
      ensures r <==> Capturar?
    {
      match this
      case Capturar(_, _, _) => true
      case Mover(_, _) => false
    }

    /** Whether the move goes from `origem` to `destino`, whatever its kind. */
    function Tem(origem: Coord, destino: Coord): (r: bool)
      ensures r <==> Origem() == origem && Destino() == destino
    {
      match this
      case Mover(o, d) => o == origem && d == destino
      case Capturar(o, _, d) => o == origem && d == destino
    }
  }
}
