# Damas: a verified model of a checkers rules engine

This project models the rules engine of a Brazilian-style checkers ("damas") game and proves properties of it. It also models the two earlier prototypes of the same game. The engine works on an 8×8 board of squares (`Casa`, empty or holding a `Peça`) and a side to move (`vez`):

- man and king moves;
- the man's short jump and the king's long jump;
- the depth-first search for capture chains and the longest-chain filter;
- the move list for a turn: captures are mandatory, and the longest chains win;
- board construction from a character grid;
- rendering.

## Layout

| file | module | what it holds |
|---|---|---|
| `wrappers.dfy` | `Wrappers` | `Option` and `Result` |
| `coord.dfy` | `Coord` | The engine's signed coordinate type |
| `pecas.dfy` | `Pecas` | `Jogador`, `Peca`, `Casa`, `Jogada` and their methods |
| `regras.dfy` | `Regras` | The rules as functions of a board value, with their lemmas |
| `cadeias.dfy` | `Cadeias` | Capture chains and the longest-chain filter |
| `turno.dfy` | `Turno` | The pieces of the side to move, the end of game, plain moves of a turn and the list of options for a turn |
| `jogo.dfy` | `Jogo` | Grid decoding and rendering, and the game object itself |
| `prototipo_coord.dfy` | `PrototipoCoord` | The unsigned coordinates of `damas/src/coord.rs` |
| `prototipo_jogo.dfy` | `PrototipoJogo` | The board of `damas/src/jogo.rs` |
| `prototipo_lib.dfy` | `PrototipoLib` | The board of `damas/src/lib.rs` |

The game object in `jogo.dfy` is a class `Jogo`:

- Its board is an `array2<Casa>` and its side to move is a field.
- Methods that mutate the board (`EscreverCasa`, `MoverSemChecar`, `ExecutarJogada`, `PassarTurno`) state the new board as a function of the old one.
- Methods that loop (`MovimentosDama`, the capture walks, `PecasDaCorAtual`, `Acabou`, `New`, `Exibir`) carry the loop invariants that tie them to the rule functions.
- The chain search is a recursive method. Like the source, it threads the `stack` and the list of recorded chains through every call: each call takes them in and returns them updated. It terminates because the set of captured squares grows strictly. Its `for` loop is the method `PercorrerCapturas` and one turn of that loop is `TentarCaptura`, so that each carries its own contract. The order in which it records chains is the ghost function `Cadeias.Busca`, which unfolds the same recursion on a board value.
- The prototypes' boards are classes over `array2<Casa>` too. Their `Default`, `Display`, piece listing and `mover` are loops and in-place writes there as well.

## Modelling choices

- Names follow the source, without accents (`Peça` → `Peca`, `é_vazia` → `EVazia`). `src/jogo/mod.rs` repeats the logic of `src/jogo.rs` under the piece name `Pedra` at a line offset of 97 in `impl Jogo`. It is modelled once: the rows below cite whichever file holds the function.
- The signed coordinate module the engine imports (`crate::coord`) is not part of this model. `coord.dfy` gives it the smallest definitions consistent with how the engine uses it, and each is an assumption:
  - `Distancia(a, b)` is `b - a`;
  - `Normal` is the component-wise sign;
  - `EValida` means on the board;
  - the forward and rear diagonals are those of the prototype;
  - `DiagonaisComiveis` (`diagonais_comiveis`) is every on-board diagonal neighbour, edge squares included, the forward ones first and then the rear ones, each left one first. It does not drop a neighbour whose landing square beyond it is off the board.
- Coordinates use unbounded integers. Every coordinate the engine builds is at most one step off the board, so 32-bit overflow never happens.
- A Rust panic becomes either a precondition or an error value:
  - `unwrap` on an empty square becomes a precondition;
  - `captura()` on a `Mover` becomes a precondition;
  - indexing with an off-board coordinate becomes a precondition;
  - the panic of `new` on an unknown character becomes `Result.Failure` carrying that character;
  - the panic in the man's capture (see Findings) becomes `None`, in `Regras.CapturasPeaoComoEscrito` only; the rest of the engine uses the corrected capture, which has no panic path.
- The prototype of `damas/src/jogo.rs` keeps its side to move in its own `Vez` enum (`Branca | Preta`). It is modelled by the engine's `Jogador`, which has the same two values. Its `Rainha*` pieces are the engine's `Dama*`.
- The rules of the game make a man's capture legal only when its landing square is on the board and empty. The code checks only that it is empty, and panics on an off-board landing square. Only `Regras.CapturasPeaoComoEscrito` models the code as written, panic included. The whole engine (`Regras.CapturasPeao`, the chain search and the move lists built on it) uses the corrected check, which skips a neighbour whose landing square is off the board.
- The two prototypes start from the same position:
  - 12 black men on rows 0-2 where `x + y` is even;
  - 12 white men on rows 5-7 where it is odd.

## Model

| member | source | states |
|---|---|---|
| Coord.Distancia | src/jogo.rs:337 | Adding the distance from `a` to `b` to `a` gives `b`. This is why a man lands two steps out of its origin. |
| Coord.CasasSaoAsValidas | src/jogo.rs:382-384 | A square is one of the 64 the engine indexes exactly when `é_valida` holds of it |
| Coord.DiagonaisFrente | src/jogo.rs:365-367 | At most two squares, all on the board, one row up, left one first. The left one is present iff `y > 0 && x > 0`, the right one iff `y > 0 && x < 7`. |
| Coord.DiagonaisAtras | src/jogo.rs:365-368 | At most two squares, all on the board, one row down, left one first. The left one is present iff `y < 7 && x > 0`, the right one iff `y < 7 && x < 7`. |
| Coord.DiagonaisComiveis | src/jogo/mod.rs:237 | At most four neighbours, all on the board |
| Coord.DiagonaisComiveisFrenteAtras | src/jogo/mod.rs:237 | Under the assumed definition of `diagonais_comiveis`, the capturable diagonals are the forward diagonals followed by the rear ones |
| Coord.DiagonaisComiveisVizinhas | src/jogo/mod.rs:237-240 | Under the assumed definition of `diagonais_comiveis`, each capturable diagonal is one unit diagonal step from the origin, and every on-board square one diagonal step away is among them |
| Coord.NormalDoPasso | src/jogo/mod.rs:223 | `normal` of the distance to the k-th square along a ray is the ray's direction |
| Pecas.Outro | src/jogo.rs:400-405 | The turn toggle always yields the other side |
| Pecas.OutroInvolucao | src/jogo.rs:400-405 | Toggling the turn twice restores it |
| Pecas.Peca.Dama | src/jogo.rs:62-68 | Promotion always yields a king of the same colour and leaves a king unchanged |
| Pecas.DamaIdempotente | src/jogo.rs:62-68 | Promoting twice is promoting once |
| Pecas.CorExclusiva | src/jogo.rs:54-60 | Every piece is exactly one of white and black |
| Pecas.Peca.EBranca | src/jogo.rs:54-56 | A piece is white iff it is neither of the black kinds |
| Pecas.Peca.EPreta | src/jogo.rs:58-60 | A piece is black iff it is not white |
| Pecas.Peca.EDama | src/jogo.rs:62-68 | A piece is a king iff it is neither kind of man; this is what `dama` yields |
| Pecas.Casa.GetPeca | src/jogo/casa.rs:10-15 | A piece is returned iff the square is occupied, and it is the piece on the square |
| Pecas.Casa.EVazia | src/jogo/casa.rs:17-22 | A square is empty iff it is `Vazia` iff `peça` returns `None` |
| Pecas.Jogada.Origem | src/jogo.rs:84-89 | The origin of both kinds of move |
| Pecas.Jogada.Destino | src/jogo.rs:91-96 | The destination of both kinds of move |
| Pecas.Jogada.Captura | src/jogo.rs:98-104 | Defined only on a capture (the source panics on a plain move). The move is exactly `Capturar(origem, captura, destino)`. |
| Pecas.Jogada.ECapturar | src/jogo.rs:106-108 | True exactly for captures |
| Pecas.Jogada.Tem | src/jogo.rs:110-114 | True iff the move's origin and destination are the two given squares |
| Regras.Atualizar | src/jogo.rs:386-388 | Writing one square changes that square and no other |
| Regras.EAVezDe | src/jogo.rs:390-398 | A piece belongs to the side to move iff its colour is that side's |
| Regras.PassarTurnoTrocaDono | src/jogo.rs:390-405 | After the turn passes, every piece changes between "own" and "enemy" |
| Regras.MoverSemChecar | src/jogo.rs:257-260 | The origin becomes empty and the destination receives the old origin square. No other square changes. A move onto its own square erases the piece. |
| Regras.ExecutarJogada | src/jogo.rs:247-255 | The origin and, for a capture, the captured square become empty, and the destination receives the moving piece. No other square changes. |
| Regras.MoverIdaEVolta | src/jogo.rs:257-260 | A relocation onto an empty square followed by the reverse relocation restores the board |
| Regras.RaioPropriedades | src/jogo.rs:356-360 | A ray holds the consecutive steps from its start, each on the board and empty, and the step after it is off the board or occupied |
| Regras.FimDoRaioPropriedades | src/jogo/mod.rs:218-221 | The king's scan stops at the step just past the ray, which is off the board or occupied |
| Regras.DirecoesUnitarias | src/jogo.rs:355 | The king's four directions are unit diagonal steps |
| Regras.MovimentosDamaAte | src/jogo.rs:353-363 | Every king move relocates from the origin to an on-board empty square |
| Regras.MovimentosDamaAteMembros | src/jogo.rs:353-363 | Over the first `n` directions, a king moves exactly to the squares of those rays |
| Regras.MovimentosDama | src/jogo.rs:353-363 | A king's moves are exactly the relocations from the origin to a square of one of the four rays of empty squares, each on the board and empty |
| Regras.MovimentosPeao | src/jogo.rs:365-376 | A man's moves are exactly the relocations to the empty squares among its forward diagonals (white) or rear diagonals (black). There are at most two, none repeated, and when both are free the left one comes first, as the in-order filter of the diagonals gives. Only a man may be passed in. |
| Regras.Movimentos | src/jogo.rs:346-351 | Every simple move relocates the piece on the origin to an on-board empty square. An empty origin is refused, as by the source's `unwrap`. |
| Regras.CapturasPeaoEmMembros | src/jogo/mod.rs:235-247 | A man's jumps are exactly those over a neighbour of the other side with an empty on-board square just behind. Each lands there. |
| Regras.CapturaDoVizinho | src/jogo/mod.rs:238-243 | Corrected version of the loop body for one neighbour: at most one jump, landing behind the neighbour, and one exactly when the neighbour is an enemy piece with an empty on-board square behind it |
| Regras.CapturasPeaoComoEscrito | src/jogo/mod.rs:235-247 | The generation as written fails exactly when some neighbour of the other side has its landing square off the board. Otherwise it gives the corrected jumps. |
| Regras.CapturasPeao | src/jogo/mod.rs:235-247 | Every jump of a man is a valid capture: an enemy piece jumped, landing on an empty on-board square |
| Regras.PeaoJuntoAoCantoComoEscrito | src/jogo/mod.rs:240-241 | Situation: a white man on (1,1), a black piece on (0,0), white to move. There the code as written reads the off-board square (-1,-1). |
| Regras.PeaoJuntoAoCantoCorrigido | src/jogo/mod.rs:240-241 | In the same situation the corrected generation yields no capture |
| Regras.CapturasDamaDirEm | src/jogo/mod.rs:217-230 | Along one direction: the scan stops at an occupied square or the edge, and the source's `normal` step is that direction. The king's captures are the landings beyond the first piece when it is an enemy piece, and none otherwise. |
| Regras.CapturasDamaDirMembros | src/jogo/mod.rs:215-233 | A king's capture along a direction targets exactly the first occupied square of the ray, which must be an enemy. It lands on each consecutive empty square beyond it. |
| Regras.CapturasDamaValidas | src/jogo/mod.rs:215-233 | Every capture of a king is a valid capture |
| Regras.CapturasDamaAteMembros | src/jogo/mod.rs:215-233 | Over the first `n` directions, a king captures exactly what it captures along one of them |
| Regras.CapturasDama | src/jogo/mod.rs:215-233 | The king's captures are exactly those along one of the four directions. Each is a valid capture, and none is listed twice. |
| Regras.CapturasImediatas | src/jogo/mod.rs:208-213 | Every immediate capture, of a man or a king, is valid |
| Regras.CapturasPeaoSemRepeticao | src/jogo/mod.rs:235-247 | A man never lists the same jump twice |
| Regras.CapturasDamaDirSemRepeticao | src/jogo/mod.rs:217-230 | Along one direction a king lists distinct jumps, each landing along that direction |
| Regras.CapturasDamaAteSemRepeticao | src/jogo/mod.rs:215-233 | Over the first `n` directions a king lists distinct jumps, each landing along one of them |
| Regras.CapturasImediatasSemRepeticao | src/jogo/mod.rs:208-213 | The immediate captures of any piece, man or king, are distinct |
| Cadeias.CadeiaLigada | src/jogo/mod.rs:186-199 | A chain: starts on the origin; each jump starts where the previous one landed, each is a valid capture, and only captures occur; it ends on the board. |
| Cadeias.CadeiaPrefixo | src/jogo/mod.rs:197-203 | Every prefix of a chain is a chain |
| Cadeias.CadeiaEstende | src/jogo/mod.rs:192-199 | When an immediate capture from the chain's end takes a square not yet captured, appending it yields a chain that ends on its landing |
| Cadeias.CadeiaNaoRepete | src/jogo/mod.rs:192-196 | No chain continues with a jump over a square already captured |
| Cadeias.BuscaExata | src/jogo/mod.rs:181-206 | The search from a chain lists every non-empty chain that begins with it, each exactly once, and nothing else |
| Cadeias.BuscaGrava | src/jogo/mod.rs:181-206 | Appending what the search appends records exactly the non-empty chains that begin with the stack |
| Cadeias.BuscaSemRepeticao | src/jogo/mod.rs:181-206 | The search never records the same chain twice |
| Cadeias.BuscaConclui | src/jogo/mod.rs:201-205 | Once all captures are tried, recording the non-empty stack completes the search: the earlier entries are kept and the chains beginning with the stack are added |
| Cadeias.MaioresSaoMaximas | src/jogo/mod.rs:172-176 | The search records nothing iff the piece has no chain. After filtering, its results are exactly the longest chains of that piece. |
| Cadeias.MaiorComprimento | src/jogo/mod.rs:175 | The maximum length is an upper bound of all lengths and is reached by some element (0 when there are none) |
| Cadeias.ComComprimento | src/jogo/mod.rs:176 | Keeps exactly the elements of the given length |
| Cadeias.NaoVazias | src/jogo/mod.rs:344 | Keeps exactly the non-empty elements |
| Cadeias.Maiores | src/jogo/mod.rs:174-176 | Keeps exactly the elements no other outgrows. The result is non-empty when the input is, and all its elements share one length. |
| Cadeias.TemCadeiaSseCaptura | src/jogo/mod.rs:170-174 | A piece has a non-empty chain iff it has an immediate capture on the board with its origin emptied |
| Cadeias.CadeiaDeComecaNaOrigem | src/jogo/mod.rs:186-199 | A piece's chain starts on that piece's square |
| Cadeias.CapturaObrigatoria | src/jogo/mod.rs:359-366 | A longest chain of the side is non-empty and made only of captures |
| Cadeias.MaximaGlobalEm | src/jogo/mod.rs:345-347 | Among the per-piece longest chains, the globally longest ones are exactly the side's longest chains |
| Cadeias.MaximasGlobais | src/jogo/mod.rs:338-348 | No per-piece longest chains means the side has no chain. Those of the greatest length are exactly the side's longest chains. |
| Turno.PecasDaVez | src/jogo.rs:407-419 | Lists exactly the on-board squares holding pieces of the side to move, each once, in row-major order |
| Turno.InimigasSaoDoOutro | src/jogo.rs:424-425 | An on-board square holds an enemy piece iff it holds a piece of the other side |
| Turno.SemInimigas | src/jogo.rs:421-433 | "No enemy piece left" is the same as the other side having no pieces to list |
| Turno.MovimentosDasMembros | src/jogo/mod.rs:350-357 | Over the squares of the side's pieces, the non-empty move lists are exactly the non-empty move lists of those pieces, and each move relocates one of them to an empty square |
| Turno.TodosMovimentos | src/jogo/mod.rs:350-357 | The plain-move lists are exactly the non-empty move lists of the side's pieces. Each move relocates one of those pieces to an empty square. |
| Turno.ColhidasTodas | src/jogo/mod.rs:338-344 | After the loop over the side's pieces, the non-empty lists gathered are exactly the per-piece longest chains, and every piece that can capture is covered |
| Turno.JogadasDoTurnoCapturam | src/jogo/mod.rs:359-366 | When any capture exists, every option offered is a non-empty run of captures |
| Turno.JogadasDoTurnoMovem | src/jogo/mod.rs:359-366 | Otherwise every option is a non-empty list of plain moves of one piece of the side |
| Jogo.DecodificarCasa | src/jogo.rs:184-190 | A grid character is accepted iff it is one of `p b P B .` |
| Jogo.Caractere | src/jogo.rs:184-189 | Every square has a character that decodes back to it |
| Jogo.CaractereDecodificado | src/jogo.rs:184-189 | Decoding then encoding an accepted character gives it back |
| Jogo.Decodificar | src/jogo.rs:179-199 | Every square of the decoded board is the decoding of its character |
| Jogo.Codificar | src/jogo.rs:184-189 | Every character of the encoded grid is its square's character |
| Jogo.DecodificarCodificar | src/jogo.rs:179-199 | Any board encodes to a valid grid that decodes back to it |
| Jogo.CodificarDecodificar | src/jogo.rs:179-199 | Any valid grid decodes to a board that encodes back to it |
| Jogo.GradeInicialValida | src/jogo.rs:6-15 | The starting grid has only accepted characters |
| Jogo.GlifoDoSimbolo | src/jogo.rs:162-169 | Each glyph is its symbol between two spaces, and different squares have different symbols |
| Jogo.Renderizar | src/jogo.rs:155-176 | The printed board is one 26-character header plus eight 27-character rows |
| Jogo.RenderizarPosicoes | src/jogo.rs:155-176 | The header comes first. Row y starts with its digit at `26 + 27y`, and square (x, y) shows its symbol at `29 + 27y + 3x`. |
| Jogo.RenderizarInjetiva | src/jogo.rs:155-176 | Two boards that print the same text are the same board |
| Jogo.Jogo.LerCasa | src/jogo.rs:382-384 | Reads the square of the board at an on-board coordinate |
| Jogo.Jogo.LerPeca | src/jogo.rs:378-380 | Reads the piece on an on-board square, if any |
| Jogo.Jogo.Clonar | src/jogo/mod.rs:170 | The copy has a fresh board equal to the original's and the same side to move |
| Jogo.Jogo.New | src/jogo.rs:179-199 | Fails exactly on a grid with a character outside `p b P B .`, returning that character. Otherwise the board is the decoded grid and white moves first. |
| Jogo.Jogo.Default | src/jogo.rs:131-153 | The board of the starting grid, white to move |
| Jogo.Jogo.Exibir | src/jogo.rs:155-176 | The text built in the loops is the rendering of the board |
| Jogo.Jogo.ExibirLinha | src/jogo.rs:160-172 | One printed row: the digit, a space, the eight glyphs and a newline |
| Jogo.Jogo.EscreverCasa | src/jogo.rs:386-388 | Writes one square and nothing else |
| Jogo.Jogo.MoverSemChecar | src/jogo.rs:257-260 | The new board is the old one relocated as `Regras.MoverSemChecar` states |
| Jogo.Jogo.ExecutarJogada | src/jogo.rs:247-255 | The new board is the old one with the move applied as `Regras.ExecutarJogada` states |
| Jogo.Jogo.PassarTurno | src/jogo.rs:400-405 | The side to move becomes the other side |
| Jogo.Jogo.MovimentosDamaNaDirecao | src/jogo.rs:355-361 | The while loop pushes exactly the relocations along the ray in that direction. The board is unchanged. |
| Jogo.Jogo.MovimentosDama | src/jogo.rs:353-363 | The four rays in the source's order |
| Jogo.Jogo.CalcularMovimentos | src/jogo.rs:346-351 | A man's or a king's moves, by the kind of piece on the origin |
| Jogo.Jogo.CapturaDoVizinho | src/jogo/mod.rs:238-243 | The corrected body of the man's loop for one neighbour: the jump `Regras.CapturaDoVizinho` gives |
| Jogo.Jogo.CapturasImediatasPeao | src/jogo/mod.rs:235-247 | The loop over the capturable diagonals yields the corrected man's jumps |
| Jogo.Jogo.SaltosAte | src/jogo/mod.rs:225-228 | The inner while loop pushes one capture per consecutive empty square beyond the target |
| Jogo.Jogo.CapturasDamaNaDirecao | src/jogo/mod.rs:217-230 | The scan of one direction yields the king's captures along it |
| Jogo.Jogo.CapturasImediatasDama | src/jogo/mod.rs:215-233 | The four directions in the source's order |
| Jogo.Jogo.CapturasImediatas | src/jogo/mod.rs:208-213 | A man's jumps or a king's captures, by the piece kind |
| Jogo.Jogo.CalcularCapturasRecursivamente | src/jogo/mod.rs:181-206 | On return the stack has lost its last jump. The recorded list is the old one followed by `Cadeias.Busca` of the stack, the search's own order. So the earlier entries are kept and the new ones are exactly the non-empty chains beginning with the stack. |
| Jogo.Jogo.PercorrerCapturas | src/jogo/mod.rs:186-200 | After the `for` loop over the immediate captures, the recorded list is the old one followed by each capture's contribution, in the order the captures are listed. The stack is handed back unchanged. |
| Jogo.Jogo.JaCapturada | src/jogo/mod.rs:192-196 | The scan of the stack finds a capture iff its captured square was already taken |
| Jogo.Jogo.TentarCaptura | src/jogo/mod.rs:186-200 | One iteration of the search loop. A capture over a taken square appends nothing. Any other is pushed, and the search from the longer stack appends its `Cadeias.Busca`. The stack is handed back unchanged. |
| Jogo.Jogo.CalcularCapturas | src/jogo/mod.rs:165-179 | `[[]]` for an empty square or a piece with no chain. Otherwise a non-empty list holding exactly the longest chains of that piece. |
| Jogo.Jogo.PecasDaCorAtual | src/jogo.rs:407-419 | The nested loops list exactly the side's squares in row-major order |
| Jogo.Jogo.Acabou | src/jogo.rs:421-433 | True iff the board has no piece of the other side |
| Jogo.Jogo.TodasCapturasPossiveis | src/jogo/mod.rs:338-348 | Exactly the side's longest chains; empty iff the side has no capture |
| Jogo.Jogo.TodosMovimentosPossiveis | src/jogo/mod.rs:350-357 | The non-empty move lists of the side's pieces in scanning order |
| Jogo.Jogo.TodasJogadasPossiveis | src/jogo/mod.rs:359-366 | The side's longest capture chains when any capture exists (captures are mandatory). Otherwise its plain moves. |
| PrototipoCoord.DiagonaisNaLinha | damas/src/coord.rs:16-23 | The left neighbour is present iff `x > 0`, the right one iff `x < 7`, left first |
| PrototipoCoord.DiagonaisDaFrente | damas/src/coord.rs:12-24 | Empty iff `y == 0`. Otherwise `(x-1, y-1)` iff `x > 0` and `(x+1, y-1)` iff `x < 7`, in that order. At most two results, on the board when the input is; no unsigned subtraction underflows. |
| PrototipoCoord.DiagonaisDeTras | damas/src/coord.rs:26-38 | Empty iff `y == 7`. Otherwise `(x-1, y+1)` iff `x > 0` and `(x+1, y+1)` iff `x < 7`, in that order. At most two results, on the board when the input is. |
| PrototipoCoord.TestarDiagonais | damas/src/coord.rs:45-59 | The eight expected results of `testar_diagonais` |
| PrototipoCoord.FrenteComoNoMotor | damas/src/coord.rs:12-24 | On the board, the prototype's forward diagonals are `Coord.DiagonaisFrente`, in the same order. That function is itself defined after this prototype, so the lemma shows that the signed and the unsigned encodings agree, nothing more. |
| PrototipoCoord.TrasComoNoMotor | damas/src/coord.rs:26-38 | On the board, the prototype's rear diagonals are `Coord.DiagonaisAtras`, in the same order. That function is itself defined after this prototype, so the lemma shows that the signed and the unsigned encodings agree, nothing more. |
| PrototipoJogo.CasaInicial | damas/src/jogo.rs:66-70 | `P` gives a black man, `B` a white one, any other character an empty square |
| PrototipoJogo.InicialPorCasa | damas/src/jogo.rs:7-16 | The starting board: black men on rows 0-2 where `x + y` is even, white men on rows 5-7 where it is odd, empty elsewhere |
| PrototipoJogo.InicialDoze | damas/src/jogo.rs:7-16 | Each side starts with twelve men |
| PrototipoJogo.Atualizar | damas/src/jogo.rs:155-156 | Writing one square changes only that square. The count of each kind of man moves by what was removed and what was written. |
| PrototipoJogo.DiagonaisDaPeca | damas/src/jogo.rs:109-114 | White pieces, man or queen, use the forward diagonals; black ones the rear diagonals |
| PrototipoJogo.Livres | damas/src/jogo.rs:115 | Keeps exactly the empty squares, as a subsequence of the input (the kept squares in their order) |
| PrototipoJogo.Relocar | damas/src/jogo.rs:153-158 | After `mover` the destination holds the piece, the origin is empty when it differs from the destination, and every other square is unchanged |
| PrototipoJogo.RelocarPreservaContagem | damas/src/jogo.rs:153-158 | A move onto an empty square (or onto its own) keeps the number of men of each colour |
| PrototipoJogo.RelocarComoNoMotor | damas/src/jogo.rs:153-158 | For distinct squares the prototype's `mover` is the engine's `mover_sem_checar`. On a single square the prototype keeps the piece where the engine erases it. |
| PrototipoJogo.Jogo.Default | damas/src/jogo.rs:60-77 | The board of the prototype's grid, white to move |
| PrototipoJogo.Jogo.Exibir | damas/src/jogo.rs:79-103 | The loops print the same text as the engine's `Display`: header, then per row its digit and eight glyphs |
| PrototipoJogo.Jogo.GlifosDaLinha | damas/src/jogo.rs:85-98 | The inner loop prints a row's eight glyphs |
| PrototipoJogo.Jogo.LerCasa | damas/src/jogo.rs:149-151 | The square at an on-board coordinate |
| PrototipoJogo.Jogo.LerPeca | damas/src/jogo.rs:145-147 | `None` iff the square is empty, otherwise the piece on it |
| PrototipoJogo.Jogo.PossiveisJogadasEm | damas/src/jogo.rs:106-119 | `[]` on an empty square. Otherwise exactly the empty squares among the piece's diagonals: at most two, left one first. |
| PrototipoJogo.Jogo.ListarPecas | damas/src/jogo.rs:121-143 | One entry per square holding a plain man of the given colour; queens are left out |
| PrototipoJogo.Jogo.PecasBrancas | damas/src/jogo.rs:121-131 | One `Branca` per white man on the board |
| PrototipoJogo.Jogo.PecasPretas | damas/src/jogo.rs:133-143 | One `Preta` per black man on the board |
| PrototipoJogo.Jogo.Mover | damas/src/jogo.rs:153-158 | Needs an occupied origin. The new board is the old one with the piece relocated. |
| PrototipoLib.CasaInicial | damas/src/lib.rs:40-44 | `P` gives a black man, `B` a white one, and any other character silently an empty square |
| PrototipoLib.InicialComoNoPrototipo | damas/src/lib.rs:5-14 | This prototype's `TABULEIRO_INICIAL` is the other prototype's, character by character, and square by square the starting boards agree |
| PrototipoLib.Renderizar | damas/src/lib.rs:53-72 | Exactly 200 characters: eight lines of eight glyphs and a newline, with no header |
| PrototipoLib.RenderizarPosicoes | damas/src/lib.rs:55-70 | Row y ends with a newline at `25y + 24`, and square (x, y) shows `B`, `P` or `.` at `25y + 3x + 1` |
| PrototipoLib.RenderizarInjetiva | damas/src/lib.rs:53-72 | Two boards that print the same text are the same board |
| PrototipoLib.Jogo.Default | damas/src/lib.rs:34-51 | The nested loops build the starting board, and white moves first |
| PrototipoLib.Jogo.Exibir | damas/src/lib.rs:53-72 | The loops print the board's rendering |

## Left out

- `Jogo::mover` (src/jogo.rs:201-245, src/jogo/mod.rs:104-148) is not modelled. Its body is `todo!()`, and its commented-out plan is not live code.
- Promotion as a board operation is not modelled, since no live code promotes a piece. Only the `dama` mapping is modelled.
- The outcome enums are not modelled. `JogadaResultado` (src/jogo.rs:117-123; also the `jogada_resultado` and `resultado` files) carries no behaviour and only the missing `mover` uses it.
- `src/main.rs` and `damas/src/main.rs` are not modelled: they read the terminal, clear the screen and loop. `damas/src/main.rs` also calls a `diagonais_da_rainha` that is defined nowhere.
- The signed coordinate module and the `jogador`, `pedra` and `jogada` submodules of `src/jogo/mod.rs` are not part of this model:
  - `coord.dfy` gives the coordinates the assumed contracts above;
  - the submodules are taken to be the types of `src/jogo.rs`.
- `Coord.DiagonaisFrente`, `Coord.DiagonaisAtras`: which of the two neighbours comes first is assumed from the prototype. Only the sets and the lengths follow from the engine's use.
- Regras.CapturaDoVizinho, Regras.CapturasPeao, Cadeias.Cadeia, Jogo.Jogo.CapturaDoVizinho, Jogo.Jogo.CapturasImediatasPeao, Jogo.Jogo.CalcularCapturas, Jogo.Jogo.TodasCapturasPossiveis, Jogo.Jogo.TodasJogadasPossiveis: these do not model the panic of the man's capture on an off-board landing square. They use the corrected check instead (see Findings); the panic is modelled only by `Regras.CapturasPeaoComoEscrito`.
- The 32-bit coordinate components are unbounded here: no coordinate the engine forms can overflow.
- The tie-breaking of `max_by_key` is not modelled. Only the maximum length is used.
- `Jogo.Jogo.CalcularCapturas`, `Jogo.Jogo.TodasCapturasPossiveis`: the order of the returned chains of equal length is not stated, only which chains are returned. The search underneath (`Jogo.Jogo.CalcularCapturasRecursivamente`) is stated with its order, as `Cadeias.Busca`.
- `Debug` formatting of moves is not modelled (src/jogo.rs:77-81).
- In `damas/src/jogo.rs`, `possiveis_jogadas_em` calls `diagonais_de_trás` and reads `Coord`'s private fields. Neither exists under those names in `damas/src/coord.rs`. The model uses the diagonals of `damas/src/coord.rs`.

## Findings

| source | as written | input that shows it | evidently intended | confidence | as-written member | corrected member |
|---|---|---|---|---|---|---|
| src/jogo/mod.rs:240-241 | The man's landing square `vizinho + origem.distancia(vizinho)` is read with `casa` without an `é_valida` check. If `diagonais_comiveis` lists neighbours on the edge, as the model assumes, this indexes the array with a negative or too-large coordinate, and the program panics. If that function already drops such neighbours, the line is never reached off the board. The same code is at src/jogo.rs:337-338. | A white man on (1,1), a black piece on (0,0), white to move: the landing square is (-1,-1) | Skip landings off the board, as the king's capture does at src/jogo/mod.rs:224. | not executed | Regras.PeaoJuntoAoCantoComoEscrito | Regras.PeaoJuntoAoCantoCorrigido |
