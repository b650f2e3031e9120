# Stock engine and recount workflow of a kitchen stock manager

This project is a Dafny model of the logic in the two screens of a small kitchen
stock application.

The manager screen (`src/Gerente.jsx`) does the following:

- Normalises product units.
- Folds the entradas (stock in) and saídas (stock out) into a *theoretical stock* per product name.
- Derives two things from that stock: the below-minimum alert list and the total stock value.
- Filters history lists by an inclusive `YYYY-MM-DD` date range.
- Runs the monthly recount. This is a staged map of counted values with four operations:
  - seeding it from the real count;
  - merging pasted free text;
  - filling blanks with `"0"`;
  - committing. A commit computes the negative discrepancies against the theoretical stock, asks for confirmation, writes the rows, and overwrites the real count.

The team screen (`src/Equipa.jsx`) builds a provisional list of saídas. A line is
added only when its quantity is valid. Lines can be removed by position. A
confirmation stamps every line with the person responsible and then clears the list.

Both screens group the catalogue by procedência (supplier) and keep a map of
which groups are open.

Modules, leaf first:

- `Base`: the `Option` type.
- `JsTexto`: JavaScript `trim`, `toLowerCase`, `split`, `join`, first-occurrence `replace`, `includes` and string `<`.
- `JsNumero`: `Number(string)`. A value is either a finite number, held as a `real`, or `NaN`.
- `Ordenacao`: a sort over a total preorder, and sums.
- `Unidades`: `normalizeUnidade`.
- `Stock`: theoretical stock, alerts, valuation, the date range, and the recount list.
- `Colagem`: `parseInventarioTexto`, including both regular expressions it uses.
- `Procedencias`: grouping and the open-group map.
- `Recontagem`: the recount workflow, written on plain values.
- `GerenteEcra`: the manager screen. The `Gerente` class holds its state.
- `EquipaEcra`: the team screen. The `Equipa` class holds its state.

Calls to the record store become parameters:

- A load receives its rows as arguments.
- A write receives its outcome as a boolean (`gravacaoOk`, `insercaoOk`).
- The `window.confirm` answer is the boolean `confirmar`.
- The current time is a string argument.

Behaviour of the code worth noting:

- Real-count rows carry no timestamp. No "adjusted" stock exists after a cutoff. Alerts, valuation and discrepancies all use the lifetime theoretical stock.
- A NaN quantity does not simply count as 0. `(inv[p] || 0) + Number(q)` makes the running total NaN. That NaN reads as 0 only when the same product's *next* movement arrives, or when the final map is read with `|| 0`.
- The fallback regular expression takes the *first* number after white space, not the last one.
- `replace(",", ".")` converts only the first comma.
- A blank staged value, or a pasted quantity without digits, commits as 0, because `Number("")` is 0.

## Model

| member | source | states |
|---|---|---|
| Unidades.NormalizeUnidade | src/Gerente.jsx:39-54 | blank input gives ""; each listed spelling gives its own family's unit (the kg spellings give "kg", the g spellings "g", and likewise for l, ml, un, cx and pct); anything else gives the trimmed, lower-cased input |
| Unidades.CanonicaFixa | src/Gerente.jsx:44-50 | each of the seven canonical units normalises to itself |
| Unidades.NormalizeIdempotente | src/Gerente.jsx:39-54 | normalising twice is normalising once |
| GerenteEcra.NormalizarUnidades | src/Gerente.jsx:113-114 | the loaded catalogue has the same length and products, each with its unit normalised and every other field kept |
| Stock.CalcularInventarioTeorico | src/Gerente.jsx:126-135 | the two `forEach` loops compute the fold over all entradas and then all saídas |
| Stock.TeoricoEhEntradasMenosSaidas | src/Gerente.jsx:126-135 | with numeric quantities, a name's stock is Σ its entradas − Σ its saídas; a name is a key exactly when some movement names it, so an absent name reads as 0 |
| Stock.TeoricoIndependeDaOrdem | src/Gerente.jsx:126-135 | with numeric quantities, the stock map does not depend on the order of either list |
| Stock.AcumularConcat | src/Gerente.jsx:128-133 | folding two lists of movements one after the other is folding their concatenation |
| Stock.AcumularOutros | src/Gerente.jsx:128-133 | movements of other products leave a product's running value untouched |
| Stock.AcumularNaNFinal | src/Gerente.jsx:128-133 | after `a + [NaN movement of n] + b`, with no movement of n in `b`, n's running value is NaN, whatever `a` held |
| Stock.AcumularNaNRecomeca | src/Gerente.jsx:128-133 | the next movement of n after a NaN, however many movements of other products lie between, sets n to plus or minus its own quantity (`NaN \|\| 0`) |
| Stock.NaNAnulaStock | src/Gerente.jsx:126-135 | a NaN saída of n followed only by saídas of other products leaves n NaN in the theoretical stock, read as 0 |
| Stock.NaNEntradaAnulaStock | src/Gerente.jsx:126-135 | a NaN entrada of n followed by no other movement of n, in either list, leaves n NaN, read as 0 |
| Stock.NaNRecomecaDoZero | src/Gerente.jsx:126-135 | a NaN entrada of n whose next movement of n is a saída of q, with any movements of other products between, leaves n at -q |
| Stock.ProdutosAbaixoMinimo | src/Gerente.jsx:148-150 | a product is listed exactly when it is in the catalogue and its stock (absent → 0) is below its minimum (absent or NaN → 0) |
| Stock.AbaixoMinimoConcat | src/Gerente.jsx:148-150 | the alert list is an order-preserving filter: it distributes over concatenation of catalogues |
| Stock.MinimoAusenteLeZero | src/Gerente.jsx:149 | a product with no minimum, or a NaN one, is flagged exactly when its stock is negative |
| Stock.ValorTotalEhSoma | src/Gerente.jsx:152-158 | the reduce equals Σ stock × price with absent values read as 0, gives 0 for an empty catalogue, and does not depend on catalogue order |
| Stock.IntervaloInclusivo | src/Gerente.jsx:161-167 | both bounds are inclusive: a timestamp is inside the one-day range of its own date |
| Stock.IntervaloSemLimites | src/Gerente.jsx:161-167 | with both bounds empty, only an empty timestamp is outside |
| Stock.IntervaloMonotono | src/Gerente.jsx:161-167 | widening a bound, or emptying it, keeps every timestamp that was inside |
| Stock.IntervaloInvertidoVazio | src/Gerente.jsx:161-167 | a range whose end is before its start contains nothing |
| Stock.InventarioMensalLista | src/Gerente.jsx:138-145 | the recount list is sorted by name and holds each catalogue product whose lower-cased name contains the trimmed, lower-cased filter (all of them when the filter is empty), with its multiplicity |
| GerenteEcra.Gerente.ListaInventarioMensal | src/Gerente.jsx:138-145 | the rows shown in recount mode are sorted by name and are catalogue products |
| JsTexto.TrocarPrimeiroSoUma | src/Gerente.jsx:224 | `replace(",", ".")` changes only the first comma and keeps the rest of the text |
| Colagem.ParseInventarioTexto | src/Gerente.jsx:187-231 | the line loop computes, for the non-blank trimmed lines in order, the map in which each readable line sets its name |
| Colagem.SepararEscolhe | src/Gerente.jsx:199-202 | the first of `;`, tab, `:`, `=` that gives two or more non-empty parts is the one used |
| Colagem.LinhaComSeparador | src/Gerente.jsx:199-209 | `nome SEP qtd` gives the trimmed name and the trimmed quantity text |
| Colagem.AlternativaEm | src/Gerente.jsx:211-216 | the fallback match has the leftmost start and the shortest group 1 followed by white space and a number; without a match no start and end can work |
| Colagem.PrimeiroNumeroDesde | src/Gerente.jsx:222-223 | the quantity's number is the match at the leftmost position where the number pattern matches, and no earlier position matches |
| Colagem.NumeroEmGuloso | src/Gerente.jsx:222 | the number match is greedy: no digit follows it, and no fraction follows one it took without a fraction |
| Colagem.ValorDoToken | src/Gerente.jsx:222-224 | a matched number, with its comma turned into a point, is read by `Number` as exactly the decimal it shows, with either decimal separator |
| Colagem.LerLinhaValor | src/Gerente.jsx:219-227 | a line with a name always yields an entry: the first number in its quantity text, or 0 when that text has no digits |
| Colagem.ChavesLidas | src/Gerente.jsx:197-228 | a name is in the parsed map exactly when some line reads it |
| Colagem.UltimaLinhaVence | src/Gerente.jsx:227 | a name keeps the value of the last line that reads it |
| Colagem.ExemploAzeite | src/Gerente.jsx:187-231 | "Azeite; 3,5" parses to {Azeite: 3.5} |
| Colagem.ExemploSemDigitos | src/Gerente.jsx:222-227 | "Arroz;abc" parses to {Arroz: 0} |
| Recontagem.Semente | src/Gerente.jsx:172-176 | the seeded map has exactly the catalogue names as keys |
| GerenteEcra.SementeDe | src/Gerente.jsx:170-181 | the seeding loop stages each product's real count, or "" when it has none |
| GerenteEcra.Gerente.IniciarInventarioMensal | src/Gerente.jsx:170-181 | starting a recount stages the seed, clears the paste box and the filter, and opens the mode |
| GerenteEcra.Gerente.FecharInventarioMensal | src/Gerente.jsx:183-185 | closing the recount closes only the mode |
| GerenteEcra.Gerente.EditarContagem | src/Gerente.jsx:622 | typing a count overwrites that name's staged value only |
| GerenteEcra.Gerente.EscreverColagem | src/Gerente.jsx:584 | typing in the paste box sets it |
| GerenteEcra.Gerente.EscreverFiltro | src/Gerente.jsx:560 | typing in the search box sets it |
| Recontagem.AplicarColagem | src/Gerente.jsx:240-257 | pasted names in the catalogue get the pasted value; every other staged entry, present or absent, is unchanged |
| Recontagem.NaoEncontrados | src/Gerente.jsx:248 | the reported names are exactly the parsed names outside the catalogue |
| Recontagem.ColadoLidoNaGravacao | src/Gerente.jsx:244 | a pasted value is committed as exactly the number that was parsed |
| GerenteEcra.Gerente.AplicarColagemInventario | src/Gerente.jsx:233-258 | an empty parse changes nothing; otherwise the merge is applied and the unmatched names are reported |
| Recontagem.PreencherVazios | src/Gerente.jsx:260-267 | every catalogue name whose value is blank or missing becomes "0", and every other value is kept |
| Recontagem.PreencherIdempotente | src/Gerente.jsx:260-267 | filling blanks twice is filling once |
| Recontagem.PreencherMantemLeitura | src/Gerente.jsx:260-275 | filling blanks never changes what a name commits, because blank and "0" both read as 0 |
| GerenteEcra.PreencherVaziosDe | src/Gerente.jsx:260-267 | the loop over the catalogue computes the fill-blanks map |
| GerenteEcra.Gerente.PreencherVaziosComZeroInventario | src/Gerente.jsx:260-267 | the staged map becomes its fill-blanks image |
| Recontagem.BrancoLidoComoZero | src/Gerente.jsx:275 | a blank or missing staged value reads as 0 |
| Recontagem.LinhasAGravar | src/Gerente.jsx:272-279 | a row (name, q) is built exactly when the name is in the catalogue and its staged value reads as the finite number q |
| Recontagem.SemContagemGravaZero | src/Gerente.jsx:272-279 | committing straight after seeding writes 0 for a product with no real count |
| Recontagem.Negativas | src/Gerente.jsx:284-291 | the warning list holds exactly the rows whose difference from the theoretical stock is negative, as a permutation of the filtered rows sorted most negative first |
| Recontagem.NegativaSse | src/Gerente.jsx:284-291 | a row is flagged exactly when its count is below the theoretical stock |
| GerenteEcra.GravarContagem | src/Gerente.jsx:269-340 | no rows gives "nothing valid"; declining the confirmation (asked only when a negative exists) or a failed upsert leaves the real count and the mode unchanged; otherwise every row overwrites its product and the mode closes |
| GerenteEcra.Gerente.GravarInventarioMensal | src/Gerente.jsx:269-340 | the commit gates and write applied to the screen's staged values, movements and real count |
| GerenteEcra.SobrescreverLinhas | src/Gerente.jsx:325-326 | the loop writes each row's quantity into the real-count map, a later row winning |
| Recontagem.GravacaoReflete | src/Gerente.jsx:325-326 | after a commit, each catalogue name whose staged value is a finite number holds that number |
| Recontagem.GravacaoPreservaOutros | src/Gerente.jsx:325-326 | after a commit, every other name keeps its real count, present or absent |
| Recontagem.RecontagemAposGravacao | src/Gerente.jsx:325-327 | the next recount starts from the values just committed |
| GerenteEcra.Gerente.CarregarDados | src/Gerente.jsx:107-123 | loading stores the catalogue with normalised units and the movements, and builds the real count from the rows, a later row winning |
| GerenteEcra.Gerente.constructor | src/Gerente.jsx:64-100 | the screen starts with empty data, the mode closed, and nothing staged, typed or open |
| Procedencias.Procedencia | src/Equipa.jsx:38-39 | a product's group is its trimmed procedência, or "Sem procedência" when that is blank or missing |
| Procedencias.AgruparPor | src/Equipa.jsx:36-42 | the grouping loop computes the group map and its key list; the key order it models is the order of first creation, which differs from `Object.keys` for integer-like keys but is erased by the sort that follows |
| Procedencias.ChavesDoAgrupamento | src/Equipa.jsx:36-45 | a group exists exactly for the procedências that occur, and each key is listed once |
| Procedencias.GrupoEhFiltro | src/Equipa.jsx:36-42 | each group's list is the catalogue filtered to that key, in catalogue order |
| Procedencias.DoGrupoConcat | src/Equipa.jsx:36-42 | the per-group filter distributes over concatenation, so a group keeps catalogue order |
| Procedencias.UmGrupoPorProduto | src/Equipa.jsx:36-42 | a product is in a group exactly when that group is its own procedência |
| Procedencias.TodoProdutoTemGrupo | src/Equipa.jsx:36-42 | every catalogue product has a group |
| Procedencias.ProcedenciasOrdenadas | src/Equipa.jsx:43-45 | the sorted keys are ordered and hold each group key exactly once |
| Procedencias.Alternar | src/Equipa.jsx:47-49 | toggling flips the chosen group and keeps every other key |
| Procedencias.AlternarDuasVezes | src/Equipa.jsx:47-49 | toggling a group twice leaves every group as it was seen |
| Procedencias.AbrirTodas | src/Equipa.jsx:51-55 | open-all builds a map whose keys are exactly the listed groups, all true |
| Procedencias.FecharTodas | src/Equipa.jsx:57-59 | after close-all no group is open |
| GerenteEcra.Gerente.ToggleProcedencia | src/Gerente.jsx:469-471 | the manager's toggle flips one group |
| GerenteEcra.Gerente.AbrirTudoProcedencias | src/Gerente.jsx:473-477 | the manager's open-all opens exactly the current group keys |
| GerenteEcra.Gerente.FecharTudoProcedencias | src/Gerente.jsx:479-481 | the manager's close-all empties the map |
| EquipaEcra.Equipa.ToggleProcedencia | src/Equipa.jsx:47-49 | the team's toggle flips one group |
| EquipaEcra.Equipa.AbrirTudoProcedencias | src/Equipa.jsx:51-55 | the team's open-all opens exactly the current group keys |
| EquipaEcra.Equipa.FecharTudoProcedencias | src/Equipa.jsx:57-59 | the team's close-all empties the map |
| EquipaEcra.Equipa.constructor | src/Equipa.jsx:16-23 | the screen starts with an empty list, no quantities, no name, and no group open |
| EquipaEcra.Equipa.CarregarProdutos | src/Equipa.jsx:30-33 | loading stores the catalogue |
| EquipaEcra.Equipa.EditarQuantidade | src/Equipa.jsx:132-137 | typing a quantity overwrites that product's input only |
| EquipaEcra.Equipa.EditarResponsavel | src/Equipa.jsx:220 | typing the responsible person's name sets it |
| EquipaEcra.Equipa.EditarPesquisa | src/Equipa.jsx:77 | typing in the search box sets it |
| EquipaEcra.Equipa.AdicionarSaida | src/Equipa.jsx:143-162 | a quantity that is missing, NaN, 0 or negative changes nothing; otherwise exactly one line {name, qty, unit, "Cozinha", time} is appended at the end and only that product's input is cleared; every line keeps a positive quantity |
| EquipaEcra.FiltrarIndice | src/Equipa.jsx:202 | filtering out index i gives the list without position i, or the list unchanged when i is out of range |
| EquipaEcra.RemoverUma | src/Equipa.jsx:202 | removing position i shortens the list by one, keeps the lines before i, shifts those after it, and drops exactly that line |
| EquipaEcra.Equipa.RemoverSaida | src/Equipa.jsx:202 | the remove button replaces the list by its filtered copy |
| EquipaEcra.Payload | src/Equipa.jsx:236-239 | the payload has the list's length and order, each line unchanged except for the attached name |
| EquipaEcra.Equipa.ConfirmarSaidas | src/Equipa.jsx:226-251 | an empty name or an empty list changes nothing; a failed insert keeps the list and the name; a successful insert empties both |
| EquipaEcra.RegistoBaixaStock | src/Equipa.jsx:236-241 | once a confirmed batch is among the saídas, each product's theoretical stock drops by exactly the batch's quantities for it |

## Left out

- Record-store calls are not modelled. This covers the selects of `fetchTudo` and `fetchProdutos`, the upsert and the insert, and the product and entrada create, edit and delete handlers of the manager screen. Loads become arguments and writes become boolean outcomes. The reload that follows a successful commit is not modelled; the in-memory overwrite before it is.
- A real-count row whose quantity is null is not modelled. Loaded real counts are numbers.
- The inline real-count editor of the stock table (src/Gerente.jsx:961-975) is not modelled. Its input writes the typed text into the in-memory real-count map, and its blur handler upserts the value only when `Number(...)` of that text is finite, then reloads. The model keeps every real count numeric, so a recount started while such text is in the map is seeded with a number rather than the typed text.
- `minimo` and `preco_unit` are taken as numbers (possibly NaN) or null, as the product form stores only finite numbers (src/Gerente.jsx:652-657). A text value would become NaN through `Number(p.minimo || 0)` and would never be flagged below minimum; that case is not modelled.
- `alert` texts are not modelled. This includes the truncation to 25 unmatched names and to 20 negative rows, and `fmtNum` number formatting. The `window.confirm` answer is a parameter.
- The text a pasted value is staged as (`String(v).replace(".", ",")`) is not modelled. The staged cell keeps the number and reads back as that number at commit.
- `Number` is modelled on decimal literals with an optional sign, fraction and exponent. `Infinity`, hexadecimal, octal and binary literals are not modelled, and neither is double-precision rounding. Values are exact reals.
- `localeCompare` is modelled as code-point lexicographic order. Locale collation is not modelled.
- `toLowerCase` is modelled on ASCII and Latin-1 upper-case letters only.
- Strings are sequences of code points. JavaScript compares, slices and measures strings in UTF-16 code units. The two differ only for characters outside the Basic Multilingual Plane, which ISO dates never contain; this affects `JsTexto.LexMenor`, `Stock.DentroIntervalo` and `Stock.Prefixo10`.
- Ordenacao.Ordenar: proved sorted and a permutation of its input; stability, which `Array.prototype.sort` guarantees, is not stated.
- Object keys are ordinary strings. Special JavaScript keys such as `__proto__` are not modelled.
- PDF export (`exportPDF*`, `formatDateTimeParts`) is not modelled. It is layout and a library.
- All rendering is not modelled. This includes the search filter applied to the grouped product lists, the highlight of rows below their minimum, and the per-month label of the recount.
- `src/App.jsx` (the PIN screen), `src/storage.js`, `src/services/produtosService.js` and `src/TesteSupabase.jsx` are not part of this model. They are a UI shell and thin wrappers over the browser and the record store.
