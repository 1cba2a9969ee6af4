# Lexer and symbol-table builder of a toy compiler front end

This project models two stages of a small educational compiler written in Python, and
proves properties of the model in Dafny.

- **The lexer** (`analizar_archivo`, tabla_de_tokens.py). Each line of the source is
  scanned left to right with the alternation `\d+\.\d+ | \w+ | one of + - * / = < > ! ( ) { } ; ,`.
  At each position a float literal is tried first, then a maximal run of word
  characters, then one punctuation character. A position where none matches is
  skipped. Each lexeme then gets one category from a fixed-priority if-chain: reserved
  word, special symbol, arithmetic operator, assignment, float, integer, identifier,
  otherwise "Desconocido". The result is the list of `(lexeme, category, line)`
  triples, with lines numbered from 1.
- **The symbol-table builder** (`generar_tabla_simbolos`, tabla_de_simbolos.py). One pass
  over those triples fills a dictionary keyed by lexeme. Integer literals, float
  literals and identifiers whose lexeme is not in the builder's reserved set create or
  extend an entry. An entry holds a type tag, an id, a repetition count, the list of
  lines and a value. Ids come from a counter that starts at 500.

Files:

- `wrappers.dfy`: the `Option` datatype (Python's `None` or a value).
- `lexer.dfy`, module `Lexer`: character classes, the three anchored patterns, the
  classifier `Classify`, the scan (`SpansFrom`, `Spans`, `Scan`), the whole-file
  function `Tokenize`, and the method `AnalyzeFile` with the two nested loops of the source.
- `numerals.dfy`, module `Numerals`: `int(token)` on a digit string (`ParseNat`), and the
  exact decimal value of a float lexeme (`ParseDecimal`), used in place of `float(token)`.
- `symbol_table.dfy`, module `SymbolTable`: the entry and state datatypes; the helper
  `agregar_a_tabla_simbolos` as the pure `Insert` and as the in-place method
  `SymbolTableBuilder.Add`; one loop iteration as `Step`; the pure fold `Build`; and the
  loop method `GenerateSymbolTable`, proved equal to `Build`.
- `pipeline.dfy`, module `Pipeline`: what the builder makes of the lexer's output.

The id counter is consumed by literal entries as well as by identifier entries, as the
code does (tabla_de_simbolos.py:11-19, 29-31), although the comment at
tabla_de_simbolos.py:6 calls 500 the initial id "para identificadores"; the model follows
the code.

## Model

| member | source | states |
|---|---|---|
| `Lexer.WordRunEnd` | tabla_de_tokens.py:21 | the `\w+` alternative is greedy: the run from `i` holds only word characters and stops at the end of the line or at a non-word character |
| `Lexer.FloatMatchEnd` | tabla_de_tokens.py:21 | the float alternative matches at `i` exactly when digits, a dot and a digit start there; the text it matches is a `\d+\.\d+` lexeme, followed by no further digit |
| `Lexer.MatchEnd` | tabla_de_tokens.py:21 | nothing matches at `i` exactly when the character there is neither a word character nor punctuation; otherwise the match is non-empty and is a float, a word run or one punctuation character |
| `Lexer.SpansFrom` | tabla_de_tokens.py:21 | the matches `findall` finds are non-empty, inside the line, in order and not overlapping, and each has the shape of one alternative |
| `Lexer.FloatPreferred` | tabla_de_tokens.py:21 | where `digits.digit` begins, the first match is the whole float literal, not the shorter word run of its integer part |
| `Lexer.WordRunMaximal` | tabla_de_tokens.py:21 | where no float begins, a word character starts a match that runs to the end of the maximal word run |
| `Lexer.PunctuationSingle` | tabla_de_tokens.py:21 | a punctuation character is a match of length one |
| `Lexer.SkippedCharacters` | tabla_de_tokens.py:21 | a character outside every match is neither a word character nor punctuation: nothing matchable is dropped |
| `Lexer.ScanEmptyIff` | tabla_de_tokens.py:21-23 | a line yields no tokens exactly when it holds no word and no punctuation character (blank lines, whitespace, stray dots) |
| `Lexer.ScanLexemes` | tabla_de_tokens.py:21 | each lexeme is a non-empty contiguous substring of its line, lexemes go left to right without overlap, and a character outside `\w` and punctuation appears in a lexeme only as the dot of a float (so whitespace never does) |
| `Lexer.ClassifyCharacterized` | tabla_de_tokens.py:24-39 | every lexeme has one category; each category holds exactly the lexemes its own test accepts, except that identifiers exclude the reserved words; "Desconocido" exactly when no test accepts |
| `Lexer.ClassifyMatch` | tabla_de_tokens.py:24-39 | for scanned lexemes: floats are "Numero flotante"; all-digit runs are "Numero entero"; runs starting with a letter or `_` are reserved words or identifiers; "Desconocido" exactly for `<`, `>`, `!` and for runs like `12ab` that start with a digit and are not all digits |
| `Lexer.ReservedBeatsIdentifier` | tabla_de_tokens.py:24-37 | reserved words such as `Int` and `Real` match the identifier pattern yet are classified "Palabra reservada" |
| `Lexer.AnalyzeFile` | tabla_de_tokens.py:16-43 | the nested loops over numbered lines and their matches return exactly `Tokenize(lines)` |
| `Lexer.TokenizeCount` | tabla_de_tokens.py:19-23 | the number of triples is the sum of the per-line match counts |
| `Lexer.TokenizeShape` | tabla_de_tokens.py:19-41 | every triple's line is between 1 and the number of lines, its lexeme was scanned from that line, and its category is `Classify` of the lexeme |
| `Lexer.TokenizeOrdered` | tabla_de_tokens.py:19-41 | line numbers never decrease along the result |
| `Lexer.TokenizePrefix` | tabla_de_tokens.py:19-41 | the triples of the first `n` lines are a prefix of the triples of the file |
| `Lexer.LineBlock` | tabla_de_tokens.py:19-41 | the triples of line `n` form one block, right after those of the earlier lines, in the order of the line's matches |
| `Lexer.ScanFloatExample` | tabla_de_tokens.py:21 | `3.14` is one token |
| `Lexer.ScanTrailingDotExample` | tabla_de_tokens.py:21 | `3.` yields the token `3`, and the dot is dropped |
| `Lexer.ScanWordRunExample` | tabla_de_tokens.py:21 | `12ab` is one token |
| `Numerals.ParseShowNat` | tabla_de_simbolos.py:30 | the digit-string parse standing for `int(token)` reads back the decimal digits of any number |
| `Numerals.DecimalParts` | tabla_de_simbolos.py:30 | the value stored for the float lexeme `a.b` is `a + b / 10^len(b)`, exactly |
| `SymbolTable.Insert` | tabla_de_simbolos.py:9-24 | the helper adds the lexeme to the keys and leaves every other entry as it was |
| `SymbolTable.InsertConsistent` | tabla_de_simbolos.py:9-24 | the helper keeps the table invariant: distinct ids below the counter, counter = 500 + number of entries, repetitions = number of lines |
| `SymbolTable.BuildConsistent` | tabla_de_simbolos.py:26-33 | the whole pass keeps that invariant |
| `SymbolTable.SymbolTableBuilder.constructor` | tabla_de_simbolos.py:5-6 | the table starts empty and the counter at 500 |
| `SymbolTable.SymbolTableBuilder.Add` | tabla_de_simbolos.py:9-24 | the in-place helper changes the table and the counter exactly as `Insert` does, keeps the invariant, and never removes a key |
| `SymbolTable.GenerateSymbolTable` | tabla_de_simbolos.py:4-35 | the loop over the triples returns exactly the table of the pure fold `Build`, which satisfies the invariant |
| `SymbolTable.StepChangesIff` | tabla_de_simbolos.py:26-33 | a token changes the state exactly when it is an integer, a float or an identifier whose lexeme is not in the builder's reserved set |
| `SymbolTable.BuildFirstSeen` | tabla_de_simbolos.py:11-19 | the keys are the distinct qualifying lexemes, and the one seen k-th (counting from 0, literals included) has id 500 + k |
| `SymbolTable.BuildIdsContiguous` | tabla_de_simbolos.py:6-19 | the ids in the final table are exactly 500 .. 500 + n - 1 for n entries, pairwise distinct |
| `SymbolTable.BuildLines` | tabla_de_simbolos.py:15-22 | an entry's lines are the lines of the qualifying tokens with its lexeme, in token order, and its repetitions are their number |
| `SymbolTable.BuildKeys` | tabla_de_simbolos.py:26-33 | a lexeme has an entry exactly when some qualifying token carries it |
| `SymbolTable.StepKeeps` | tabla_de_simbolos.py:20-24 | a step never removes an entry and never changes the tag or id of an existing one |
| `SymbolTable.BuildStable` | tabla_de_simbolos.py:9-24 | however the pass continues, keys only grow, and tag and id of an entry never change |
| `SymbolTable.FixedAtFirstSight` | tabla_de_simbolos.py:11-24 | an entry's tag comes from the category of the token that first brings its lexeme, and its id is the counter's value at that moment |
| `SymbolTable.LiteralValues` | tabla_de_simbolos.py:29-31 | "Entero" entries have an integer lexeme and hold its value, "Real" entries have a float lexeme and hold its exact decimal value |
| `SymbolTable.UniformLexeme` | tabla_de_simbolos.py:17-33 | when all tokens of a lexeme share one category, its entry is tagged after it, and an identifier's value stays 0 |
| `SymbolTable.BuildLinesSorted` | tabla_de_simbolos.py:16-22 | an entry's lines never decrease when the triples come in line order |
| `SymbolTable.LiteralsTakeIdsExample` | tabla_de_simbolos.py:6-33 | with `x`, `5`, `Int`, `x`: `x` gets id 500 with lines [1, 2], the literal `5` gets 501 with value 5, `Int` is skipped, and the counter ends at 502 |
| `Pipeline.TokenizeFeedsBuilder` | tabla_de_tokens.py:32-41 | the lexer's triples have numeral lexemes wherever the builder converts one, and come in line order |
| `Pipeline.EntryOfLexedFile` | tabla_de_simbolos.py:26-33 | on the lexer's output every key is a numeral or identifier outside both reserved sets (so `Real` never enters, though the builder's set lacks it), tagged after its category; identifiers hold 0 and literals their value; lines lie in 1 .. number of lines and never decrease |

## Left out

- File reading (`open`, `enumerate(f, start=1)`): the file is given as its sequence of lines. A trailing newline of a line is an ordinary skipped character.
- The module-level demonstration code of both files, the import of the lexer by the builder's script, and the pandas table rendering: display only.
- `float(token)`: binary floating point is not modelled. A "Real" entry holds the exact decimal value of its lexeme, as a mantissa and a number of decimal places.
- Unicode `\w` and `\d`: only ASCII letters, digits and `_` are word characters.
- The anchored patterns' `$` also matches before a final newline; lexemes never contain a newline, so this is not modelled.
- SymbolTable.GenerateSymbolTable: requires every non-reserved literal triple to have a numeral lexeme of its kind (`Convertible`). On other lexemes Python's `int()`/`float()` raise or accept forms such as signs and underscores; that is not modelled. The lexer only produces such triples (`Pipeline.TokenizeFeedsBuilder`). Nor does the model capture that `int(token)` raises `ValueError` on a digit string longer than the interpreter's `int_max_str_digits` limit (4300 digits by default since Python 3.11), which aborts the whole pass: `ParseNat` reads a digit string of any length and `GenerateSymbolTable` always returns a table.
- Dictionary insertion order: the table is a map. First-occurrence order is stated through `FirstSeen` and the ids.
- The parser, type checker, IR generator and the semantic diagnostics (undeclared use, type mismatch, unassigned variables) are not part of this model; their code is not among the modelled files.
