/** What the symbol-table builder makes of the lexer's output: the two stages composed
    as tabla_de_simbolos.py feeds `analizar_archivo`'s result to `generar_tabla_simbolos`. */
module Pipeline {
  import opened Lexer
  import opened Numerals
  import opened SymbolTable

  /** The lexer's triples satisfy what the builder's conversions need, and come in
      line order. */
  lemma TokenizeFeedsBuilder(lines: seq<string>)
    ensures AllConvertible(Tokenize(lines))
    ensures LinesNonDecreasing(Tokenize(lines))
  {
    TokenizeShape(lines);
    TokenizeOrdered(lines);
    var ts := Tokenize(lines);
    forall j | 0 <= j < |ts| ensures Convertible(ts[j]) {
      assert FromLine(ts[j], lines);
      ClassifiedConvertible(ts[j]);
    }
  }

  /** A triple whose category is the chain's verdict on its lexeme is one the builder can
      convert. */
  lemma ClassifiedConvertible(t: Token)
    requires t.category == Classify(t.lexeme)
    ensures Convertible(t)
  {
  }

  /** Every entry built from a file's tokens belongs to a numeral or an identifier that
      neither reserved set contains (so neither "Int" nor "Real" ever gets one); it is
      tagged after the lexeme's category, an identifier holds 0 and a literal its
      numeric value; and its lines are line numbers of the file, never decreasing. */
  lemma EntryOfLexedFile(lines: seq<string>, x: string)
    ensures AllConvertible(Tokenize(lines))
    ensures x in Build(Tokenize(lines)).table ==>
      && Classify(x) in {IntegerLiteral, FloatLiteral, Identifier}
      && x !in ReservedWords && x !in BuilderReservedWords
      && Build(Tokenize(lines)).table[x].tag == TagOf(Classify(x))
      && (Classify(x) == Identifier ==> Build(Tokenize(lines)).table[x].value == IntValue(0))
      && (Classify(x) == IntegerLiteral ==> Build(Tokenize(lines)).table[x].value == IntValue(ParseNat(x)))
      && (Classify(x) == FloatLiteral ==> Build(Tokenize(lines)).table[x].value == RealValue(ParseDecimal(x)))
    ensures x in Build(Tokenize(lines)).table ==>
      forall i, j :: 0 <= i <= j < |Build(Tokenize(lines)).table[x].lines| ==>
        1 <= Build(Tokenize(lines)).table[x].lines[i] <= Build(Tokenize(lines)).table[x].lines[j] <= |lines|
  {
    TokenizeFeedsBuilder(lines);
    if x in Build(Tokenize(lines)).table {
      LexedEntryKind(lines, x);
      LexedEntryLines(lines, x);
    }
  }

  /** The category, tag and value part of `EntryOfLexedFile`. */
  lemma LexedEntryKind(lines: seq<string>, x: string)
    requires AllConvertible(Tokenize(lines)) && x in Build(Tokenize(lines)).table
    ensures Classify(x) in {IntegerLiteral, FloatLiteral, Identifier}
    ensures x !in ReservedWords && x !in BuilderReservedWords
    ensures Build(Tokenize(lines)).table[x].tag == TagOf(Classify(x))
    ensures Classify(x) == Identifier ==> Build(Tokenize(lines)).table[x].value == IntValue(0)
    ensures Classify(x) == IntegerLiteral ==> Build(Tokenize(lines)).table[x].value == IntValue(ParseNat(x))
    ensures Classify(x) == FloatLiteral ==> Build(Tokenize(lines)).table[x].value == RealValue(ParseDecimal(x))
  {
    var ts := Tokenize(lines);
    TokenizeShape(lines);
    BuildKeys(ts, x);
    var j :| 0 <= j < |ts| && Qualifies(ts[j]) && ts[j].lexeme == x;
    var c := Classify(x);
    assert FromLine(ts[j], lines);
    forall k | 0 <= k < |ts| && ts[k].lexeme == x ensures ts[k].category == c {
      assert FromLine(ts[k], lines);
    }
    UniformLexeme(ts, x, c);
    LiteralValues(ts);
    ClassifyCharacterized(x);
  }

  /** The lines part of `EntryOfLexedFile`. */
  lemma LexedEntryLines(lines: seq<string>, x: string)
    requires AllConvertible(Tokenize(lines)) && x in Build(Tokenize(lines)).table
    ensures forall i, j :: 0 <= i <= j < |Build(Tokenize(lines)).table[x].lines| ==>
      1 <= Build(Tokenize(lines)).table[x].lines[i] <= Build(Tokenize(lines)).table[x].lines[j] <= |lines|
  {
    var ts := Tokenize(lines);
    TokenizeShape(lines);
    TokenizeOrdered(lines);
    forall k | 0 <= k < |ts| ensures 1 <= ts[k].line <= |lines| {
      assert FromLine(ts[k], lines);
    }
    BuildLines(ts, x);
    LinesOfSorted(ts, x);
    LinesOfBounded(ts, x, 1, |lines|);
  }
}
