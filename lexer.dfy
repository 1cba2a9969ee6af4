/** The lexer of tabla_de_tokens.py (`analizar_archivo`).

    Each source line is scanned left to right as Python's `re.findall` does with the
    alternation of a float literal `\d+\.\d+`, a word run `\w+` and one character of
    the class `+ - * / = < > ! ( ) { } ; ,`: at each position a float literal is
    tried first, then a maximal run of word characters, then one punctuation character;
    a position where none of them matches is skipped. Every matched lexeme is then put in
    one category by a fixed-priority chain of tests, and the result is the list of
    `(lexeme, category, line)` triples with 1-based line numbers.

    Characters are ASCII: `\d` is `0`-`9` and `\w` is a letter, a digit or `_`. */
module Lexer {
  import opened Wrappers

  /** The categories, in the order the classifier tries them. The source names them
      "Palabra reservada", "Simbolo especial", "Operador aritmetico", "Asignacion",
      "Numero flotante", "Numero entero", "Identificador" and "Desconocido". */
  datatype Category =
    | ReservedWord
    | SpecialSymbol
    | ArithmeticOperator
    | Assignment
    | FloatLiteral
    | IntegerLiteral
    | Identifier
    | Unknown

  /** One entry of the lexer's result: the lexeme, its category and its 1-based line. */
  datatype Token = Token(lexeme: string, category: Category, line: nat)

  const ReservedWords: set<string> := {"Iniciar", "Int", "Real", "Leer", "Mostrar", "Finalizar"}
  const SpecialSymbols: set<string> := {"(", ")", "{", "}", ";", ","}
  const ArithmeticOperators: set<string> := {"+", "-", "*", "/"}
  const AssignmentSymbols: set<string> := {"="}

  /** The punctuation lexemes that no category set contains. */
  const UnclassifiedPunctuation: set<string> := {"<", ">", "!"}

  // ---------------------------------------------------------------------------
  // Character classes and the three anchored patterns of the classifier

  predicate IsDigit(c: char) { '0' <= c <= '9' }

  predicate IsLetter(c: char) { 'a' <= c <= 'z' || 'A' <= c <= 'Z' }

  /** `\w` */
  predicate IsWordChar(c: char) { IsLetter(c) || IsDigit(c) || c == '_' }

  /** The punctuation class of the scan: one of `+ - * / = < > ! ( ) { } ; ,`. */
  predicate IsPunct(c: char) {
    c == '+' || c == '-' || c == '*' || c == '/' || c == '=' || c == '<' || c == '>' ||
    c == '!' || c == '(' || c == ')' || c == '{' || c == '}' || c == ';' || c == ','
  }

  predicate AllDigits(s: string) { forall i :: 0 <= i < |s| ==> IsDigit(s[i]) }

  predicate AllWordChars(s: string) { forall i :: 0 <= i < |s| ==> IsWordChar(s[i]) }

  /** `^\d+$` */
  predicate IsIntegerLexeme(s: string) { |s| > 0 && AllDigits(s) }

  /** `^\d+\.\d+$` */
  predicate IsFloatLexeme(s: string) {
    exists k :: 0 < k < |s| - 1 && s[k] == '.' && AllDigits(s[..k]) && AllDigits(s[k + 1..])
  }

  /** `^[a-zA-Z_]\w*$` */
  predicate IsIdentifierLexeme(s: string) {
    |s| > 0 && (IsLetter(s[0]) || s[0] == '_') && AllWordChars(s)
  }

  /** The text of a `\w+` match. */
  predicate IsWordRun(s: string) { |s| > 0 && AllWordChars(s) }

  /** What the text of one match of the scanning alternation looks like. */
  predicate IsMatchText(s: string) {
    IsFloatLexeme(s) || IsWordRun(s) || (|s| == 1 && IsPunct(s[0]))
  }

  // ---------------------------------------------------------------------------
  // Classification (tabla_de_tokens.py:24-39)

  /** The if-chain: the first test that succeeds decides the category. */
  function Classify(s: string): (c: Category) {
    if s in ReservedWords then ReservedWord
    else if s in SpecialSymbols then SpecialSymbol
    else if s in ArithmeticOperators then ArithmeticOperator
    else if s in AssignmentSymbols then Assignment
    else if IsFloatLexeme(s) then FloatLiteral
    else if IsIntegerLexeme(s) then IntegerLiteral
    else if IsIdentifierLexeme(s) then Identifier
    else Unknown
  }

  // ---------------------------------------------------------------------------
  // The scan of one line (tabla_de_tokens.py:21)

  /** End of the maximal run of digits starting at `i`. */
  function DigitRunEnd(s: string, i: nat): (j: nat)
    requires i <= |s|
    ensures i <= j <= |s|
    ensures AllDigits(s[i..j])
    ensures j == |s| || !IsDigit(s[j])
    decreases |s| - i
  {
    if i < |s| && IsDigit(s[i]) then
      var j := DigitRunEnd(s, i + 1);
      assert forall k :: 1 <= k < j - i ==> s[i..j][k] == s[i + 1..j][k - 1];
      j
    else i
  }

  /** End of the maximal run of word characters starting at `i` (greedy `\w+`). */
  function WordRunEnd(s: string, i: nat): (j: nat)
    requires i <= |s|
    ensures i <= j <= |s|
    ensures AllWordChars(s[i..j])
    ensures j == |s| || !IsWordChar(s[j])
    decreases |s| - i
  {
    if i < |s| && IsWordChar(s[i]) then
      var j := WordRunEnd(s, i + 1);
      assert forall k :: 1 <= k < j - i ==> s[i..j][k] == s[i + 1..j][k - 1];
      j
    else i
  }

  /** The float alternative can match at `i`: digits, a dot, and a digit. */
  predicate FloatAt(s: string, i: nat)
    requires i <= |s|
  {
    exists j :: i < j < |s| - 1 && AllDigits(s[i..j]) && s[j] == '.' && IsDigit(s[j + 1])
  }

  /** A digit run is determined by where it starts. */
  lemma {:induction false} DigitRunEndAt(s: string, i: nat, j: nat)
    requires i <= j <= |s|
    requires AllDigits(s[i..j])
    requires j == |s| || !IsDigit(s[j])
    ensures DigitRunEnd(s, i) == j
    decreases j - i
  {
    if i < j {
      assert s[i] == s[i..j][0];
      assert forall k :: 1 <= k < j - i ==> s[i..j][k] == s[i + 1..j][k - 1];
      DigitRunEndAt(s, i + 1, j);
    }
  }

  /** The float alternative matches at `i` exactly when the maximal digit run from `i`
      is non-empty and followed by a dot and a digit. */
  lemma FloatAtGreedy(s: string, i: nat)
    requires i <= |s|
    ensures FloatAt(s, i) <==>
      var j := DigitRunEnd(s, i); i < j && j + 1 < |s| && s[j] == '.' && IsDigit(s[j + 1])
  {
    if FloatAt(s, i) {
      var j :| i < j < |s| - 1 && AllDigits(s[i..j]) && s[j] == '.' && IsDigit(s[j + 1]);
      DigitRunEndAt(s, i, j);
    }
  }

  /** End of the `\d+\.\d+` alternative at `i`, when it matches there. Backtracking the
      first `\d+` cannot help: a shorter digit run is followed by a digit, not by `.`. */
  function FloatMatchEnd(s: string, i: nat): (r: Option<nat>)
    requires i <= |s|
    ensures r.Some? <==> FloatAt(s, i)
    ensures r.Some? ==> i < r.value <= |s| && IsFloatLexeme(s[i..r.value])
    ensures r.Some? ==> r.value == |s| || !IsDigit(s[r.value])
  {
    FloatAtGreedy(s, i);
    var j := DigitRunEnd(s, i);
    if i < j && j + 1 < |s| && s[j] == '.' && IsDigit(s[j + 1]) then
      var e := DigitRunEnd(s, j + 1);
      var t := s[i..e];
      assert t[..j - i] == s[i..j];
      assert t[j - i + 1..] == s[j + 1..e];
      assert t[j - i] == '.';
      Some(e)
    else
      None
  }

  /** End of the match that starts at `i`, or `i` itself when nothing matches there. */
  function MatchEnd(s: string, i: nat): (e: nat)
    requires i < |s|
    ensures i <= e <= |s|
    ensures e == i <==> !IsWordChar(s[i]) && !IsPunct(s[i])
    ensures e > i ==> IsMatchText(s[i..e])
  {
    match FloatMatchEnd(s, i)
    case Some(e) =>
      assert IsDigit(s[i]) by { assert s[i] == s[i..e][0]; }
      e
    case None =>
      if IsWordChar(s[i]) then WordRunEnd(s, i)
      else if IsPunct(s[i]) then i + 1
      else i
  }

  /** The `[start, end)` positions of the matches `findall` finds from position `i` on:
      non-empty, inside the line, in order and not overlapping. */
  function SpansFrom(s: string, i: nat): (sp: seq<(nat, nat)>)
    requires i <= |s|
    ensures forall k :: 0 <= k < |sp| ==> i <= sp[k].0 < sp[k].1 <= |s|
    ensures forall k :: 0 <= k < |sp| ==> IsMatchText(s[sp[k].0..sp[k].1])
    ensures forall k :: 0 <= k < |sp| - 1 ==> sp[k].1 <= sp[k + 1].0
    decreases |s| - i
  {
    if i == |s| then []
    else
      var e := MatchEnd(s, i);
      if e == i then SpansFrom(s, i + 1)
      else
        var rest := SpansFrom(s, e);
        ConsSpans(s, i, e, rest);
        [(i, e)] + rest
  }

  /** A match `[i, e)` followed by matches from `e` on gives matches from `i` on. */
  lemma ConsSpans(s: string, i: nat, e: nat, rest: seq<(nat, nat)>)
    requires i < e <= |s| && IsMatchText(s[i..e])
    requires forall k :: 0 <= k < |rest| ==> e <= rest[k].0 < rest[k].1 <= |s|
    requires forall k :: 0 <= k < |rest| ==> IsMatchText(s[rest[k].0..rest[k].1])
    requires forall k :: 0 <= k < |rest| - 1 ==> rest[k].1 <= rest[k + 1].0
    ensures forall k :: 0 <= k < |rest| + 1 ==> i <= ([(i, e)] + rest)[k].0 < ([(i, e)] + rest)[k].1 <= |s|
    ensures forall k :: 0 <= k < |rest| + 1 ==>
      IsMatchText(s[([(i, e)] + rest)[k].0..([(i, e)] + rest)[k].1])
    ensures forall k :: 0 <= k < |rest| ==> ([(i, e)] + rest)[k].1 <= ([(i, e)] + rest)[k + 1].0
  {
    var sp := [(i, e)] + rest;
    assert sp[0] == (i, e);
    assert forall k :: 1 <= k < |sp| ==> sp[k] == rest[k - 1];
  }

  function Spans(s: string): (sp: seq<(nat, nat)>) { SpansFrom(s, 0) }

  /** `re.findall` of the scanning alternation on the line `s`: the text of each match. */
  function Scan(s: string): (lexemes: seq<string>) {
    var sp := Spans(s);
    seq(|sp|, k requires 0 <= k < |sp| => s[sp[k].0..sp[k].1])
  }

  /** Position `p` lies inside one of the spans. */
  predicate Covered(sp: seq<(nat, nat)>, p: nat) {
    exists k :: 0 <= k < |sp| && sp[k].0 <= p < sp[k].1
  }

  // ---------------------------------------------------------------------------
  // What the scan promises

  /** At a position where a float literal begins, the whole float is one match, even
      though the word alternative would also match its integer part. */
  lemma FloatPreferred(s: string, i: nat, j: nat)
    requires i < j < |s| - 1 && AllDigits(s[i..j]) && s[j] == '.' && IsDigit(s[j + 1])
    ensures SpansFrom(s, i) != []
    ensures SpansFrom(s, i)[0] == (i, DigitRunEnd(s, j + 1))
    ensures IsFloatLexeme(s[i..DigitRunEnd(s, j + 1)])
  {
    var e := DigitRunEnd(s, j + 1);
    DigitRunEndAt(s, i, j);
    assert FloatMatchEnd(s, i) == Some(e);
    assert MatchEnd(s, i) == e;
    assert SpansFrom(s, i) == [(i, e)] + SpansFrom(s, e);
  }

  /** Where no float begins, a word character starts a maximal `\w+` match. */
  lemma WordRunMaximal(s: string, i: nat)
    requires i < |s| && IsWordChar(s[i]) && !FloatAt(s, i)
    ensures SpansFrom(s, i) != []
    ensures SpansFrom(s, i)[0] == (i, WordRunEnd(s, i))
    ensures WordRunEnd(s, i) == |s| || !IsWordChar(s[WordRunEnd(s, i)])
  {
  }

  /** A punctuation character is a match of length one. */
  lemma PunctuationSingle(s: string, i: nat)
    requires i < |s| && IsPunct(s[i])
    ensures SpansFrom(s, i) != [] && SpansFrom(s, i)[0] == (i, i + 1)
  {
    assert !IsWordChar(s[i]);
    assert DigitRunEnd(s, i) == i;
    assert MatchEnd(s, i) == i + 1;
  }

  /** Every position from `i` on is inside a match or holds a character that none of
      the three alternatives can start with. */
  lemma {:induction false} CoveredOrSkipped(s: string, i: nat, p: nat)
    requires i <= p < |s|
    ensures Covered(SpansFrom(s, i), p) || (!IsWordChar(s[p]) && !IsPunct(s[p]))
    decreases |s| - i
  {
    var e := MatchEnd(s, i);
    if e == i {
      assert SpansFrom(s, i) == SpansFrom(s, i + 1);
      if p > i {
        CoveredOrSkipped(s, i + 1, p);
      }
    } else {
      var rest := SpansFrom(s, e);
      assert SpansFrom(s, i) == [(i, e)] + rest;
      if p >= e {
        CoveredOrSkipped(s, e, p);
        CoveredCons((i, e), rest, p);
      } else {
        CoveredHead((i, e), rest, p);
      }
    }
  }

  /** Prepending a span keeps positions covered. */
  lemma CoveredCons(x: (nat, nat), rest: seq<(nat, nat)>, p: nat)
    ensures Covered(rest, p) ==> Covered([x] + rest, p)
  {
    if Covered(rest, p) {
      var k :| 0 <= k < |rest| && rest[k].0 <= p < rest[k].1;
      assert ([x] + rest)[k + 1] == rest[k];
    }
  }

  /** A position inside the first span is covered. */
  lemma CoveredHead(x: (nat, nat), rest: seq<(nat, nat)>, p: nat)
    requires x.0 <= p < x.1
    ensures Covered([x] + rest, p)
  {
    assert ([x] + rest)[0] == x;
  }

  /** The characters the scan drops are exactly those outside every match. */
  lemma SkippedCharacters(s: string, p: nat)
    requires p < |s| && !Covered(Spans(s), p)
    ensures !IsWordChar(s[p]) && !IsPunct(s[p])
  {
    CoveredOrSkipped(s, 0, p);
  }

  /** A line yields no tokens exactly when it holds no word character and no
      punctuation character (blank lines, whitespace, stray dots). */
  lemma ScanEmptyIff(s: string)
    ensures Scan(s) == [] <==> forall p :: 0 <= p < |s| ==> !IsWordChar(s[p]) && !IsPunct(s[p])
  {
    if Scan(s) == [] {
      forall p | 0 <= p < |s| ensures !IsWordChar(s[p]) && !IsPunct(s[p]) {
        SkippedCharacters(s, p);
      }
    } else {
      var sp := Spans(s);
      var p := sp[0].0;
      assert |Scan(s)| == |sp|;
      NonEmptyMatchStartsMatchable(s[sp[0].0..sp[0].1]);
      assert s[p] == s[sp[0].0..sp[0].1][0];
    }
  }

  /** The first character of a match is a word or punctuation character. */
  lemma NonEmptyMatchStartsMatchable(t: string)
    requires IsMatchText(t)
    ensures |t| > 0 && (IsWordChar(t[0]) || IsPunct(t[0]))
  {
    if IsFloatLexeme(t) {
      var k :| 0 < k < |t| - 1 && t[k] == '.' && AllDigits(t[..k]) && AllDigits(t[k + 1..]);
      assert t[0] == t[..k][0];
    }
  }

  /** Each lexeme is a non-empty piece of the line cut at its span, lexemes follow the
      line from left to right, and a character outside `\w` and the punctuation class can
      occur in a lexeme only as the dot of a float literal (so never whitespace). */
  lemma ScanLexemes(s: string)
    ensures |Scan(s)| == |Spans(s)|
    ensures forall k :: 0 <= k < |Scan(s)| ==>
      Spans(s)[k].0 < Spans(s)[k].1 <= |s| && Scan(s)[k] == s[Spans(s)[k].0..Spans(s)[k].1]
    ensures forall k :: 0 <= k < |Scan(s)| - 1 ==> Spans(s)[k].1 <= Spans(s)[k + 1].0
    ensures forall k :: 0 <= k < |Scan(s)| ==> IsMatchText(Scan(s)[k])
    ensures forall k, c :: 0 <= k < |Scan(s)| && c in Scan(s)[k] && !IsWordChar(c) && !IsPunct(c) ==>
      c == '.' && IsFloatLexeme(Scan(s)[k])
  {
    forall k, c | 0 <= k < |Scan(s)| && c in Scan(s)[k] && !IsWordChar(c) && !IsPunct(c)
      ensures c == '.' && IsFloatLexeme(Scan(s)[k])
    {
      FloatCharacters(Scan(s)[k], c);
    }
  }

  /** Outside `\w` and punctuation, a match text can only hold the dot of a float. */
  lemma FloatCharacters(t: string, c: char)
    requires IsMatchText(t) && c in t && !IsWordChar(c) && !IsPunct(c)
    ensures c == '.' && IsFloatLexeme(t)
  {
    var i :| 0 <= i < |t| && t[i] == c;
    if IsFloatLexeme(t) {
      var k :| 0 < k < |t| - 1 && t[k] == '.' && AllDigits(t[..k]) && AllDigits(t[k + 1..]);
      assert forall m :: 0 <= m < k ==> t[..k][m] == t[m];
      assert forall m :: k < m < |t| ==> t[k + 1..][m - k - 1] == t[m];
    }
  }

  // ---------------------------------------------------------------------------
  // What the classifier does with scanned lexemes

  lemma FloatLexemeShape(t: string)
    requires IsFloatLexeme(t)
    ensures |t| >= 3 && IsDigit(t[0]) && !AllWordChars(t) && !AllDigits(t)
  {
    var k :| 0 < k < |t| - 1 && t[k] == '.' && AllDigits(t[..k]) && AllDigits(t[k + 1..]);
    assert t[0] == t[..k][0];
  }

  /** The category of every lexeme the scan can produce, and in particular when it is
      "Desconocido": for `<`, `>`, `!`, and for a word run that starts with a digit and
      is not all digits (such as `12ab`). */
  lemma ClassifyMatch(t: string)
    requires IsMatchText(t)
    ensures IsFloatLexeme(t) ==> Classify(t) == FloatLiteral
    ensures IsWordRun(t) && AllDigits(t) ==> Classify(t) == IntegerLiteral
    ensures IsWordRun(t) && !IsDigit(t[0]) ==>
      Classify(t) == if t in ReservedWords then ReservedWord else Identifier
    ensures |t| == 1 && IsPunct(t[0]) ==>
      Classify(t) in {SpecialSymbol, ArithmeticOperator, Assignment, Unknown}
    ensures Classify(t) == Unknown <==>
      t in UnclassifiedPunctuation || (IsWordRun(t) && IsDigit(t[0]) && !AllDigits(t))
  {
    if IsFloatLexeme(t) {
      FloatLexemeShape(t);
    } else if IsWordRun(t) {
      assert IsWordChar(t[0]);
    } else {
      var c := t[0];
      assert t == [c];
    }
  }

  /** The tests of the chain exclude one another except that reserved words also have
      the identifier shape, so priority only decides between those two: each category
      holds exactly the lexemes its own test accepts, identifiers minus reserved words. */
  lemma ClassifyCharacterized(s: string)
    ensures Classify(s) == ReservedWord <==> s in ReservedWords
    ensures Classify(s) == SpecialSymbol <==> s in SpecialSymbols
    ensures Classify(s) == ArithmeticOperator <==> s in ArithmeticOperators
    ensures Classify(s) == Assignment <==> s in AssignmentSymbols
    ensures Classify(s) == FloatLiteral <==> IsFloatLexeme(s)
    ensures Classify(s) == IntegerLiteral <==> IsIntegerLexeme(s)
    ensures Classify(s) == Identifier <==> IsIdentifierLexeme(s) && s !in ReservedWords
    ensures Classify(s) == Unknown <==>
      !IsFloatLexeme(s) && !IsIntegerLexeme(s) && !IsIdentifierLexeme(s) &&
      s !in SpecialSymbols && s !in ArithmeticOperators && s !in AssignmentSymbols
  {
    SymbolSetsShape(s);
    ReservedWordsShape(s);
    if IsFloatLexeme(s) {
      FloatLexemeShape(s);
    }
    if IsIntegerLexeme(s) {
      assert IsDigit(s[0]);
    }
    if IsIdentifierLexeme(s) {
      assert IsLetter(s[0]) || s[0] == '_';
    }
  }

  /** The symbol sets are disjoint and hold single punctuation characters. */
  lemma SymbolSetsShape(s: string)
    ensures s in SpecialSymbols ==> |s| == 1 && IsPunct(s[0]) && s !in ArithmeticOperators && s !in AssignmentSymbols
    ensures s in ArithmeticOperators ==> |s| == 1 && IsPunct(s[0]) && s !in AssignmentSymbols
    ensures s in AssignmentSymbols ==> |s| == 1 && IsPunct(s[0])
  {
  }

  /** Reserved words are identifiers by shape. */
  lemma ReservedWordsShape(s: string)
    ensures s in ReservedWords ==> IsIdentifierLexeme(s)
  {
  }

  /** Reserved words have the shape of identifiers, yet the priority of the chain makes
      each of them "Palabra reservada". */
  lemma ReservedBeatsIdentifier(w: string)
    requires w in ReservedWords
    ensures IsIdentifierLexeme(w) && Classify(w) == ReservedWord
  {
  }

  // ---------------------------------------------------------------------------
  // The whole file (tabla_de_tokens.py:16-43)

  /** The triples of one line, numbered `n`. */
  function LineTokens(line: string, n: nat): (ts: seq<Token>) {
    var lexemes := Scan(line);
    seq(|lexemes|, k requires 0 <= k < |lexemes| => Token(lexemes[k], Classify(lexemes[k]), n))
  }

  /** The lexer's result for a file given as its lines. */
  function Tokenize(lines: seq<string>): (ts: seq<Token>)
    decreases |lines|
  {
    if lines == [] then []
    else Tokenize(lines[..|lines| - 1]) + LineTokens(lines[|lines| - 1], |lines|)
  }

  /** The number of matches of each line, added up. */
  function TotalMatches(lines: seq<string>): (total: nat)
    decreases |lines|
  {
    if lines == [] then 0 else TotalMatches(lines[..|lines| - 1]) + |Scan(lines[|lines| - 1])|
  }

  /** `analizar_archivo`, with the opened file replaced by its lines: the outer loop runs
      over the numbered lines, the inner one over the matches of the line, and each
      classified triple is appended to the result. */
  method AnalyzeFile(lines: seq<string>) returns (result: seq<Token>)
    ensures result == Tokenize(lines)
  {
    result := [];
    var n := 0;
    while n < |lines|
      invariant 0 <= n <= |lines|
      invariant result == Tokenize(lines[..n])
    {
      var line := lines[n];
      var tokens := Scan(line);
      ghost var block := LineTokens(line, n + 1);
      ghost var before := result;
      LineTokensLength(line, n + 1);
      var k := 0;
      while k < |tokens|
        invariant 0 <= k <= |tokens| == |block|
        invariant result == before + block[..k]
      {
        var token := tokens[k];
        var category := Classify(token);
        assert block[..k + 1] == block[..k] + [Token(token, category, n + 1)] by {
          LineTokenAt(line, n + 1, k);
        }
        result := result + [Token(token, category, n + 1)];
        k := k + 1;
      }
      assert result == Tokenize(lines[..n + 1]) by {
        assert block[..k] == block;
        TokenizeSnoc(lines, n + 1);
      }
      n := n + 1;
    }
    assert lines[..|lines|] == lines;
  }

  /** A line gives one triple per match. */
  lemma LineTokensLength(line: string, n: nat)
    ensures |LineTokens(line, n)| == |Scan(line)|
  {
  }

  /** The `k`-th triple of a line is its `k`-th lexeme, classified. */
  lemma LineTokenAt(line: string, n: nat, k: nat)
    requires k < |Scan(line)|
    ensures |LineTokens(line, n)| == |Scan(line)|
    ensures LineTokens(line, n)[k] == Token(Scan(line)[k], Classify(Scan(line)[k]), n)
  {
  }

  /** The triples of one line are its lexemes with their categories and its number. */
  lemma LineTokensAt(line: string, n: nat)
    ensures |LineTokens(line, n)| == |Scan(line)|
    ensures forall k :: 0 <= k < |Scan(line)| ==>
      LineTokens(line, n)[k] == Token(Scan(line)[k], Classify(Scan(line)[k]), n)
  {
  }

  /** The triples of the first `n` lines extend those of the first `n - 1` by line `n`'s. */
  lemma TokenizeSnoc(lines: seq<string>, n: nat)
    requires 1 <= n <= |lines|
    ensures Tokenize(lines[..n]) == Tokenize(lines[..n - 1]) + LineTokens(lines[n - 1], n)
  {
    assert lines[..n][..n - 1] == lines[..n - 1];
  }

  /** The number of triples is the sum of the per-line match counts. */
  lemma {:induction false} TokenizeCount(lines: seq<string>)
    ensures |Tokenize(lines)| == TotalMatches(lines)
    decreases |lines|
  {
    if lines != [] {
      TokenizeCount(lines[..|lines| - 1]);
    }
  }

  /** The triple `t` names a line of `lines`, carries a lexeme scanned from that line and
      the category the chain gives that lexeme. */
  predicate FromLine(t: Token, lines: seq<string>) {
    1 <= t.line <= |lines| && t.lexeme in Scan(lines[t.line - 1]) && t.category == Classify(t.lexeme)
  }

  /** Line numbers never decrease along `ts`. */
  predicate LinesNonDecreasing(ts: seq<Token>) {
    forall i, j :: 0 <= i <= j < |ts| ==> ts[i].line <= ts[j].line
  }

  /** Every triple names a real line, carries a lexeme scanned from that line and the
      category the chain gives it. */
  lemma {:induction false} TokenizeShape(lines: seq<string>)
    ensures forall j :: 0 <= j < |Tokenize(lines)| ==> FromLine(Tokenize(lines)[j], lines)
    decreases |lines|
  {
    if lines != [] {
      var m := |lines|;
      var init := lines[..m - 1];
      TokenizeShape(init);
      var a, b := Tokenize(init), LineTokens(lines[m - 1], m);
      assert Tokenize(lines) == a + b;
      LineTokensAt(lines[m - 1], m);
      forall j | 0 <= j < |a| + |b| ensures FromLine((a + b)[j], lines) {
        if j < |a| {
          assert (a + b)[j] == a[j];
          FromLineExtend(a[j], init, lines);
        } else {
          var k := j - |a|;
          assert (a + b)[j] == b[k];
          assert Scan(lines[m - 1])[k] in Scan(lines[m - 1]);
        }
      }
    }
  }

  /** A triple of the first lines is still one of the whole file. */
  lemma FromLineExtend(t: Token, init: seq<string>, lines: seq<string>)
    requires init <= lines && FromLine(t, init)
    ensures FromLine(t, lines)
  {
    assert lines[t.line - 1] == init[t.line - 1];
  }

  /** Line numbers never decrease along the result. */
  lemma {:induction false} TokenizeOrdered(lines: seq<string>)
    ensures LinesNonDecreasing(Tokenize(lines))
    decreases |lines|
  {
    if lines != [] {
      var m := |lines|;
      var init := lines[..m - 1];
      TokenizeOrdered(init);
      TokenizeShape(init);
      var a, b := Tokenize(init), LineTokens(lines[m - 1], m);
      assert Tokenize(lines) == a + b;
      LineTokensAt(lines[m - 1], m);
      assert forall j :: 0 <= j < |a| ==> a[j].line <= m by {
        forall j | 0 <= j < |a| ensures a[j].line <= m {
          assert FromLine(a[j], init);
        }
      }
      ConcatOrdered(a, b, m);
    }
  }

  /** Appending triples of a later line keeps line order. */
  lemma ConcatOrdered(a: seq<Token>, b: seq<Token>, m: nat)
    requires LinesNonDecreasing(a)
    requires forall j :: 0 <= j < |a| ==> a[j].line <= m
    requires forall k :: 0 <= k < |b| ==> b[k].line == m
    ensures LinesNonDecreasing(a + b)
  {
    forall i, j | 0 <= i <= j < |a + b| ensures (a + b)[i].line <= (a + b)[j].line {
      if j < |a| {
        assert (a + b)[i] == a[i] && (a + b)[j] == a[j];
      } else if i < |a| {
        assert (a + b)[i] == a[i] && (a + b)[j] == b[j - |a|];
      } else {
        assert (a + b)[i] == b[i - |a|] && (a + b)[j] == b[j - |a|];
      }
    }
  }

  /** The triples of a prefix of the file are a prefix of the triples of the file. */
  lemma {:induction false} TokenizePrefix(lines: seq<string>, n: nat)
    requires n <= |lines|
    ensures Tokenize(lines[..n]) <= Tokenize(lines)
    decreases |lines| - n
  {
    if n < |lines| {
      var m := |lines| - 1;
      assert lines[..m][..n] == lines[..n];
      TokenizePrefix(lines[..m], n);
      assert lines[..|lines|] == lines;
    } else {
      assert lines[..n] == lines;
    }
  }

  /** The triples of line `n` form one block, right after those of the earlier lines,
      in the order of the line's matches. */
  lemma LineBlock(lines: seq<string>, n: nat)
    requires 1 <= n <= |lines|
    ensures TotalMatches(lines[..n - 1]) + |Scan(lines[n - 1])| <= |Tokenize(lines)|
    ensures Tokenize(lines)[TotalMatches(lines[..n - 1])..TotalMatches(lines[..n - 1]) + |Scan(lines[n - 1])|]
      == LineTokens(lines[n - 1], n)
  {
    TokenizePrefix(lines, n);
    TokenizeSnoc(lines, n);
    TokenizeCount(lines[..n - 1]);
    LineTokensAt(lines[n - 1], n);
    BlockOfPrefix(Tokenize(lines), Tokenize(lines[..n - 1]), LineTokens(lines[n - 1], n));
  }

  /** A prefix `a + b` of `t` puts `b` right after `a` in `t`. */
  lemma BlockOfPrefix<T>(t: seq<T>, a: seq<T>, b: seq<T>)
    requires a + b <= t
    ensures |a| + |b| <= |t| && t[|a|..|a| + |b|] == b
  {
    assert t[..|a| + |b|] == a + b;
  }

  // ---------------------------------------------------------------------------
  // Examples

  /** `3.14` is one float token. */
  lemma ScanFloatExample()
    ensures Scan("3.14") == ["3.14"]
  {
    var s := "3.14";
    assert AllDigits(s[0..1]);
    FloatPreferred(s, 0, 1);
    assert DigitRunEnd(s, 2) == 4 by { DigitRunEndAt(s, 2, 4); }
    assert SpansFrom(s, 4) == [];
    assert SpansFrom(s, 0) == [(0, 4)];
    assert s[0..4] == s;
    assert Scan(s) == [s[0..4]];
  }

  /** `3.` gives the token `3`, and the dot is dropped. */
  lemma ScanTrailingDotExample()
    ensures Scan("3.") == ["3"]
  {
    var s := "3.";
    assert DigitRunEnd(s, 0) == 1 by { DigitRunEndAt(s, 0, 1); }
    assert !FloatAt(s, 0);
    assert WordRunEnd(s, 1) == 1;
    assert WordRunEnd(s, 0) == 1;
    assert MatchEnd(s, 0) == 1;
    assert !IsWordChar(s[1]) && !IsPunct(s[1]);
    assert MatchEnd(s, 1) == 1;
    assert SpansFrom(s, 2) == [];
    assert SpansFrom(s, 1) == [];
    assert SpansFrom(s, 0) == [(0, 1)];
    assert s[0..1] == "3";
    assert Scan(s) == [s[0..1]];
  }

  /** `12ab` is one word run. */
  lemma ScanWordRunExample()
    ensures Scan("12ab") == ["12ab"]
  {
    var s := "12ab";
    assert DigitRunEnd(s, 0) == 2 by { DigitRunEndAt(s, 0, 2); }
    assert !FloatAt(s, 0);
    assert WordRunEnd(s, 4) == 4;
    assert WordRunEnd(s, 3) == 4;
    assert WordRunEnd(s, 2) == 4;
    assert WordRunEnd(s, 1) == 4;
    assert WordRunEnd(s, 0) == 4;
    assert MatchEnd(s, 0) == 4;
    assert SpansFrom(s, 4) == [];
    assert SpansFrom(s, 0) == [(0, 4)];
    assert s[0..4] == s;
    assert Scan(s) == [s[0..4]];
  }
}
