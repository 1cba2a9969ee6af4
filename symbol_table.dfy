/** The symbol-table builder of tabla_de_simbolos.py (`generar_tabla_simbolos`).

    One pass over the lexer's triples fills a table keyed by lexeme. A token whose lexeme
    is in the builder's reserved set is skipped; an integer or float literal and an
    identifier create or extend an entry through the nested helper
    `agregar_a_tabla_simbolos`; every other token is ignored. A new entry takes its id
    from a counter that starts at 500 and is consumed by literal entries as well as by
    identifier entries. */
module SymbolTable {
  import opened Wrappers
  import opened Lexer
  import opened Numerals

  /** The builder's own reserved set. It differs from the lexer's: "Real" is missing,
      and lower-case and alternative keywords are added. */
  const BuilderReservedWords: set<string> :=
    {"Iniciar", "Int", "Leer", "Mostrar", "Finalizar", "real", "entero", "Inicio", "Fin", "Escribir"}

  /** The first value of the id counter. */
  const FirstId: int := 500

  /** The "Tipo" tag of an entry. */
  datatype TypeTag = Real | Entero | Identificador

  /** The "Valor" of an entry: `int(token)`, the exact value of a float lexeme, or the
      default 0. */
  datatype Value = IntValue(n: int) | RealValue(d: Decimal)

  /** One row: "Tipo", "Id_Token", "Repeticiones", "Lineas" and "Valor". */
  datatype Entry = Entry(tag: TypeTag, id: int, repetitions: nat, lines: seq<nat>, value: Value)

  /** The table with the id counter the nested helper advances. */
  datatype State = State(table: map<string, Entry>, nextId: int)

  const Initial: State := State(map[], FirstId)

  // ---------------------------------------------------------------------------
  // One step of the pass

  /** `agregar_a_tabla_simbolos`: a lexeme seen for the first time gets an entry with the
      counter's id, one repetition, its line and the value passed (0 when none is); a
      known lexeme gets one more repetition and line, and the value when one is passed. */
  function Insert(st: State, lexeme: string, tag: TypeTag, line: nat, value: Option<Value>): (r: State)
    ensures r.table.Keys == st.table.Keys + {lexeme}
    ensures forall x :: x in st.table && x != lexeme ==> r.table[x] == st.table[x]
  {
    if lexeme !in st.table then
      State(st.table[lexeme := Entry(tag, st.nextId, 1, [line], value.GetOr(IntValue(0)))], st.nextId + 1)
    else
      var e := st.table[lexeme];
      State(st.table[lexeme := e.(repetitions := e.repetitions + 1, lines := e.lines + [line],
                                  value := value.GetOr(e.value))], st.nextId)
  }

  /** The tokens that reach the helper. */
  predicate Qualifies(t: Token) {
    t.lexeme !in BuilderReservedWords &&
    (t.category == IntegerLiteral || t.category == FloatLiteral || t.category == Identifier)
  }

  /** What `int(token)` and `float(token)` need of a literal the builder converts: its
      lexeme is a numeral of the kind its category names. The lexer only produces such
      tokens. */
  predicate Convertible(t: Token) {
    t.lexeme !in BuilderReservedWords ==>
      (t.category == IntegerLiteral ==> IsIntegerLexeme(t.lexeme)) &&
      (t.category == FloatLiteral ==> IsFloatLexeme(t.lexeme))
  }

  predicate AllConvertible(ts: seq<Token>) {
    forall i :: 0 <= i < |ts| ==> Convertible(ts[i])
  }

  /** The tag a qualifying token's category gives a new entry. */
  function TagOf(c: Category): (tag: TypeTag) {
    if c == FloatLiteral then Real else if c == IntegerLiteral then Entero else Identificador
  }

  /** The value the loop passes for a literal token. */
  function LiteralValue(t: Token): (v: Value)
    requires t.category == IntegerLiteral || t.category == FloatLiteral
    requires Convertible(t) && t.lexeme !in BuilderReservedWords
  {
    if t.category == FloatLiteral then RealValue(ParseDecimal(t.lexeme)) else IntValue(ParseNat(t.lexeme))
  }

  /** One iteration of the loop over the tokens (tabla_de_simbolos.py:26-33). */
  function Step(st: State, t: Token): (r: State)
    requires Convertible(t)
  {
    if t.lexeme in BuilderReservedWords then st
    else if t.category == IntegerLiteral || t.category == FloatLiteral then
      Insert(st, t.lexeme, TagOf(t.category), t.line, Some(LiteralValue(t)))
    else if t.category == Identifier then
      Insert(st, t.lexeme, Identificador, t.line, None)
    else st
  }

  /** The state after the pass over `ts`: the pure fold of `Step`. */
  function Build(ts: seq<Token>): (st: State)
    requires AllConvertible(ts)
    decreases |ts|
  {
    if ts == [] then Initial else Step(Build(ts[..|ts| - 1]), ts[|ts| - 1])
  }

  // ---------------------------------------------------------------------------
  // The invariant of the table

  /** Ids are distinct and below the counter, the counter is 500 plus the number of
      entries, and every entry has as many repetitions as recorded lines, at least one. */
  predicate Consistent(st: State) {
    && st.nextId == FirstId + |st.table|
    && (forall x :: x in st.table ==>
          FirstId <= st.table[x].id < st.nextId &&
          st.table[x].repetitions == |st.table[x].lines| >= 1)
    && (forall x, y :: x in st.table && y in st.table && x != y ==> st.table[x].id != st.table[y].id)
  }

  /** The helper keeps the invariant of the table. */
  lemma InsertConsistent(st: State, lexeme: string, tag: TypeTag, line: nat, value: Option<Value>)
    requires Consistent(st)
    ensures Consistent(Insert(st, lexeme, tag, line, value))
  {
    if lexeme !in st.table {
      InsertNewConsistent(st, lexeme, tag, line, value);
    } else {
      InsertKnownConsistent(st, lexeme, tag, line, value);
    }
  }

  /** `InsertConsistent` for a lexeme seen for the first time. */
  lemma InsertNewConsistent(st: State, lexeme: string, tag: TypeTag, line: nat, value: Option<Value>)
    requires Consistent(st) && lexeme !in st.table
    ensures Consistent(Insert(st, lexeme, tag, line, value))
  {
    var r := Insert(st, lexeme, tag, line, value);
    assert |r.table| == |st.table| + 1;
    assert r.table[lexeme].id == st.nextId;
    forall x, y | x in r.table && y in r.table && x != y
      ensures r.table[x].id != r.table[y].id
    {
      if x != lexeme && y != lexeme {
        assert r.table[x] == st.table[x] && r.table[y] == st.table[y];
      }
    }
  }

  /** `InsertConsistent` for a lexeme already in the table. */
  lemma InsertKnownConsistent(st: State, lexeme: string, tag: TypeTag, line: nat, value: Option<Value>)
    requires Consistent(st) && lexeme in st.table
    ensures Consistent(Insert(st, lexeme, tag, line, value))
  {
    var r := Insert(st, lexeme, tag, line, value);
    assert r.table.Keys == st.table.Keys;
    assert r.nextId == st.nextId;
    assert r.table[lexeme].id == st.table[lexeme].id;
    forall x, y | x in r.table && y in r.table && x != y
      ensures r.table[x].id != r.table[y].id
    {
      assert r.table[x].id == st.table[x].id && r.table[y].id == st.table[y].id;
    }
  }

  /** The pass keeps the invariant. */
  lemma {:induction false} BuildConsistent(ts: seq<Token>)
    requires AllConvertible(ts)
    ensures Consistent(Build(ts))
    decreases |ts|
  {
    if ts != [] {
      var t := ts[|ts| - 1];
      BuildConsistent(ts[..|ts| - 1]);
      var st := Build(ts[..|ts| - 1]);
      if t.lexeme !in BuilderReservedWords {
        if t.category == IntegerLiteral || t.category == FloatLiteral {
          InsertConsistent(st, t.lexeme, TagOf(t.category), t.line, Some(LiteralValue(t)));
        } else if t.category == Identifier {
          InsertConsistent(st, t.lexeme, Identificador, t.line, None);
        }
      }
    }
  }

  // ---------------------------------------------------------------------------
  // The builder object and the loop (tabla_de_simbolos.py:4-35)

  /** The dictionary `tabla_simbolos` with the counter `id_contador` it shares with the
      nested helper. */
  class SymbolTableBuilder {
    var table: map<string, Entry>
    var nextId: int

    /** The table and the counter as a value. */
    function Snapshot(): State
      reads this
    {
      State(table, nextId)
    }

    /** The object holds a consistent table. */
    predicate Valid()
      reads this
    {
      Consistent(Snapshot())
    }

    constructor ()
      ensures Valid() && Snapshot() == Initial
    {
      table := map[];
      nextId := FirstId;
    }

    /** `agregar_a_tabla_simbolos`, changing the table and the counter in place. */
    method Add(lexeme: string, tag: TypeTag, line: nat, value: Option<Value>)
      requires Valid()
      modifies this
      ensures Valid()
      ensures Snapshot() == Insert(old(Snapshot()), lexeme, tag, line, value)
      ensures old(table).Keys <= table.Keys && lexeme in table
    {
      ghost var before := Snapshot();
      ghost var after := Insert(before, lexeme, tag, line, value);
      if lexeme !in table {
        table := table[lexeme := Entry(tag, nextId, 1, [line], value.GetOr(IntValue(0)))];
        nextId := nextId + 1;
      } else {
        var e := table[lexeme];
        e := e.(repetitions := e.repetitions + 1);
        e := e.(lines := e.lines + [line]);
        if value.Some? {
          e := e.(value := value.value);
        }
        assert e == after.table[lexeme];
        table := table[lexeme := e];
      }
      assert Snapshot() == after;
      assert Valid() by {
        InsertConsistent(before, lexeme, tag, line, value);
      }
    }
  }

  /** `generar_tabla_simbolos`: one loop over the triples, skipping the builder's
      reserved words, passing literals with their converted value and identifiers with
      none. */
  method GenerateSymbolTable(tokens: seq<Token>) returns (table: map<string, Entry>)
    requires AllConvertible(tokens)
    ensures table == Build(tokens).table
    ensures Consistent(Build(tokens))
  {
    var builder := new SymbolTableBuilder();
    for i := 0 to |tokens|
      invariant builder.Valid()
      invariant builder.Snapshot() == Build(tokens[..i])
    {
      var token := tokens[i];
      assert tokens[..i + 1][..i] == tokens[..i];
      if token.lexeme in BuilderReservedWords {
        continue;
      }
      if token.category == IntegerLiteral || token.category == FloatLiteral {
        var value := if token.category == FloatLiteral then RealValue(ParseDecimal(token.lexeme))
                     else IntValue(ParseNat(token.lexeme));
        builder.Add(token.lexeme, if token.category == FloatLiteral then Real else Entero, token.line, Some(value));
      } else if token.category == Identifier {
        builder.Add(token.lexeme, Identificador, token.line, None);
      }
    }
    assert tokens[..|tokens|] == tokens;
    table := builder.table;
    BuildConsistent(tokens);
  }

  // ---------------------------------------------------------------------------
  // Reference definitions

  /** The lexemes of the qualifying tokens, each once, in the order of first sight. */
  function FirstSeen(ts: seq<Token>): (order: seq<string>)
    decreases |ts|
  {
    if ts == [] then []
    else
      var p := FirstSeen(ts[..|ts| - 1]);
      var t := ts[|ts| - 1];
      if Qualifies(t) && t.lexeme !in p then p + [t.lexeme] else p
  }

  /** The lines of the qualifying tokens with lexeme `x`, in token order. */
  function LinesOf(ts: seq<Token>, x: string): (ls: seq<nat>)
    decreases |ts|
  {
    if ts == [] then []
    else
      var t := ts[|ts| - 1];
      LinesOf(ts[..|ts| - 1], x) + (if Qualifies(t) && t.lexeme == x then [t.line] else [])
  }

  predicate Distinct(s: seq<string>) {
    forall i, j :: 0 <= i < j < |s| ==> s[i] != s[j]
  }

  // ---------------------------------------------------------------------------
  // What the pass promises

  /** Exactly the qualifying tokens touch the table: any other token leaves the state as
      it was, and a qualifying one always changes it. */
  lemma StepChangesIff(st: State, t: Token)
    requires Convertible(t)
    ensures Step(st, t) != st <==> Qualifies(t)
  {
    if Qualifies(t) {
      var r := Step(st, t);
      if t.lexeme in st.table {
        assert r.table[t.lexeme].repetitions == st.table[t.lexeme].repetitions + 1;
      } else {
        assert t.lexeme in r.table;
      }
    }
  }

  /** Ids follow first sight: the i-th distinct qualifying lexeme has id 500 + i, literals
      included, and the counter ends at 500 plus the number of distinct lexemes. */
  lemma {:induction false} BuildFirstSeen(ts: seq<Token>)
    requires AllConvertible(ts)
    ensures Distinct(FirstSeen(ts))
    ensures forall x :: x in Build(ts).table <==> x in FirstSeen(ts)
    ensures Build(ts).nextId == FirstId + |FirstSeen(ts)|
    ensures forall k :: 0 <= k < |FirstSeen(ts)| ==> Build(ts).table[FirstSeen(ts)[k]].id == FirstId + k
    decreases |ts|
  {
    if ts != [] {
      var p := ts[..|ts| - 1];
      var t := ts[|ts| - 1];
      BuildFirstSeen(p);
      var st := Build(p);
      var fs := FirstSeen(p);
      if Qualifies(t) && t.lexeme !in fs {
        assert t.lexeme !in st.table;
        assert FirstSeen(ts) == fs + [t.lexeme];
        assert Build(ts).table == st.table[t.lexeme := Build(ts).table[t.lexeme]];
      } else if Qualifies(t) {
        assert t.lexeme in st.table;
        assert FirstSeen(ts) == fs;
      } else {
        assert Build(ts) == st;
      }
    }
  }

  /** The set of ids in use. */
  function Ids(st: State): (ids: set<int>) {
    set x | x in st.table :: st.table[x].id
  }

  /** The integers from `lo` up to, not including, `hi`. */
  function IdRange(lo: int, hi: int): (r: set<int>)
    ensures forall n :: n in r <==> lo <= n < hi
    decreases hi - lo
  {
    if hi <= lo then {} else IdRange(lo, hi - 1) + {hi - 1}
  }

  /** The ids in the final table are exactly 500, 501, ..., one per entry, distinct. */
  lemma BuildIdsContiguous(ts: seq<Token>)
    requires AllConvertible(ts)
    ensures Build(ts).nextId == FirstId + |Build(ts).table|
    ensures Ids(Build(ts)) == IdRange(FirstId, Build(ts).nextId)
    ensures forall x, y | x in Build(ts).table && y in Build(ts).table ::
      Build(ts).table[x].id == Build(ts).table[y].id ==> x == y
  {
    BuildConsistent(ts);
    BuildFirstSeen(ts);
    var st := Build(ts);
    var fs := FirstSeen(ts);
    forall n | n in IdRange(FirstId, st.nextId) ensures n in Ids(st) {
      var x := fs[n - FirstId];
      assert x in st.table && st.table[x].id == n;
    }
  }

  /** An entry's lines are the lines of the qualifying tokens with its lexeme, in token
      order, and its repetitions are their number; a lexeme has an entry exactly when
      some qualifying token carries it. */
  lemma {:induction false} BuildLines(ts: seq<Token>, x: string)
    requires AllConvertible(ts)
    ensures x in Build(ts).table <==> LinesOf(ts, x) != []
    ensures x in Build(ts).table ==>
      Build(ts).table[x].lines == LinesOf(ts, x) && Build(ts).table[x].repetitions == |LinesOf(ts, x)|
    decreases |ts|
  {
    if ts != [] {
      var p, t := ts[..|ts| - 1], ts[|ts| - 1];
      BuildLines(p, x);
      BuildConsistent(p);
      StepLines(Build(p), t, x);
    }
  }

  /** What one step does to the entry of `x`: a qualifying token with lexeme `x` adds its
      line and one repetition (creating the entry if needed); any other token leaves the
      entry as it was. */
  lemma StepLines(st: State, t: Token, x: string)
    requires Convertible(t) && Consistent(st)
    ensures x in Step(st, t).table <==> x in st.table || (Qualifies(t) && t.lexeme == x)
    ensures x in Step(st, t).table ==>
      var oldLines := if x in st.table then st.table[x].lines else [];
      var added := if Qualifies(t) && t.lexeme == x then [t.line] else [];
      Step(st, t).table[x].lines == oldLines + added &&
      Step(st, t).table[x].repetitions == |oldLines| + |added|
  {
    if !Qualifies(t) {
      assert Step(st, t) == st;
    } else if t.category == Identifier {
      InsertLines(st, t.lexeme, Identificador, t.line, None, x);
    } else {
      InsertLines(st, t.lexeme, TagOf(t.category), t.line, Some(LiteralValue(t)), x);
    }
  }

  /** What the helper does to the lines and repetitions of the entry of `x`. */
  lemma InsertLines(st: State, lexeme: string, tag: TypeTag, line: nat, value: Option<Value>, x: string)
    requires Consistent(st)
    ensures x in Insert(st, lexeme, tag, line, value).table <==> x in st.table || x == lexeme
    ensures x in Insert(st, lexeme, tag, line, value).table ==>
      var oldLines := if x in st.table then st.table[x].lines else [];
      var added := if x == lexeme then [line] else [];
      Insert(st, lexeme, tag, line, value).table[x].lines == oldLines + added &&
      Insert(st, lexeme, tag, line, value).table[x].repetitions == |oldLines| + |added|
  {
    var r := Insert(st, lexeme, tag, line, value);
    if x != lexeme && x in st.table {
      assert r.table[x] == st.table[x];
    }
  }

  /** A lexeme has an entry exactly when a qualifying token carries it. */
  lemma {:induction false} LinesOfNonEmpty(ts: seq<Token>, x: string)
    ensures LinesOf(ts, x) != [] <==> exists j :: 0 <= j < |ts| && Qualifies(ts[j]) && ts[j].lexeme == x
    decreases |ts|
  {
    if ts != [] {
      var p := ts[..|ts| - 1];
      LinesOfNonEmpty(p, x);
      if exists j :: 0 <= j < |p| && Qualifies(p[j]) && p[j].lexeme == x {
        var j :| 0 <= j < |p| && Qualifies(p[j]) && p[j].lexeme == x;
        assert ts[j] == p[j];
      }
      if exists j :: 0 <= j < |ts| && Qualifies(ts[j]) && ts[j].lexeme == x {
        var j :| 0 <= j < |ts| && Qualifies(ts[j]) && ts[j].lexeme == x;
        if j < |p| { assert p[j] == ts[j]; }
      }
    }
  }

  /** The keys of the table are exactly the lexemes of qualifying tokens. */
  lemma BuildKeys(ts: seq<Token>, x: string)
    requires AllConvertible(ts)
    ensures x in Build(ts).table <==> exists j :: 0 <= j < |ts| && Qualifies(ts[j]) && ts[j].lexeme == x
  {
    BuildLines(ts, x);
    LinesOfNonEmpty(ts, x);
  }

  /** A step never removes an entry, nor changes the tag or id of one it finds. */
  lemma StepKeeps(st: State, t: Token)
    requires Convertible(t)
    ensures st.table.Keys <= Step(st, t).table.Keys
    ensures forall x :: x in st.table ==>
      Step(st, t).table[x].tag == st.table[x].tag && Step(st, t).table[x].id == st.table[x].id
  {
    forall x | x in st.table
      ensures x in Step(st, t).table
      ensures Step(st, t).table[x].tag == st.table[x].tag && Step(st, t).table[x].id == st.table[x].id
    {
      StepKeepsAt(st, t, x);
    }
  }

  /** `StepKeeps` for one entry. */
  lemma StepKeepsAt(st: State, t: Token, x: string)
    requires Convertible(t) && x in st.table
    ensures x in Step(st, t).table
    ensures Step(st, t).table[x].tag == st.table[x].tag && Step(st, t).table[x].id == st.table[x].id
  {
  }

  /** Entries are never deleted, and "Tipo" and "Id_Token" never change once set, however
      the pass continues. */
  lemma {:induction false} BuildStable(ts: seq<Token>, more: seq<Token>)
    requires AllConvertible(ts + more)
    ensures AllConvertible(ts)
    ensures Build(ts).table.Keys <= Build(ts + more).table.Keys
    ensures forall x :: x in Build(ts).table ==>
      Build(ts + more).table[x].tag == Build(ts).table[x].tag &&
      Build(ts + more).table[x].id == Build(ts).table[x].id
    decreases |more|
  {
    assert forall i :: 0 <= i < |ts| ==> (ts + more)[i] == ts[i];
    if more == [] {
      assert ts + more == ts;
    } else {
      var m := more[..|more| - 1];
      var t := more[|more| - 1];
      assert (ts + more)[..|ts + more| - 1] == ts + m;
      assert (ts + more)[|ts + more| - 1] == t;
      assert forall i :: 0 <= i < |ts + m| ==> (ts + m)[i] == (ts + more)[i];
      BuildStable(ts, m);
      StepKeeps(Build(ts + m), t);
    }
  }

  /** A lexeme that no qualifying token carries has no lines. */
  lemma {:induction false} LinesOfNone(ts: seq<Token>, x: string)
    requires forall j :: 0 <= j < |ts| ==> !(Qualifies(ts[j]) && ts[j].lexeme == x)
    ensures LinesOf(ts, x) == []
    decreases |ts|
  {
    if ts != [] {
      LinesOfNone(ts[..|ts| - 1], x);
    }
  }

  /** The entry of a lexeme takes its tag from the category of the token that first
      brings it, and its id from the counter at that moment. */
  lemma FixedAtFirstSight(ts: seq<Token>, i: nat)
    requires AllConvertible(ts)
    requires i < |ts| && Qualifies(ts[i])
    requires forall j :: 0 <= j < i ==> !(Qualifies(ts[j]) && ts[j].lexeme == ts[i].lexeme)
    ensures AllConvertible(ts[..i])
    ensures ts[i].lexeme in Build(ts).table
    ensures Build(ts).table[ts[i].lexeme].tag == TagOf(ts[i].category)
    ensures Build(ts).table[ts[i].lexeme].id == Build(ts[..i]).nextId
  {
    FirstSightFrom(ts, i, |ts|);
    assert ts[..|ts|] == ts;
  }

  /** `FixedAtFirstSight` for the first `n` tokens, by induction on `n`. */
  lemma {:induction false} FirstSightFrom(ts: seq<Token>, i: nat, n: nat)
    requires AllConvertible(ts)
    requires i < n <= |ts| && Qualifies(ts[i])
    requires forall j :: 0 <= j < i ==> !(Qualifies(ts[j]) && ts[j].lexeme == ts[i].lexeme)
    ensures AllConvertible(ts[..i]) && AllConvertible(ts[..n])
    ensures ts[i].lexeme in Build(ts[..n]).table
    ensures Build(ts[..n]).table[ts[i].lexeme].tag == TagOf(ts[i].category)
    ensures Build(ts[..n]).table[ts[i].lexeme].id == Build(ts[..i]).nextId
    decreases n
  {
    if n == i + 1 {
      FirstSightPrefix(ts, i);
    } else {
      FirstSightFrom(ts, i, n - 1);
      PrefixStep(ts, n - 1);
      StepKeepsAt(Build(ts[..n - 1]), ts[n - 1], ts[i].lexeme);
    }
  }

  /** The state after `n + 1` tokens is one step on from the state after `n`. */
  lemma PrefixStep(ts: seq<Token>, n: nat)
    requires AllConvertible(ts) && n < |ts|
    ensures AllConvertible(ts[..n]) && AllConvertible(ts[..n + 1])
    ensures Build(ts[..n + 1]) == Step(Build(ts[..n]), ts[n])
  {
    assert forall j :: 0 <= j < n + 1 ==> ts[..n + 1][j] == ts[j];
    assert ts[..n + 1][..n] == ts[..n];
  }

  /** The token that first brings a lexeme creates its entry with its tag and the current counter. */
  lemma FirstSightPrefix(ts: seq<Token>, i: nat)
    requires AllConvertible(ts)
    requires i < |ts| && Qualifies(ts[i])
    requires forall j :: 0 <= j < i ==> !(Qualifies(ts[j]) && ts[j].lexeme == ts[i].lexeme)
    ensures AllConvertible(ts[..i]) && AllConvertible(ts[..i + 1])
    ensures ts[i].lexeme in Build(ts[..i + 1]).table
    ensures Build(ts[..i + 1]).table[ts[i].lexeme].tag == TagOf(ts[i].category)
    ensures Build(ts[..i + 1]).table[ts[i].lexeme].id == Build(ts[..i]).nextId
  {
    var x := ts[i].lexeme;
    var pre, cur := ts[..i], ts[..i + 1];
    assert forall j :: 0 <= j < i ==> pre[j] == ts[j];
    assert forall j :: 0 <= j <= i ==> cur[j] == ts[j];
    assert cur[..|cur| - 1] == pre && cur[|cur| - 1] == ts[i];
    LinesOfNone(pre, x);
    BuildLines(pre, x);
    FirstSightStep(Build(pre), ts[i]);
  }

  /** The step that first brings a lexeme creates its entry. */
  lemma FirstSightStep(st: State, t: Token)
    requires Convertible(t) && Qualifies(t) && t.lexeme !in st.table
    ensures t.lexeme in Step(st, t).table
    ensures Step(st, t).table[t.lexeme].tag == TagOf(t.category)
    ensures Step(st, t).table[t.lexeme].id == st.nextId
  {
  }

  /** Literal entries are tagged "Entero" or "Real" after the kind of their lexeme, and
      their value is the lexeme's numeric value. */
  lemma {:induction false} LiteralValues(ts: seq<Token>)
    requires AllConvertible(ts)
    ensures forall x :: x in Build(ts).table && Build(ts).table[x].tag == Entero ==>
      IsIntegerLexeme(x) && Build(ts).table[x].value == IntValue(ParseNat(x))
    ensures forall x :: x in Build(ts).table && Build(ts).table[x].tag == Real ==>
      IsFloatLexeme(x) && Build(ts).table[x].value == RealValue(ParseDecimal(x))
    decreases |ts|
  {
    if ts != [] {
      LiteralValues(ts[..|ts| - 1]);
      StepLiterals(Build(ts[..|ts| - 1]), ts[|ts| - 1]);
    }
  }

  /** "Entero" entries hold the value of their integer lexeme and "Real" entries that of
      their float lexeme. */
  predicate LiteralsHold(st: State) {
    && (forall x :: x in st.table && st.table[x].tag == Entero ==>
          IsIntegerLexeme(x) && st.table[x].value == IntValue(ParseNat(x)))
    && (forall x :: x in st.table && st.table[x].tag == Real ==>
          IsFloatLexeme(x) && st.table[x].value == RealValue(ParseDecimal(x)))
  }

  /** A step keeps `LiteralsHold`. */
  lemma StepLiterals(st: State, t: Token)
    requires Convertible(t) && LiteralsHold(st)
    ensures LiteralsHold(Step(st, t))
  {
    if IsFloatLexeme(t.lexeme) {
      FloatLexemeShape(t.lexeme);
    }
  }

  /** When every token carrying a lexeme has the same category, its entry is tagged after
      that category; for identifiers, whose tokens pass no value, "Valor" stays 0. */
  lemma {:induction false} UniformLexeme(ts: seq<Token>, x: string, c: Category)
    requires AllConvertible(ts)
    requires forall j :: 0 <= j < |ts| && ts[j].lexeme == x ==> ts[j].category == c
    ensures x in Build(ts).table ==> Build(ts).table[x].tag == TagOf(c)
    ensures x in Build(ts).table && c == Identifier ==> Build(ts).table[x].value == IntValue(0)
    decreases |ts|
  {
    if ts != [] {
      UniformLexeme(ts[..|ts| - 1], x, c);
    }
  }

  /** Every recorded line lies within the bounds of the token lines. */
  lemma {:induction false} LinesOfBounded(ts: seq<Token>, x: string, lo: nat, hi: nat)
    requires forall j :: 0 <= j < |ts| ==> lo <= ts[j].line <= hi
    ensures forall k :: 0 <= k < |LinesOf(ts, x)| ==> lo <= LinesOf(ts, x)[k] <= hi
    decreases |ts|
  {
    if ts != [] {
      LinesOfBounded(ts[..|ts| - 1], x, lo, hi);
    }
  }

  /** "Lineas" keeps token order, so it never decreases when the token lines do not. */
  lemma {:induction false} LinesOfSorted(ts: seq<Token>, x: string)
    requires LinesNonDecreasing(ts)
    ensures forall i, j :: 0 <= i <= j < |LinesOf(ts, x)| ==> LinesOf(ts, x)[i] <= LinesOf(ts, x)[j]
    decreases |ts|
  {
    if ts != [] {
      var p := ts[..|ts| - 1];
      var t := ts[|ts| - 1];
      LinesOfSorted(p, x);
      LinesOfBounded(p, x, 0, t.line);
    }
  }

  /** Entry lines never decrease when the triples come in line order. */
  lemma BuildLinesSorted(ts: seq<Token>, x: string)
    requires AllConvertible(ts) && LinesNonDecreasing(ts)
    requires x in Build(ts).table
    ensures forall i, j :: 0 <= i <= j < |Build(ts).table[x].lines| ==>
      Build(ts).table[x].lines[i] <= Build(ts).table[x].lines[j]
  {
    BuildLines(ts, x);
    LinesOfSorted(ts, x);
  }

  // ---------------------------------------------------------------------------
  // Example

  /** A literal takes an id from the same counter as identifiers: `x` gets 500, `5` gets
      501; the reserved `Int` is skipped; the second `x` only adds a repetition and a
      line. */
  lemma LiteralsTakeIdsExample()
    ensures var ts := [Token("x", Identifier, 1), Token("5", IntegerLiteral, 1),
                       Token("Int", ReservedWord, 2), Token("x", Identifier, 2)];
      && AllConvertible(ts)
      && Build(ts).table.Keys == {"x", "5"}
      && Build(ts).table["x"] == Entry(Identificador, 500, 2, [1, 2], IntValue(0))
      && Build(ts).table["5"] == Entry(Entero, 501, 1, [1], IntValue(5))
      && Build(ts).nextId == 502
  {
    var t1, t2, t3, t4 := Token("x", Identifier, 1), Token("5", IntegerLiteral, 1),
                          Token("Int", ReservedWord, 2), Token("x", Identifier, 2);
    var ts := [t1, t2, t3, t4];
    assert "x" !in BuilderReservedWords && "5" !in BuilderReservedWords;
    assert IsIntegerLexeme("5");
    assert AllConvertible(ts);
    assert ParseNat("5") == 5 by {
      assert "5"[..0] == [];
    }
    assert ts[..1] == [t1] && [t1][..0] == [];
    assert ts[..2] == [t1, t2] && [t1, t2][..1] == [t1];
    assert ts[..3] == [t1, t2, t3] && [t1, t2, t3][..2] == [t1, t2];
    var s1 := Build([t1]);
    assert Build([t1][..0]) == Initial;
    assert s1 == Step(Initial, t1);
    assert s1 == Insert(Initial, "x", Identificador, 1, None);
    assert s1 == State(map["x" := Entry(Identificador, 500, 1, [1], IntValue(0))], 501);
    var s2 := Build([t1, t2]);
    assert s2.nextId == 502 && s2.table["5"] == Entry(Entero, 501, 1, [1], IntValue(5));
    var s3 := Build([t1, t2, t3]);
    assert s3 == s2;
  }
}
