/**
 * Reading a review text back: whatever is in the names, it says which statement, table, index and columns are meant.
 */
module SqlReview {
  import opened Outcomes
  import opened SqlPreview

  datatype Statement =
    | CreateIndex(engine: Engine, index: string, schema: string, table: string, columns: seq<Sorted>)
    | Statistics(engine: Engine, schema: string, table: string)

  function PartsOf(a: Action): Statement {
    if Creates(a) then CreateIndex(EngineOf(a), a.index, a.relation.schema, a.relation.table, a.columns)
    else Statistics(EngineOf(a), a.relation.schema, a.relation.table)
  }

  // ---- The reader

  function After(s: string, word: string): Option<string> {
    if |word| <= |s| && s[..|word|] == word then Some(s[|word|..]) else None
  }

  datatype Taken = Taken(name: string, rest: string)

  /** A name up to its closing mark; a doubled mark stands for itself. */
  function TakeName(s: string, close: char): (r: Option<Taken>)
    ensures r.Some? ==> |r.value.rest| < |s|
  {
    if s == "" then None
    else if s[0] != close then
      var more := TakeName(s[1..], close);
      if more.None? then None else Some(Taken([s[0]] + more.value.name, more.value.rest))
    else if |s| > 1 && s[1] == close then
      var more := TakeName(s[2..], close);
      if more.None? then None else Some(Taken([close] + more.value.name, more.value.rest))
    else Some(Taken("", s[1..]))
  }

  function TakeQuoted(e: Engine, s: string): (r: Option<Taken>)
    ensures r.Some? ==> |r.value.rest| < |s|
  {
    if s == "" || s[0] != Opening(e) then None else TakeName(s[1..], Closing(e))
  }

  datatype TakenTable = TakenTable(schema: string, table: string, rest: string)

  function TakeTable(e: Engine, s: string): Option<TakenTable> {
    var schema := TakeQuoted(e, s);
    if schema.None? then None
    else
      var dot := After(schema.value.rest, ".");
      var table := if dot.None? then None else TakeQuoted(e, dot.value);
      if table.None? then None else Some(TakenTable(schema.value.name, table.value.name, table.value.rest))
  }

  function TakeColumn(e: Engine, s: string): (r: Option<(Sorted, string)>)
    ensures r.Some? ==> |r.value.1| < |s|
  {
    var name := TakeQuoted(e, s);
    if name.None? then None
    else
      var up, down := After(name.value.rest, " ASC"), After(name.value.rest, " DESC");
      if up.Some? then Some((Sorted(name.value.name, Asc), up.value))
      else if down.Some? then Some((Sorted(name.value.name, Desc), down.value))
      else None
  }

  /** Columns up to the closing parenthesis that ends the text. */
  function ReadColumns(e: Engine, s: string): Option<seq<Sorted>>
    decreases |s|
  {
    if s == ")" then Some([])
    else
      var column := TakeColumn(e, s);
      if column.None? then None
      else
        var next := After(column.value.1, ", ");
        var more := ReadColumns(e, if next.Some? then next.value else column.value.1);
        if more.None? then None else Some([column.value.0] + more.value)
  }

  function ReadCreate(e: Engine, s: string): Option<Statement> {
    var index := TakeQuoted(e, s);
    var on := if index.None? then None else After(index.value.rest, " ON ");
    var table := if on.None? then None else TakeTable(e, on.value);
    var list := if table.None? then None else After(table.value.rest, if e.Postgres? then USING else " (");
    var columns := if list.None? then None else ReadColumns(e, list.value);
    if columns.None? then None
    else Some(CreateIndex(e, index.value.name, table.value.schema, table.value.table, columns.value))
  }

  function ReadStatistics(e: Engine, s: string): Option<Statement> {
    var table := TakeTable(e, s);
    if table.None? || table.value.rest != "" then None
    else Some(Statistics(e, table.value.schema, table.value.table))
  }

  function Read(s: string): Option<Statement> {
    if After(s, CREATE).Some? then ReadCreate(Postgres, After(s, CREATE).value)
    else if After(s, CREATE_NONCLUSTERED).Some? then ReadCreate(SqlServer, After(s, CREATE_NONCLUSTERED).value)
    else if After(s, ANALYZE).Some? then ReadStatistics(Postgres, After(s, ANALYZE).value)
    else if After(s, UPDATE).Some? then ReadStatistics(SqlServer, After(s, UPDATE).value)
    else None
  }

  // ---- Reading back what was written

  lemma AfterWord(word: string, rest: string)
    ensures After(word + rest, word) == Some(rest)
  {
    assert (word + rest)[..|word|] == word && (word + rest)[|word|..] == rest;
  }

  lemma NotAfter(s: string, word: string, i: nat)
    requires i < |s| && i < |word| && s[i] != word[i]
    ensures After(s, word).None?
  {
    assert |word| <= |s| ==> s[..|word|][i] == s[i];
  }

  lemma {:induction false} TakeEscaped(name: string, close: char, rest: string)
    requires rest == "" || rest[0] != close
    ensures TakeName(Escaped(name, close) + ([close] + rest), close) == Some(Taken(name, rest))
  {
    if name == "" {
      assert Escaped(name, close) + ([close] + rest) == [close] + rest;
      TakeClosing(close, rest);
    } else {
      var tail := Escaped(name[1..], close) + ([close] + rest);
      TakeEscaped(name[1..], close, rest);
      TakeOne(name[0], close, tail, name[1..], rest);
      EscapedSplits(name, close, [close] + rest);
      assert name == [name[0]] + name[1..];
    }
  }

  lemma EscapedSplits(name: string, close: char, rest: string)
    requires name != ""
    ensures Escaped(name, close) + rest ==
      (if name[0] == close then [close, close] else [name[0]]) + (Escaped(name[1..], close) + rest)
  {
  }

  lemma TakeClosing(close: char, rest: string)
    requires rest == "" || rest[0] != close
    ensures TakeName([close] + rest, close) == Some(Taken("", rest))
  {
    assert ([close] + rest)[1..] == rest;
  }

  lemma TakeOne(c: char, close: char, tail: string, more: string, rest: string)
    requires TakeName(tail, close) == Some(Taken(more, rest))
    ensures TakeName((if c == close then [close, close] else [c]) + tail, close) == Some(Taken([c] + more, rest))
  {
    assert ([close, close] + tail)[2..] == tail && ([c] + tail)[1..] == tail;
  }

  lemma TakeWritten(e: Engine, name: string, rest: string)
    requires rest == "" || rest[0] != Closing(e)
    ensures TakeQuoted(e, Quoted(e, name) + rest) == Some(Taken(name, rest))
  {
    var s := Quoted(e, name) + rest;
    assert s[1..] == Escaped(name, Closing(e)) + ([Closing(e)] + rest);
    TakeEscaped(name, Closing(e), rest);
  }

  lemma TakeDotted(e: Engine, o: TableId, rest: string)
    requires rest == "" || rest[0] != Closing(e)
    ensures TakeTable(e, Dotted(e, o) + rest) == Some(TakenTable(o.schema, o.table, rest))
  {
    var tail := "." + (Quoted(e, o.table) + rest);
    assert Dotted(e, o) + rest == Quoted(e, o.schema) + tail;
    TakeWritten(e, o.schema, tail);
    AfterWord(".", Quoted(e, o.table) + rest);
    TakeWritten(e, o.table, rest);
  }

  lemma TakeListed(e: Engine, c: Sorted, rest: string)
    ensures TakeColumn(e, Quoted(e, c.name) + (Word(c.direction) + rest)) == Some((c, rest))
  {
    var tail := Word(c.direction) + rest;
    TakeWritten(e, c.name, tail);
    AfterWord(Word(c.direction), rest);
    if c.direction.Desc? {
      NotAfter(tail, " ASC", 1);
    }
  }

  lemma ReadLast(e: Engine, c: Sorted)
    ensures ReadColumns(e, Quoted(e, c.name) + (Word(c.direction) + ")")) == Some([c])
  {
    var s := Quoted(e, c.name) + (Word(c.direction) + ")");
    assert s[0] == Opening(e) && s != ")";
    TakeListed(e, c, ")");
    NotAfter(")", ", ", 0);
    assert [c] + [] == [c];
  }

  lemma ReadNext(e: Engine, c: Sorted, rest: string, more: seq<Sorted>)
    requires ReadColumns(e, rest) == Some(more)
    ensures ReadColumns(e, Quoted(e, c.name) + (Word(c.direction) + (", " + rest))) == Some([c] + more)
  {
    var s := Quoted(e, c.name) + (Word(c.direction) + (", " + rest));
    assert s[0] == Opening(e) && s != ")";
    TakeListed(e, c, ", " + rest);
    AfterWord(", ", rest);
  }

  lemma {:induction false} ReadListed(e: Engine, columns: seq<Sorted>)
    ensures ReadColumns(e, Listed(e, columns) + ")") == Some(columns)
  {
    if columns == [] {
      assert "" + ")" == ")";
    } else {
      ListedSplits(e, columns);
      var c, more := columns[0], columns[1..];
      if |columns| == 1 {
        ReadLast(e, c);
        assert columns == [c];
      } else {
        ReadListed(e, more);
        ReadNext(e, c, Listed(e, more) + ")", more);
        assert columns == [c] + more;
      }
    }
  }

  lemma ListedSplits(e: Engine, columns: seq<Sorted>)
    requires columns != []
    ensures Listed(e, columns) + ")" == Quoted(e, columns[0].name)
      + (Word(columns[0].direction) + (if |columns| == 1 then ")" else ", " + (Listed(e, columns[1..]) + ")")))
  {
    var q, w := Quoted(e, columns[0].name), Word(columns[0].direction);
    if |columns| == 1 {
      assert Listed(e, columns) == q + (w + "");
      assert (q + (w + "")) + ")" == q + (w + ")");
    } else {
      var more := Listed(e, columns[1..]);
      assert (q + (w + (", " + more))) + ")" == q + (w + (", " + (more + ")")));
    }
  }

  lemma ReadBackCreate(e: Engine, o: TableId, index: string, columns: seq<Sorted>)
    ensures ReadCreate(e, CreateText(e, o, index, columns)) == Some(CreateIndex(e, index, o.schema, o.table, columns))
  {
    var body := Listed(e, columns) + ")";
    var list := (if e.Postgres? then USING else " (") + body;
    TakeWritten(e, index, " ON " + (Dotted(e, o) + list));
    AfterWord(" ON ", Dotted(e, o) + list);
    TakeDotted(e, o, list);
    AfterWord(if e.Postgres? then USING else " (", body);
    ReadListed(e, columns);
  }

  lemma ReadBackStatistics(e: Engine, o: TableId)
    ensures ReadStatistics(e, Dotted(e, o)) == Some(Statistics(e, o.schema, o.table))
  {
    TakeDotted(e, o, "");
    assert Dotted(e, o) + "" == Dotted(e, o);
  }

  lemma ReadPrefix(rest: string)
    ensures Read(CREATE + rest) == ReadCreate(Postgres, rest)
    ensures Read(CREATE_NONCLUSTERED + rest) == ReadCreate(SqlServer, rest)
    ensures Read(ANALYZE + rest) == ReadStatistics(Postgres, rest)
    ensures Read(UPDATE + rest) == ReadStatistics(SqlServer, rest)
  {
    AfterWord(CREATE, rest);
    AfterWord(CREATE_NONCLUSTERED, rest);
    AfterWord(ANALYZE, rest);
    AfterWord(UPDATE, rest);
    NotAfter(CREATE_NONCLUSTERED + rest, CREATE, 7);
    NotAfter(ANALYZE + rest, CREATE, 0);
    NotAfter(ANALYZE + rest, CREATE_NONCLUSTERED, 0);
    NotAfter(UPDATE + rest, CREATE, 0);
    NotAfter(UPDATE + rest, CREATE_NONCLUSTERED, 0);
    NotAfter(UPDATE + rest, ANALYZE, 0);
  }

  function CreateText(e: Engine, o: TableId, index: string, columns: seq<Sorted>): string {
    Quoted(e, index) + (" ON " + (Dotted(e, o) + ((if e.Postgres? then USING else " (") + (Listed(e, columns) + ")"))))
  }

  function CreateIn(e: Engine, text: string): string { (if e.Postgres? then CREATE else CREATE_NONCLUSTERED) + text }

  lemma PreviewOfCreate(a: Action)
    requires Creates(a)
    ensures Preview(a) == CreateIn(a.relation.engine, CreateText(a.relation.engine, a.relation, a.index, a.columns))
  {
  }

  lemma ReadCreateIn(e: Engine, text: string)
    ensures Read(CreateIn(e, text)) == ReadCreate(e, text)
  {
    ReadPrefix(text);
  }

  lemma CreateSays(a: Action)
    requires Creates(a)
    ensures Read(Preview(a)) ==
      Some(CreateIndex(a.relation.engine, a.index, a.relation.schema, a.relation.table, a.columns))
  {
    var e, o := a.relation.engine, a.relation;
    var text := CreateText(e, o, a.index, a.columns);
    PreviewOfCreate(a);
    ReadCreateIn(e, text);
    ReadBackCreate(e, o, a.index, a.columns);
  }

  lemma StatisticsSay(a: Action)
    requires !Creates(a)
    ensures Read(Preview(a)) == Some(PartsOf(a))
  {
    ReadPrefix(Dotted(EngineOf(a), a.relation));
    ReadBackStatistics(EngineOf(a), a.relation);
  }

  /** What the review text says: the statement, in the dialect it was written in. */
  lemma PreviewSays(a: Action)
    ensures Read(Preview(a)) == Some(
      if Creates(a) then CreateIndex(a.relation.engine, a.index, a.relation.schema, a.relation.table, a.columns)
      else PartsOf(a))
  {
    if Creates(a) {
      CreateSays(a);
    } else {
      StatisticsSay(a);
    }
  }

  /** The text reads back as the action exactly when the index is not written in the other engine's dialect. */
  lemma PreviewReadsBack(a: Action)
    ensures Read(Preview(a)) == Some(PartsOf(a)) <==> (Creates(a) ==> a.relation.engine == EngineOf(a))
  {
    PreviewSays(a);
  }

  /**
   * Two accepted actions with the same review text are the same statement, on the same table, with the same columns.
   */
  lemma PreviewTellsApart(a: Action, m: Metadata, b: Action, n: Metadata)
    requires Accepted(a, m) && Accepted(b, n) && Preview(a) == Preview(b)
    ensures PartsOf(a) == PartsOf(b)
  {
    PreviewReadsBack(a);
    PreviewReadsBack(b);
  }

  /** Without the engine check two different kinds of action share a text. */
  lemma UncheckedEngineConfuses(o: TableId, index: string, columns: seq<Sorted>)
    ensures Preview(PostgresCreateIndex(o, index, columns)) == Preview(SqlServerCreateIndex(o, index, columns))
    ensures PartsOf(PostgresCreateIndex(o, index, columns)) != PartsOf(SqlServerCreateIndex(o, index, columns))
  {
  }
}
