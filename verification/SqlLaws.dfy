/**
 * Which SQL actions are accepted, and how their review text is spelled, in the fields of the action and its metadata.
 */
module SqlLaws {
  import opened Characters
  import opened SqlPreview

  // ---- Names

  ghost predicate Printable(s: string) { forall c :: c in s ==> !(c as int < 0x20 || 0x7F <= c as int <= 0x9F) }

  /** A name as it may be in a database: short, in one part, without control characters. */
  lemma IdentifierExactly(s: string, max: nat)
    ensures Identifier(s, max) <==> 1 <= |s| <= max && Printable(s) && '.' !in s
  {
    assert forall i :: 0 <= i < |s| ==> s[i] in s;
  }

  /** A name for a new index: ASCII letters, digits and underscores, no digit first. */
  lemma NewIdentifierExactly(s: string, max: nat)
    ensures NewIdentifier(s, max) <==>
      && 1 <= |s| <= max && !('0' <= s[0] <= '9')
      && forall c :: c in s ==> 'a' <= c <= 'z' || 'A' <= c <= 'Z' || '0' <= c <= '9' || c == '_'
  {
    if forall c :: c in s ==> 'a' <= c <= 'z' || 'A' <= c <= 'Z' || '0' <= c <= '9' || c == '_' {
      assert forall i :: 0 <= i < |s| ==> s[i] in s;
      assert |s| > 0 ==> s[0] in s;
    }
  }

  ghost predicate Sha256(s: string) { |s| == 64 && forall c :: c in s ==> '0' <= c <= '9' || 'a' <= c <= 'f' }

  lemma DigestExactly(s: string)
    ensures IsDigest(s) <==> Sha256(s)
  {
    if Sha256(s) {
      assert forall i :: 0 <= i < |s| ==> s[i] in s;
    }
  }

  // ---- Metadata

  /** PostgreSQL names have at most 63 characters, those of SQL Server 128. */
  ghost predicate Nameable(e: Engine, s: string) {
    1 <= |s| <= (match e case Postgres => 63 case SqlServer => 128) && Printable(s) && '.' !in s
  }

  ghost predicate KnownTable(o: TableId) {
    && Nameable(o.engine, o.database) && Nameable(o.engine, o.schema) && Nameable(o.engine, o.table)
    && o.objectId != 0 && Sha256(o.scope)
  }

  ghost predicate KnownColumns(e: Engine, columns: seq<Column>) {
    && 1 <= |columns| <= 512
    && (forall c :: c in columns ==> Nameable(e, c.name) && c.columnId != 0)
    && (forall i, j :: 0 <= i < |columns| && 0 <= j < |columns| && i != j ==>
          columns[i].name != columns[j].name && columns[i].columnId != columns[j].columnId)
  }

  ghost predicate Verified(m: Metadata) {
    && KnownTable(m.relation) && m.baseTable && Sha256(m.evidence) && KnownColumns(m.relation.engine, m.columns)
    && |m.existingIndexes| <= 512 && forall s :: s in m.existingIndexes ==> Nameable(m.relation.engine, s)
  }

  lemma ColumnsExactly(m: Metadata)
    ensures KnownColumns(m.relation.engine, m.columns) <==>
      && m.columns != [] && |m.columns| <= 512
      && (forall i :: 0 <= i < |m.columns| ==>
        Identifier(m.columns[i].name, Longest(m.relation.engine)) && m.columns[i].columnId > 0)
      && (forall i, j :: 0 <= i < j < |m.columns| ==>
            m.columns[i].name != m.columns[j].name && m.columns[i].columnId != m.columns[j].columnId)
  {
    forall s: string ensures Identifier(s, Longest(m.relation.engine)) <==> Nameable(m.relation.engine, s) {
      IdentifierExactly(s, Longest(m.relation.engine));
    }
    assert forall i :: 0 <= i < |m.columns| ==> m.columns[i] in m.columns;
  }

  lemma MetadataExactly(m: Metadata)
    ensures MetadataOk(m) <==> Verified(m)
  {
    ColumnsExactly(m);
    forall s: string ensures Identifier(s, Longest(m.relation.engine)) <==> Nameable(m.relation.engine, s) {
      IdentifierExactly(s, Longest(m.relation.engine));
    }
    DigestExactly(m.relation.scope);
    DigestExactly(m.evidence);
    assert forall i :: 0 <= i < |m.existingIndexes| ==> m.existingIndexes[i] in m.existingIndexes;
  }

  // ---- Actions

  /** SQL Server does not tell the cases of index names apart. */
  ghost predicate NameTaken(m: Metadata, e: Engine, index: string) {
    || index in m.existingIndexes
    || (e == SqlServer && exists s :: s in m.existingIndexes && SameIgnoringCase(s, index))
  }

  ghost predicate IsPlain(m: Metadata, name: string) { exists c :: c in m.columns && c.name == name && c.plain }

  lemma TakenExactly(m: Metadata, e: Engine, index: string)
    ensures NameTaken(m, e, index) <==>
      exists i :: 0 <= i < |m.existingIndexes| && SameIndex(e, m.existingIndexes[i], index)
  {
    if s :| s in m.existingIndexes && (s == index || (e == SqlServer && SameIgnoringCase(s, index))) {
      var i :| 0 <= i < |m.existingIndexes| && m.existingIndexes[i] == s;
      assert SameIndex(e, m.existingIndexes[i], index);
    }
  }

  lemma PlainExactly(m: Metadata, name: string)
    ensures PlainColumn(m, name) <==> IsPlain(m, name)
  {
    if IsPlain(m, name) {
      var c :| c in m.columns && c.name == name && c.plain;
      var i :| 0 <= i < |m.columns| && m.columns[i] == c;
    }
  }

  /** The table is the one verified, on the engine the action is for; statistics need no more than that. */
  lemma StatisticsExactly(a: Action, m: Metadata)
    requires a.PostgresAnalyze? || a.SqlServerUpdateStatistics?
    ensures Accepted(a, m) <==>
      Verified(m) && a.relation == m.relation && (a.relation.engine == Postgres <==> a.PostgresAnalyze?)
  {
    MetadataExactly(m);
  }

  /** An index needs a free, plain name and one to four different plain columns as well. */
  lemma CreateExactly(a: Action, m: Metadata)
    requires a.PostgresCreateIndex? || a.SqlServerCreateIndex?
    ensures var e := if a.PostgresCreateIndex? then Postgres else SqlServer;
      Accepted(a, m) <==>
        && Verified(m) && a.relation == m.relation && a.relation.engine == e
        && NewIdentifier(a.index, if e == Postgres then 63 else 128) && !NameTaken(m, e, a.index)
        && 1 <= |a.columns| <= 4 && (forall i :: 0 <= i < |a.columns| ==> IsPlain(m, a.columns[i].name))
        && forall i, j :: 0 <= i < j < |a.columns| ==> a.columns[i].name != a.columns[j].name
  {
    MetadataExactly(m);
    TakenExactly(m, EngineOf(a), a.index);
    forall i | 0 <= i < |a.columns| ensures PlainColumn(m, a.columns[i].name) <==> IsPlain(m, a.columns[i].name) {
      PlainExactly(m, a.columns[i].name);
    }
  }

  /** Whatever the case of its letters on SQL Server, the name of an index that exists is refused. */
  lemma ExistingIndexRefused(a: Action, m: Metadata, s: string)
    requires Creates(a) && s in m.existingIndexes
    requires s == a.index || (a.SqlServerCreateIndex? && SameIgnoringCase(s, a.index))
    ensures !Accepted(a, m)
  {
    CreateExactly(a, m);
    assert NameTaken(m, EngineOf(a), a.index);
  }

  /** So is a column that is not there, or not plain: a computed one, say. */
  lemma UnplainColumnRefused(a: Action, m: Metadata, name: string)
    requires Creates(a) && exists s :: s in a.columns && s.name == name
    requires forall c :: c in m.columns && c.name == name ==> !c.plain
    ensures !Accepted(a, m)
  {
    CreateExactly(a, m);
    var s :| s in a.columns && s.name == name;
    var i :| 0 <= i < |a.columns| && a.columns[i] == s;
    assert !IsPlain(m, a.columns[i].name);
  }

  /** Once its index is there, an action is refused a second time. */
  lemma NotTwice(a: Action, m: Metadata, n: Metadata)
    requires Creates(a) && Accepted(a, m) && n == m.(existingIndexes := m.existingIndexes + [a.index])
    ensures !Accepted(a, n)
  {
    ExistingIndexRefused(a, n, a.index);
  }

  // ---- The review text

  /** A closing mark is written twice, every other character once, in order. */
  lemma {:induction false} EscapedExactly(s: string, t: string, close: char)
    ensures Escaped(s + t, close) == Escaped(s, close) + Escaped(t, close)
  {
    if s == "" {
      assert s + t == t;
    } else {
      EscapedExactly(s[1..], t, close);
      EscapedHead(s, close);
      EscapedHead(s + t, close);
      assert (s + t)[1..] == s[1..] + t;
      Regroup(EscapedOne(s[0], close), Escaped(s[1..], close), Escaped(t, close));
    }
  }

  function EscapedOne(c: char, close: char): string { if c == close then [c, c] else [c] }

  lemma EscapedHead(s: string, close: char)
    requires s != ""
    ensures Escaped(s, close) == EscapedOne(s[0], close) + Escaped(s[1..], close)
    ensures Escaped([s[0]], close) == EscapedOne(s[0], close)
  {
    assert Escaped([s[0]][1..], close) == "";
  }

  lemma Regroup(a: string, b: string, c: string)
    ensures a + (b + c) == a + b + c
  {
  }

  lemma QuotedExactly(s: string)
    ensures Quoted(Postgres, s) == "\"" + Escaped(s, '\"') + "\""
    ensures Quoted(SqlServer, s) == "[" + Escaped(s, ']') + "]"
  {
  }

  function ListedOne(e: Engine,
      c: Sorted): string { Quoted(e, c.name) + if c.direction == Asc then " ASC" else " DESC" }

  lemma ListedHead(e: Engine, columns: seq<Sorted>)
    requires columns != []
    ensures Listed(e, columns) == if |columns| == 1 then ListedOne(e, columns[0])
                                  else ListedOne(e, columns[0]) + ", " + Listed(e, columns[1..])
  {
    var q, w := Quoted(e, columns[0].name), Word(columns[0].direction);
    assert w + "" == w;
    if |columns| > 1 {
      Regroup(q, w, ", " + Listed(e, columns[1..]));
      Regroup(q + w, ", ", Listed(e, columns[1..]));
    }
  }

  /** Columns are listed in order, between commas, each with its direction. */
  lemma {:induction false} ListedMore(e: Engine, columns: seq<Sorted>, more: seq<Sorted>)
    requires columns != [] && more != []
    ensures Listed(e, [columns[0]]) == ListedOne(e, columns[0])
    ensures Listed(e, columns + more) == Listed(e, columns) + ", " + Listed(e, more)
  {
    var all := columns + more;
    ListedHead(e, [columns[0]]);
    ListedHead(e, columns);
    ListedHead(e, all);
    assert all[0] == columns[0] && all[1..] == columns[1..] + more;
    if |columns| > 1 {
      ListedMore(e, columns[1..], more);
      FourMore(ListedOne(e, columns[0]), ", ", Listed(e, columns[1..]), ", ", Listed(e, more));
    } else {
      assert all[1..] == more;
    }
  }

  lemma FourMore(a: string, b: string, c: string, d: string, x: string)
    ensures a + b + (c + d + x) == (a + b + c) + d + x
  {
  }

  /** A text made of seven pieces, however they are grouped. */
  lemma Pieces(a: string, b: string, c: string, d: string, f: string, g: string, h: string)
    ensures a + (b + (c + (d + (f + (g + h))))) == a + b + c + d + f + g + h
  {
  }

  function TableText(e: Engine, o: TableId): string { Quoted(e, o.schema) + "." + Quoted(e, o.table) }

  lemma TableTextIs(e: Engine, o: TableId)
    ensures Dotted(e, o) == TableText(e, o)
  {
    Regroup(Quoted(e, o.schema), ".", Quoted(e, o.table));
  }

  lemma StatisticsText(o: TableId)
    ensures Preview(PostgresAnalyze(o)) == "ANALYZE " + TableText(Postgres, o)
    ensures Preview(SqlServerUpdateStatistics(o)) == "UPDATE STATISTICS " + TableText(SqlServer, o)
  {
    TableTextIs(Postgres, o);
    TableTextIs(SqlServer, o);
  }

  lemma PostgresText(o: TableId, index: string, columns: seq<Sorted>)
    requires o.engine == Postgres
    ensures Preview(PostgresCreateIndex(o, index, columns)) ==
      "CREATE INDEX " + Quoted(Postgres, index) + " ON " + TableText(Postgres, o)
        + " USING btree (" + Listed(Postgres, columns) + ")"
  {
    TableTextIs(Postgres, o);
    Pieces("CREATE INDEX ", Quoted(Postgres, index), " ON ", TableText(Postgres, o), " USING btree (",
      Listed(Postgres, columns), ")");
  }

  lemma SqlServerText(o: TableId, index: string, columns: seq<Sorted>)
    requires o.engine == SqlServer
    ensures Preview(SqlServerCreateIndex(o, index, columns)) ==
      "CREATE NONCLUSTERED INDEX " + Quoted(SqlServer, index) + " ON " + TableText(SqlServer, o)
        + " (" + Listed(SqlServer, columns) + ")"
  {
    TableTextIs(SqlServer, o);
    Pieces("CREATE NONCLUSTERED INDEX ", Quoted(SqlServer, index), " ON ", TableText(SqlServer, o), " (",
      Listed(SqlServer, columns), ")");
  }
}
