/** Reviewed SQL actions: which are accepted, and the text an operator reviews, which can be read back. */
module SqlPreview {
  import opened Characters

  datatype Engine = Postgres | SqlServer

  datatype TableId = TableId(engine: Engine, database: string, schema: string, table: string, objectId: nat,
    scope: string)

  datatype Column = Column(name: string, columnId: nat, plain: bool)

  datatype Metadata = Metadata(
    relation: TableId, columns: seq<Column>, existingIndexes: seq<string>, baseTable: bool, evidence: string)

  datatype Direction = Asc | Desc

  datatype Sorted = Sorted(name: string, direction: Direction)

  datatype Action =
    | PostgresCreateIndex(relation: TableId, index: string, columns: seq<Sorted>)
    | PostgresAnalyze(relation: TableId)
    | SqlServerCreateIndex(relation: TableId, index: string, columns: seq<Sorted>)
    | SqlServerUpdateStatistics(relation: TableId)

  predicate Creates(a: Action) { a.PostgresCreateIndex? || a.SqlServerCreateIndex? }

  function EngineOf(a: Action): Engine {
    if a.PostgresCreateIndex? || a.PostgresAnalyze? then Postgres else SqlServer
  }

  // ---- What is accepted

  function Longest(e: Engine): nat { if e.Postgres? then 63 else 128 }

  predicate Identifier(s: string, max: nat) {
    s != "" && |s| <= max && NoControls(s) && '.' !in s
  }

  predicate IsLetter(c: char) { 'a' <= c <= 'z' || 'A' <= c <= 'Z' || c == '_' }

  predicate NewIdentifier(s: string, max: nat) {
    Identifier(s, max) && IsLetter(s[0]) && forall i :: 0 <= i < |s| ==> IsLetter(s[i]) || '0' <= s[i] <= '9'
  }

  predicate IsDigest(s: string) {
    |s| == 64 && forall i :: 0 <= i < |s| ==> '0' <= s[i] <= '9' || 'a' <= s[i] <= 'f'
  }

  predicate ObjectOk(o: TableId) {
    && Identifier(o.database, Longest(o.engine)) && Identifier(o.schema, Longest(o.engine))
    && Identifier(o.table, Longest(o.engine)) && o.objectId > 0 && IsDigest(o.scope)
  }

  predicate MetadataOk(m: Metadata) {
    && ObjectOk(m.relation) && m.baseTable && m.columns != [] && |m.columns| <= 512 && |m.existingIndexes| <= 512
    && IsDigest(m.evidence)
    && (forall i :: 0 <= i < |m.columns| ==>
      Identifier(m.columns[i].name, Longest(m.relation.engine)) && m.columns[i].columnId > 0)
    && (forall i, j :: 0 <= i < j < |m.columns| ==>
          m.columns[i].name != m.columns[j].name && m.columns[i].columnId != m.columns[j].columnId)
    && (forall i :: 0 <= i < |m.existingIndexes| ==> Identifier(m.existingIndexes[i], Longest(m.relation.engine)))
  }

  predicate SameIndex(e: Engine, s: string, t: string) {
    if e.SqlServer? then SameIgnoringCase(s, t) else s == t
  }

  predicate PlainColumn(m: Metadata, name: string) {
    exists i :: 0 <= i < |m.columns| && m.columns[i].name == name && m.columns[i].plain
  }

  /** One to four different verified columns under a new, plain index name, on the object that was verified. */
  predicate Accepted(a: Action, m: Metadata) {
    && MetadataOk(m) && a.relation == m.relation && a.relation.engine == EngineOf(a)
    && (Creates(a) ==>
          && NewIdentifier(a.index, Longest(EngineOf(a)))
          && (forall i :: 0 <= i < |m.existingIndexes| ==> !SameIndex(EngineOf(a), m.existingIndexes[i], a.index))
          && 1 <= |a.columns| <= 4
          && (forall i :: 0 <= i < |a.columns| ==> PlainColumn(m, a.columns[i].name))
          && (forall i, j :: 0 <= i < j < |a.columns| ==> a.columns[i].name != a.columns[j].name))
  }

  method ValidateMetadata(m: Metadata) returns (ok: bool)
    ensures ok == MetadataOk(m)
  {
    if !ObjectOk(m.relation) || !m.baseTable || m.columns == [] || |m.columns| > 512 || |m.existingIndexes| > 512
       || !IsDigest(m.evidence) {
      return false;
    }
    var max := Longest(m.relation.engine);
    var names: set<string>, ids: set<nat> := {}, {};
    var i := 0;
    while i < |m.columns|
      invariant i <= |m.columns|
      invariant names == set k | 0 <= k < i :: m.columns[k].name
      invariant ids == set k | 0 <= k < i :: m.columns[k].columnId
      invariant forall k :: 0 <= k < i ==> Identifier(m.columns[k].name, max) && m.columns[k].columnId > 0
      invariant forall j, k :: 0 <= j < k < i ==>
        m.columns[j].name != m.columns[k].name && m.columns[j].columnId != m.columns[k].columnId
    {
      var c := m.columns[i];
      if !Identifier(c.name, max) || c.columnId == 0 || c.name in names || c.columnId in ids {
        return false;
      }
      names, ids := names + {c.name}, ids + {c.columnId};
      i := i + 1;
    }
    i := 0;
    while i < |m.existingIndexes|
      invariant i <= |m.existingIndexes|
      invariant forall k :: 0 <= k < i ==> Identifier(m.existingIndexes[k], max)
    {
      if !Identifier(m.existingIndexes[i], max) {
        return false;
      }
      i := i + 1;
    }
    return true;
  }

  method Validate(a: Action, m: Metadata) returns (ok: bool)
    ensures ok == Accepted(a, m)
  {
    ok := ValidateMetadata(m);
    if !ok || a.relation != m.relation || a.relation.engine != EngineOf(a) {
      return false;
    }
    if Creates(a) {
      if !NewIdentifier(a.index, Longest(EngineOf(a)))
         || (exists i :: 0 <= i < |m.existingIndexes| && SameIndex(EngineOf(a), m.existingIndexes[i], a.index)) {
        return false;
      }
      if !(1 <= |a.columns| <= 4) {
        return false;
      }
      var unique: set<string> := {};
      var i := 0;
      while i < |a.columns|
        invariant i <= |a.columns| && unique == set k | 0 <= k < i :: a.columns[k].name
        invariant forall k :: 0 <= k < i ==> PlainColumn(m, a.columns[k].name)
        invariant forall j, k :: 0 <= j < k < i ==> a.columns[j].name != a.columns[k].name
      {
        if !PlainColumn(m, a.columns[i].name) || a.columns[i].name in unique {
          return false;
        }
        unique := unique + {a.columns[i].name};
        i := i + 1;
      }
    }
    return true;
  }

  // ---- The review text

  function Opening(e: Engine): char { if e.Postgres? then '\"' else '[' }

  function Closing(e: Engine): char { if e.Postgres? then '\"' else ']' }

  function Escaped(s: string, close: char): string {
    if s == "" then ""
    else (if s[0] == close then [close, close] else [s[0]]) + Escaped(s[1..], close)
  }

  function Quoted(e: Engine, s: string): string { [Opening(e)] + (Escaped(s, Closing(e)) + [Closing(e)]) }

  function Word(d: Direction): string { if d.Asc? then " ASC" else " DESC" }

  function Listed(e: Engine, columns: seq<Sorted>): string {
    if columns == [] then ""
    else
      var more := if |columns| == 1 then "" else ", " + Listed(e, columns[1..]);
      Quoted(e, columns[0].name) + (Word(columns[0].direction) + more)
  }

  function Dotted(e: Engine, o: TableId): string { Quoted(e, o.schema) + ("." + Quoted(e, o.table)) }

  const CREATE := "CREATE INDEX "
  const CREATE_NONCLUSTERED := "CREATE NONCLUSTERED INDEX "
  const ANALYZE := "ANALYZE "
  const UPDATE := "UPDATE STATISTICS "
  const USING := " USING btree ("

  function Preview(a: Action): string {
    var e := a.relation.engine;
    match a
    case PostgresAnalyze(o) => ANALYZE + Dotted(Postgres, o)
    case SqlServerUpdateStatistics(o) => UPDATE + Dotted(SqlServer, o)
    case _ =>
      var create, open := if e.Postgres? then CREATE else CREATE_NONCLUSTERED, if e.Postgres? then USING else " (";
      create + (Quoted(e, a.index) + (" ON " + (Dotted(e, a.relation) + (open + (Listed(e, a.columns) + ")")))))
  }
}
