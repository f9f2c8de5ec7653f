/** The database connection as the core sees it: a log of the clauses the query
    builder emits and the oracles it consults (value escaping, column lookup,
    the generated id, the rows a query returns); and the pure value and key
    formatting the query builder applies before emitting a clause. */
module Sql {
  import opened Values
  import opened Str
  import opened Collections

  /** What the query builder hands to the underlying builder. */
  datatype Clause =
    | Where(condition: string)               // where("key op value")
    | WhereKey(key: string, value: Value)     // where(key, value), as update uses it
    | Limit(count: int, offset: Option<int>)
    | Offset(count: int)
    | Join(table: string, condition: string, kind: string)
    | Select(columns: seq<string>)
    | GroupBy(field: string)
    | OrderBy(fields: string, direction: string)
    | Insert(data: map<string, Value>)
    | Update(data: map<string, Value>)

  /** A query handed to the database: the table and the clauses so far. */
  datatype Query = Query(table: string, clauses: seq<Clause>)

  /** insertID(): false, or the generated id. */
  datatype InsertId = NoInsertId | InsertedId(id: Value)

  /** The connection's behaviour, supplied by the environment. */
  datatype Connection = Connection(
    escape: string -> string,
    fieldExists: (string, string) -> bool,   // (field, table)
    insertId: InsertId,
    rows: Query -> seq<Row>)

  /** implode(',', ...) over the string forms of values. */
  function CommaJoin(parts: seq<Value>): string {
    if parts == [] then ""
    else if |parts| == 1 then StringForm(parts[0])
    else StringForm(parts[0]) + "," + CommaJoin(parts[1..])
  }

  /** processValue: strings are escaped while escaping is on (before the
      numeric test, so numeric strings are escaped too); other numbers and
      null pass through; an array becomes its processed elements, comma
      separated, in parentheses. */
  function ProcessValue(v: Value, escapeOn: bool, escape: string -> string): (r: Value)
    ensures v.VStr? && escapeOn ==> r == VStr(escape(v.s))
    ensures v.VStr? && !escapeOn ==> r == v
    ensures v.VInt? || v.VNull? ==> r == v
    ensures v.VList? ==> r.VStr? && |r.s| >= 2 && r.s[0] == '(' && r.s[|r.s| - 1] == ')'
  {
    match v
    case VStr(s) => if escapeOn then VStr(escape(s)) else v
    case VInt(_) => v
    case VNull => v
    case VList(xs) =>
      var each := seq(|xs|, i requires 0 <= i < |xs| => ProcessValue(xs[i], escapeOn, escape));
      VStr("(" + CommaJoin(each) + ")")
  }

  /** The condition text `key op value` a where call emits. */
  function Condition(key: string, op: string, v: Value, escapeOn: bool, escape: string -> string): string {
    key + " " + op + " " + StringForm(ProcessValue(v, escapeOn, escape))
  }

  /** A list of integers becomes their decimal forms, comma separated, in
      parentheses; in particular `[0]` becomes `(0)`. */
  lemma IntListText(escapeOn: bool, escape: string -> string)
    ensures ProcessValue(VList([VInt(0)]), escapeOn, escape) == VStr("(0)")
    ensures ProcessValue(VList([]), escapeOn, escape) == VStr("()")
  {
    assert IntToString(0) == "0";
  }

  /** processKey: `table.field` splits at the dots into the second piece as
      the field and the first as the table; a name without a dot is a field
      with no table. */
  function ProcessKey(column: string): (r: (string, Option<string>))
    ensures '.' !in r.0
    ensures r.1.Some? ==> '.' !in r.1.value
    ensures r.1.None? <==> '.' !in column
  {
    var parts := Split(column, '.');
    SplitSingle(column, '.');
    if |parts| > 1 then (parts[1], Some(parts[0]))
    else (parts[0], None)
  }

  /** A qualified `t.f` is split into field f and table t; a plain name is
      kept whole. */
  lemma ProcessKeyQualified(t: string, f: string)
    requires '.' !in t && '.' !in f
    ensures ProcessKey(t + "." + f) == (f, Some(t))
    ensures ProcessKey(f) == (f, None)
  {
    SplitAppend(t, f, '.');
    SplitNoSeparator(t, '.');
    SplitNoSeparator(f, '.');
    assert t + "." + f == t + ['.'] + f;
  }
}
