/** The query builder: a handle on one table that accumulates clauses in
    order, formats each where-condition as `key op value`, selects the
    soft-delete filter, inserts and updates through the model's primary key,
    and records the eager-load request. */
module Queries {
  import opened Values
  import opened Collections
  import opened Sql
  import opened Records

  /** What join accepts as its table: a name, or a model whose table is
      used. */
  datatype JoinTarget = TableName(name: string) | ModelTable(cls: ModelClass)

  function JoinTable(t: JoinTarget): string {
    match t
    case TableName(n) => n
    case ModelTable(c) => TableOf(c)
  }

  /** with: a request key is numeric when it is an integer or a numeric
      string. */
  predicate NumericKey(k: Key) {
    k.IntKey? || IsNumericString(k.s)
  }

  /** The key with() files an entry under: a string value under a numeric
      key is filed under itself, every other entry under its own key. */
  function WithKey(e: (Key, Entry)): Key {
    if NumericKey(e.0) && e.1.Literal? && e.1.v.VStr? then StrKey(e.1.v.s) else e.0
  }

  /** The eager-load map with() builds, entry by entry. */
  function Normalised(request: seq<(Key, Entry)>): seq<(Key, Entry)> {
    if request == [] then []
    else
      var e := request[|request| - 1];
      Put(Normalised(request[..|request| - 1]), WithKey(e), e.1)
  }

  /** When no two entries are filed under the same key, with() keeps every
      entry, in order, with its value, under the key WithKey gives it. */
  lemma {:induction false} NormalisedKeepsEntries(request: seq<(Key, Entry)>)
    requires forall i, j :: 0 <= i < j < |request| ==> WithKey(request[i]) != WithKey(request[j])
    ensures |Normalised(request)| == |request|
    ensures forall i :: 0 <= i < |request| ==> Normalised(request)[i] == (WithKey(request[i]), request[i].1)
    decreases |request|
  {
    if request != [] {
      var init := request[..|request| - 1];
      var e := request[|request| - 1];
      NormalisedKeepsEntries(init);
      assert forall i :: 0 <= i < |init| ==> Normalised(init)[i].0 != WithKey(e);
      assert IndexOf(Normalised(init), WithKey(e)).None?;
    }
  }

  /** `with('posts')` files the string under its own name. */
  lemma WithNamesItself(name: string)
    ensures Normalised(Indexed([Literal(VStr(name))])) == [(StrKey(name), Literal(VStr(name)))]
  {
    var request := Indexed([Literal(VStr(name))]);
    assert request[..0] == [];
    assert NumericKey(IntKey(0));
  }

  /** An empty list given to whereIn/whereNotIn stands for `[0]`. */
  function InValues(values: Value): (r: Value)
    ensures values != VList([]) ==> r == values
    ensures values == VList([]) ==> r == VList([VInt(0)])
  {
    if values == VList([]) then VList([VInt(0)]) else values
  }

  /** The condition whereIn emits for an empty list is `key IN (0)`. */
  lemma EmptyInCondition(key: string, op: string, escapeOn: bool, escape: string -> string)
    ensures Condition(key, op, InValues(VList([])), escapeOn, escape) == key + " " + op + " (0)"
  {
    IntListText(escapeOn, escape);
  }

  /** A string compared while escaping is on is compared as its escaped form;
      a number as its decimal form, escaped or not. */
  lemma ConditionForms(key: string, op: string, s: string, n: int, escape: string -> string, escapeOn: bool)
    ensures Condition(key, op, VStr(s), true, escape) == key + " " + op + " " + escape(s)
    ensures Condition(key, op, VStr(s), false, escape) == key + " " + op + " " + s
    ensures Condition(key, op, VInt(n), escapeOn, escape) == key + " " + op + " " + IntToString(n)
  {
  }

  /** The soft-delete clause deletable adds: none when the table has no
      delete column or trashed rows are included (withTrashed wins over
      onlyTrashed), `IS NOT NULL` for only trashed rows, `IS NULL`
      otherwise. */
  function TrashedFilter(conn: Connection, c: ModelClass, withTrashed: bool, onlyTrashed: bool): (r: seq<Clause>)
    ensures !conn.fieldExists(c.deleteKey, TableOf(c)) || withTrashed ==> r == []
    ensures conn.fieldExists(c.deleteKey, TableOf(c)) && !withTrashed && onlyTrashed ==>
      r == [Clause.Where(c.deleteKey + " IS NOT NULL  ")]
    ensures conn.fieldExists(c.deleteKey, TableOf(c)) && !withTrashed && !onlyTrashed ==>
      r == [Clause.Where(c.deleteKey + " IS NULL  ")]
  {
    if !conn.fieldExists(c.deleteKey, TableOf(c)) || withTrashed then []
    else if onlyTrashed then [Clause.Where(c.deleteKey + " IS NOT NULL  ")]
    else [Clause.Where(c.deleteKey + " IS NULL  ")]
  }

  /** Query\Builder. The underlying database builder is the clause log. */
  class Builder {
    const conn: Connection
    const model: Model
    const table: string
    var clauses: seq<Clause>
    var escapeValue: bool
    var withTrashed: bool
    var onlyTrashed: bool
    var boot: seq<(Key, Entry)>

    /** Everything but the clause log. */
    function Settings(): (bool, bool, bool, seq<(Key, Entry)>)
      reads this
    {
      (escapeValue, withTrashed, onlyTrashed, boot)
    }

    /** The query as the database would receive it now. */
    function Current(): Query
      reads this
    {
      Query(table, clauses)
    }

    /** A builder on the model's table, with nothing emitted yet. */
    constructor(conn: Connection, model: Model)
      ensures this.conn == conn && this.model == model && table == TableOf(model.cls)
      ensures clauses == [] && Settings() == (true, false, false, [])
    {
      this.conn := conn;
      this.model := model;
      table := TableOf(model.cls);
      clauses := [];
      escapeValue := true;
      withTrashed := false;
      onlyTrashed := false;
      boot := [];
    }

    /** where(key, op, value): one clause `key op value`, the value processed
        under the current escaping mode. */
    method Where(key: string, op: string, v: Value)
      modifies this
      ensures clauses == old(clauses) + [Clause.Where(Condition(key, op, v, escapeValue, conn.escape))]
      ensures Settings() == old(Settings())
    {
      clauses := clauses + [Clause.Where(Condition(key, op, v, escapeValue, conn.escape))];
    }

    /** where(key, value): the operator defaults to `=`. The value arrives
        in the operator parameter, which admits a string, an integer, a
        closure or null, so a list there is a type error and nothing is
        emitted. */
    method WhereEquals(key: string, v: Value) returns (err: Option<Error>)
      modifies this
      ensures v.VList? ==> err == Some(TypeError) && clauses == old(clauses)
      ensures !v.VList? ==>
        err.None? && clauses == old(clauses) + [Clause.Where(Condition(key, "=", v, escapeValue, conn.escape))]
      ensures Settings() == old(Settings())
    {
      if v.VList? {
        return Some(TypeError);
      }
      Where(key, "=", v);
      return None;
    }

    /** where(condition): operator and value are null and print as nothing,
        leaving two trailing spaces. */
    method WhereRaw(condition: string)
      modifies this
      ensures clauses == old(clauses) + [Clause.Where(condition + "  ")]
      ensures Settings() == old(Settings())
    {
      assert Condition(condition, "", VNull, escapeValue, conn.escape) == condition + "  ";
      Where(condition, "", VNull);
    }

    /** whereIn: membership in a list (an empty one stands for `[0]`) or in
        a string. The values parameter admits a string, an array or a
        closure, so an integer or null is a type error and nothing is
        emitted. */
    method WhereIn(key: string, values: Value) returns (err: Option<Error>)
      modifies this
      ensures (values.VInt? || values.VNull?) ==> err == Some(TypeError) && clauses == old(clauses)
      ensures values == VList([]) ==> err.None? && clauses == old(clauses) + [Clause.Where(key + " IN (0)")]
      ensures (values.VStr? || values.VList?) ==>
        err.None? && clauses == old(clauses) + [Clause.Where(Condition(key, "IN", InValues(values), escapeValue, conn.escape))]
      ensures Settings() == old(Settings())
    {
      if values.VInt? || values.VNull? {
        return Some(TypeError);
      }
      EmptyInCondition(key, "IN", escapeValue, conn.escape);
      assert key + " " + "IN" + " (0)" == key + " IN (0)";
      Where(key, "IN", InValues(values));
      return None;
    }

    /** whereNotIn: as whereIn, negated. */
    method WhereNotIn(key: string, values: Value) returns (err: Option<Error>)
      modifies this
      ensures (values.VInt? || values.VNull?) ==> err == Some(TypeError) && clauses == old(clauses)
      ensures values == VList([]) ==> err.None? && clauses == old(clauses) + [Clause.Where(key + " NOT IN (0)")]
      ensures (values.VStr? || values.VList?) ==>
        err.None? && clauses == old(clauses) + [Clause.Where(Condition(key, "NOT IN", InValues(values), escapeValue, conn.escape))]
      ensures Settings() == old(Settings())
    {
      if values.VInt? || values.VNull? {
        return Some(TypeError);
      }
      EmptyInCondition(key, "NOT IN", escapeValue, conn.escape);
      assert key + " " + "NOT IN" + " (0)" == key + " NOT IN (0)";
      Where(key, "NOT IN", InValues(values));
      return None;
    }

    method WhereNull(key: string)
      modifies this
      ensures clauses == old(clauses) + [Clause.Where(key + " IS NULL  ")]
      ensures Settings() == old(Settings())
    {
      assert key + " IS NULL" + "  " == key + " IS NULL  ";
      WhereRaw(key + " IS NULL");
    }

    method WhereNotNull(key: string)
      modifies this
      ensures clauses == old(clauses) + [Clause.Where(key + " IS NOT NULL  ")]
      ensures Settings() == old(Settings())
    {
      assert key + " IS NOT NULL" + "  " == key + " IS NOT NULL  ";
      WhereRaw(key + " IS NOT NULL");
    }

    method Limit(count: int, offset: Option<int>)
      modifies this
      ensures clauses == old(clauses) + [Clause.Limit(count, offset)]
      ensures Settings() == old(Settings())
    {
      clauses := clauses + [Clause.Limit(count, offset)];
    }

    /** skip, and its alias offset. */
    method Skip(count: int)
      modifies this
      ensures clauses == old(clauses) + [Clause.Offset(count)]
      ensures Settings() == old(Settings())
    {
      clauses := clauses + [Clause.Offset(count)];
    }

    /** take: a limit with no offset. */
    method Take(count: int)
      modifies this
      ensures clauses == old(clauses) + [Clause.Limit(count, None)]
      ensures Settings() == old(Settings())
    {
      Limit(count, None);
    }

    /** select, forwarded to the database builder. */
    method Select(columns: seq<string>)
      modifies this
      ensures clauses == old(clauses) + [Clause.Select(columns)]
      ensures Settings() == old(Settings())
    {
      clauses := clauses + [Clause.Select(columns)];
    }

    /** join: with a truthy value the condition is `key op value` and the
        given type is used; without one the key is the whole condition and
        the database builder's default type applies. */
    method Join(target: JoinTarget, key: string, op: string, value: Option<string>, kind: string)
      modifies this
      ensures value.Some? && TruthyString(value.value) ==>
        clauses == old(clauses) + [Clause.Join(JoinTable(target), key + " " + op + " " + value.value, kind)]
      ensures !(value.Some? && TruthyString(value.value)) ==>
        clauses == old(clauses) + [Clause.Join(JoinTable(target), key, "")]
      ensures Settings() == old(Settings())
    {
      var t := JoinTable(target);
      if value.Some? && TruthyString(value.value) {
        clauses := clauses + [Clause.Join(t, key + " " + op + " " + value.value, kind)];
      } else {
        clauses := clauses + [Clause.Join(t, key, "")];
      }
    }

    method LeftJoin(target: JoinTarget, key: string, op: string, value: Option<string>)
      modifies this
      ensures value.Some? && TruthyString(value.value) ==>
        clauses == old(clauses) + [Clause.Join(JoinTable(target), key + " " + op + " " + value.value, "left")]
      ensures !(value.Some? && TruthyString(value.value)) ==>
        clauses == old(clauses) + [Clause.Join(JoinTable(target), key, "")]
      ensures Settings() == old(Settings())
    {
      Join(target, key, op, value, "left");
    }

    method RightJoin(target: JoinTarget, key: string, op: string, value: Option<string>)
      modifies this
      ensures value.Some? && TruthyString(value.value) ==>
        clauses == old(clauses) + [Clause.Join(JoinTable(target), key + " " + op + " " + value.value, "right")]
      ensures !(value.Some? && TruthyString(value.value)) ==>
        clauses == old(clauses) + [Clause.Join(JoinTable(target), key, "")]
      ensures Settings() == old(Settings())
    {
      Join(target, key, op, value, "right");
    }

    /** deletable: when the model's table has its delete column, hide
        trashed rows, or show only them, or (withTrashed, which wins) add
        nothing. */
    method Deletable()
      modifies this
      ensures clauses == old(clauses) + TrashedFilter(conn, model.cls, withTrashed, onlyTrashed)
      ensures Settings() == old(Settings())
    {
      var key := model.cls.deleteKey;
      if conn.fieldExists(key, TableOf(model.cls)) {
        if withTrashed {
        } else if onlyTrashed {
          WhereNotNull(key);
        } else {
          WhereNull(key);
        }
      }
    }

    method WithTrashed()
      modifies this
      ensures withTrashed && clauses == old(clauses)
      ensures Settings() == (old(escapeValue), true, old(onlyTrashed), old(boot))
    {
      withTrashed := true;
    }

    method OnlyTrashed()
      modifies this
      ensures onlyTrashed && clauses == old(clauses)
      ensures Settings() == (old(escapeValue), old(withTrashed), true, old(boot))
    {
      onlyTrashed := true;
    }

    /** The effect a closure sub-query has on this builder: escaping is off
        for every later clause. */
    method SubQuery()
      modifies this
      ensures !escapeValue && clauses == old(clauses)
      ensures Settings() == (false, old(withTrashed), old(onlyTrashed), old(boot))
    {
      escapeValue := false;
    }

    /** create: nothing to insert is an error and inserts nothing; a failed
        insert is an error; a truthy generated id becomes the model's primary
        key and the model is returned (true); otherwise false. */
    method Create(data: map<string, Value>) returns (r: Result<bool>)
      modifies this, model
      ensures data == map[] ==> r == Err(ModelError) && clauses == old(clauses)
      ensures data != map[] ==> clauses == old(clauses) + [Insert(data)]
      ensures data != map[] && conn.insertId.NoInsertId? ==> r == Err(DatabaseError)
      ensures data != map[] && conn.insertId.InsertedId? ==>
        r == Ok(Truthy(conn.insertId.id))
      ensures model.attributes ==
        if r == Ok(true) then old(model.attributes)[model.cls.primaryKey := conn.insertId.id]
        else old(model.attributes)
      ensures model.original == old(model.original) && model.relations == old(model.relations)
      ensures model.bootable == old(model.bootable) && model.stored == old(model.stored)
      ensures Settings() == old(Settings())
    {
      if |data| == 0 {
        return Err(ModelError);
      }
      clauses := clauses + [Insert(data)];
      match conn.insertId
      case NoInsertId =>
        return Err(DatabaseError);
      case InsertedId(id) =>
        if Truthy(id) {
          model.SetAttribute(model.cls.primaryKey, id);
          return Ok(true);
        }
        return Ok(false);
    }

    /** update: nothing to write is an error; otherwise the update is
        constrained to the model's current primary-key value. */
    method Update(data: map<string, Value>) returns (err: Option<Error>)
      modifies this
      ensures data == map[] ==> err == Some(ModelError) && clauses == old(clauses)
      ensures data != map[] ==> err.None?
      ensures data != map[] ==>
        clauses == old(clauses) + [WhereKey(model.cls.primaryKey, model.AttributeOrNull(model.cls.primaryKey)), Clause.Update(data)]
      ensures Settings() == old(Settings())
    {
      if |data| == 0 {
        return Some(ModelError);
      }
      var pk := model.cls.primaryKey;
      clauses := clauses + [WhereKey(pk, model.AttributeOrNull(pk)), Clause.Update(data)];
      return None;
    }

    /** with: normalises the request and makes it both this builder's and
        the model's eager-load map. */
    method With(request: seq<(Key, Entry)>)
      modifies this, model
      ensures boot == Normalised(request) && model.bootable == boot
      ensures clauses == old(clauses)
      ensures escapeValue == old(escapeValue) && withTrashed == old(withTrashed) && onlyTrashed == old(onlyTrashed)
      ensures model.attributes == old(model.attributes) && model.original == old(model.original)
      ensures model.relations == old(model.relations) && model.stored == old(model.stored)
    {
      var bootable: seq<(Key, Entry)> := [];
      var i := 0;
      while i < |request|
        invariant 0 <= i <= |request|
        invariant bootable == Normalised(request[..i])
      {
        assert request[..i + 1][..i] == request[..i];
        bootable := Put(bootable, WithKey(request[i]), request[i].1);
        i := i + 1;
      }
      assert request[..i] == request;
      boot := bootable;
      model.bootable := bootable;
    }
  }
}
