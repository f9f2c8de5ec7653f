/** Reading models back: the terminal builder calls (first, get, find and
    their variants), hydration of each row into a model (newFromQuery), the
    eager-load planner that resolves every entry of the with() request on
    each hydrated model, and getAttribute's lazy relation loading.

    A loaded relation is kept as the query that produced its models and the
    nested request they are hydrated with (Records.Related); the hydration of
    one row is what NewFromQuery models. */
module Eager {
  import opened Values
  import opened Str
  import opened Collections
  import opened Sql
  import opened Records
  import opened Queries
  import opened Relations

  /** What an eager-load closure returns when called with the model: null, a
      builder (whose get() runs the given query), or any other value. */
  datatype ClosureResult =
    | GivesNull
    | GivesQuery(query: Query, nested: seq<(Key, Entry)>)
    | GivesValue(v: Value)

  /** The collaborators of reading: the relation registry, the connection,
      and the closures of eager-load requests (by identity, given the
      attributes of the model they are called with). */
  datatype Env = Env(schema: Schema, conn: Connection, closures: (int, map<string, Value>) -> ClosureResult)

  /** The per-model state hydration builds. */
  datatype State = State(attributes: map<string, Value>, relations: map<string, Related>, bootable: seq<(Key, Entry)>)

  /** A resolved eager-load entry: a plain value, or the result of a
      relation. */
  datatype Loaded = Plain(v: Value) | Models(related: Related)

  /** isNested: the name has a dot and starts with `relation.`. */
  predicate IsNested(name: string, relation: string) {
    '.' in name && |relation| + 1 <= |name| && name[..|relation| + 1] == relation + "."
  }

  /** The rest of a dotted name after its first segment. */
  function AfterFirst(name: string): string {
    var parts := Split(name, '.');
    if |parts| >= 2 then Str.Join(parts[1..], '.') else ""
  }

  /** A dotted name `head.rest` is nested under its head, which is its first
      segment, and the rest is what is passed on to with(). */
  lemma DottedName(head: string, rest: string)
    requires '.' !in head
    ensures IsNested(head + "." + rest, head)
    ensures FirstSegment(head + "." + rest, '.') == head
    ensures AfterFirst(head + "." + rest) == rest
  {
    var name := head + "." + rest;
    assert name[|head|] == '.';
    assert name[..|head| + 1] == head + ".";
    SplitPrepend(head, rest, '.');
    assert Split(name, '.')[1..] == Split(rest, '.');
    JoinSplit(rest, '.');
  }

  /** A name without a dot is never nested. */
  lemma PlainNameNotNested(name: string, relation: string)
    requires '.' !in name
    ensures !IsNested(name, relation)
  {
  }

  /** The query a relation's getResults runs, and what it yields: first()
      (no model for no row) for the single-shaped kinds, get() for the
      others; the builder is fresh, so only the default soft-delete filter
      applies. */
  function RelationResult(spec: RelationSpec, attrs: map<string, Value>, cls: ModelClass, env: Env,
                          nested: seq<(Key, Entry)>): Result<Related>
    requires !spec.PlainMethod?
  {
    match KindOf(spec, cls, attrs, env.schema)
    case Err(e) => Err(e)
    case Ok(made) =>
      var c := made.0;
      var k := made.1;
      var base := BaseConditions(k, attrs, cls, c, true, env.conn.escape) + TrashedFilter(env.conn, c, false, false);
      if ShapeOf(k) == Single then
        var q := Query(TableOf(c), base + [Clause.Limit(1, None)]);
        if env.conn.rows(q) == [] then Ok(NoModel) else Ok(OneModel(q, nested))
      else Ok(ManyModels(Query(TableOf(c), base), nested))
  }

  /** A single-shaped relation loads one row, a collection-shaped one does
      not limit its query. */
  lemma RelationShapes(spec: RelationSpec, attrs: map<string, Value>, cls: ModelClass, env: Env, nested: seq<(Key, Entry)>)
    requires !spec.PlainMethod? && KindOf(spec, cls, attrs, env.schema).Ok?
    ensures var r := RelationResult(spec, attrs, cls, env, nested);
      var k := KindOf(spec, cls, attrs, env.schema).value.1;
      r.Ok? &&
      (ShapeOf(k) == Single ==> r.value.OneModel? || r.value.NoModel?) &&
      (ShapeOf(k) == Single && r.value.OneModel? ==>
         r.value.query.clauses[|r.value.query.clauses| - 1] == Clause.Limit(1, None)) &&
      (ShapeOf(k) == Many ==> r.value.ManyModels? && r.value.nested == nested)
  {
  }

  /** getAttribute: an attribute, else a loaded relation, else the relation
      method named by the camel-cased key, whose results are loaded and kept
      (a method that does not return a relation is an error), else null. The
      second component is the relations map afterwards. */
  function AttributeLookup(key: string, attrs: map<string, Value>, relations: map<string, Related>, cls: ModelClass, env: Env)
    : (r: Result<(Loaded, map<string, Related>)>)
    ensures key in attrs ==> r == Ok((Plain(attrs[key]), relations))
    ensures key !in attrs && key in relations ==> r == Ok((Models(relations[key]), relations))
    ensures r.Ok? ==> forall k :: k in relations && k != key ==> k in r.value.1 && r.value.1[k] == relations[k]
    ensures r.Ok? ==> forall k :: k in r.value.1 ==> k in relations || k == key
    ensures r.Err? ==> key !in attrs && key !in relations && Camelize(key) in cls.methods
    ensures key !in attrs && key !in relations && Camelize(key) !in cls.methods ==> r == Ok((Plain(VNull), relations))
    ensures key !in attrs && key !in relations && Camelize(key) in cls.methods ==>
      var spec := cls.methods[Camelize(key)];
      (spec.PlainMethod? ==> r == Err(LogicError)) &&
      (!spec.PlainMethod? ==>
        var loaded := RelationResult(spec, attrs, cls, env, []);
        (loaded.Err? ==> r == Err(loaded.error)) &&
        (loaded.Ok? ==> r == Ok((Models(loaded.value), relations[key := loaded.value]))))
  {
    if key in attrs then Ok((Plain(attrs[key]), relations))
    else if key in relations then Ok((Models(relations[key]), relations))
    else
      var camel := Camelize(key);
      if camel !in cls.methods then Ok((Plain(VNull), relations))
      else match cls.methods[camel]
        case PlainMethod(_) => Err(LogicError)
        case _ =>
          match RelationResult(cls.methods[camel], attrs, cls, env, [])
          case Err(e) => Err(e)
          case Ok(rel) => Ok((Models(rel), relations[key := rel]))
  }

  /** The name invokeBootable files an entry under: the value of a string
      entry under a numeric key, the key otherwise. Any other entry under a
      numeric key ends in a type error (it reaches a string parameter or an
      array offset). */
  function BootName(key: Key, entry: Entry): (r: Result<string>)
    ensures NumericKey(key) && entry.Literal? && entry.v.VStr? ==> r == Ok(entry.v.s)
    ensures !NumericKey(key) ==> r == Ok(key.s)
    ensures NumericKey(key) && !(entry.Literal? && entry.v.VStr?) ==> r == Err(TypeError)
  {
    if NumericKey(key) then
      if entry.Literal? && entry.v.VStr? then Ok(entry.v.s) else Err(TypeError)
    else Ok(key.s)
  }

  /** A numeric request key is named by its value. */
  lemma NumericKeyNamedByValue(i: int, name: string)
    ensures BootName(IntKey(i), Literal(VStr(name))) == Ok(name)
  {
  }

  /** processBootableMethod for a string entry `with` under `name`, and
      processNestedWith: a relation method is loaded through getResults; a
      plain method gives its value; no method gives the entry itself. A
      nested name is loaded through the relation named by its first segment,
      with the rest passed to with(), and filed under that segment; without
      such a method the result is null under the whole name. */
  function ResolveMethod(name: string, with: string, attrs: map<string, Value>, cls: ModelClass, env: Env)
    : Result<(string, Loaded)>
  {
    if !IsNested(name, FirstSegment(with, '.')) then
      if name !in cls.methods then Ok((name, Plain(VStr(with))))
      else match cls.methods[name]
        case PlainMethod(v) => Ok((name, Plain(v)))
        case _ =>
          match RelationResult(cls.methods[name], attrs, cls, env, [])
          case Err(e) => Err(e)
          case Ok(rel) => Ok((name, Models(rel)))
    else
      var head := FirstSegment(name, '.');
      if head !in cls.methods then Ok((name, Plain(VNull)))
      else match cls.methods[head]
        case PlainMethod(_) => Err(TypeError)
        case _ =>
          var nested := Normalised([(IntKey(0), Literal(VStr(AfterFirst(name))))]);
          match RelationResult(cls.methods[head], attrs, cls, env, nested)
          case Err(e) => Err(e)
          case Ok(rel) => Ok((head, Models(rel)))
  }

  /** invokeBootable's resolution of one entry on a model in state s: the
      name the result is filed under, the result, and the relations map
      afterwards (getAttribute may load a relation into it). */
  function Resolve(key: Key, entry: Entry, s: State, cls: ModelClass, env: Env)
    : Result<(string, Loaded, map<string, Related>)>
  {
    match BootName(key, entry)
    case Err(e) => Err(e)
    case Ok(name) =>
      match entry
      case Callback(id) =>
        (match env.closures(id, s.attributes)
         case GivesNull =>
           (match AttributeLookup(name, s.attributes, s.relations, cls, env)
            case Err(e) => Err(e)
            case Ok(found) => Ok((name, found.0, found.1)))
         case GivesQuery(q, nested) => Ok((name, Models(ManyModels(q, nested)), s.relations))
         case GivesValue(v) => Ok((name, Plain(v), s.relations)))
      case Literal(VStr(with)) =>
        (match ResolveMethod(name, with, s.attributes, cls, env)
         case Err(e) => Err(e)
         case Ok(res) => Ok((res.0, res.1, s.relations)))
      case Literal(VList(xs)) => Ok((name, Plain(VList(xs)), s.relations))
      case Literal(_) => Err(TypeError)
  }

  /** Filing a result: a model or a collection goes to the relations; any
      other result (null included) is set as an attribute and recorded in
      the model's bootable map. */
  function Place(s: State, name: string, loaded: Loaded, relations: map<string, Related>): (r: State)
    ensures loaded.Models? && !loaded.related.NoModel? ==>
      r == State(s.attributes, relations[name := loaded.related], s.bootable)
    ensures !(loaded.Models? && !loaded.related.NoModel?) ==>
      r.relations == relations && r.attributes.Keys == s.attributes.Keys + {name} &&
      r.attributes[name] == (if loaded.Plain? then loaded.v else VNull) &&
      BootKeys(r.bootable) == BootKeys(s.bootable) + {name}
  {
    if loaded.Models? && !loaded.related.NoModel? then State(s.attributes, relations[name := loaded.related], s.bootable)
    else
      var v := if loaded.Plain? then loaded.v else VNull;
      PutKeys(s.bootable, StrKey(name), Literal(v));
      State(s.attributes[name := v], relations, Put(s.bootable, StrKey(name), Literal(v)))
  }

  /** The keys newFromQuery sets directly as attributes. */
  predicate IsPaging(key: Key) {
    key == StrKey("pagination") || key == StrKey("paginator")
  }

  /** One entry of newFromQuery's loop: a pagination entry is set as an
      attribute (a closure there is not a value this model represents); every
      other entry is resolved and filed. */
  function Step(s: State, e: (Key, Entry), cls: ModelClass, env: Env): Result<State> {
    if IsPaging(e.0) then
      match e.1
      case Literal(v) => Ok(s.(attributes := s.attributes[e.0.s := v]))
      case Callback(_) => Err(TypeError)
    else
      match Resolve(e.0, e.1, s, cls, env)
      case Err(err) => Err(err)
      case Ok(res) => Ok(Place(s, res.0, res.1, res.2))
  }

  /** newFromQuery's state after the first entries of the request. */
  function Hydrate(row: Row, boot: seq<(Key, Entry)>, cls: ModelClass, env: Env): Result<State> {
    if boot == [] then Ok(State(row, map[], []))
    else
      match Hydrate(row, boot[..|boot| - 1], cls, env)
      case Err(e) => Err(e)
      case Ok(s) => Step(s, boot[|boot| - 1], cls, env)
  }

  /** A failed entry fails the whole hydration. */
  lemma {:induction false} HydrateFailureSticks(row: Row, boot: seq<(Key, Entry)>, n: nat, cls: ModelClass, env: Env)
    requires n <= |boot| && Hydrate(row, boot[..n], cls, env).Err?
    ensures Hydrate(row, boot, cls, env) == Hydrate(row, boot[..n], cls, env)
    decreases |boot| - n
  {
    if n < |boot| {
      assert boot[..n + 1][..n] == boot[..n];
      assert Hydrate(row, boot[..n + 1], cls, env) == Hydrate(row, boot[..n], cls, env);
      HydrateFailureSticks(row, boot, n + 1, cls, env);
    } else {
      assert boot[..n] == boot;
    }
  }

  /** After hydration the model is clean except for the pagination keys:
      every attribute an entry sets is recorded in its bootable map, which
      getDirty skips. */
  lemma {:induction false} HydratedClean(row: Row, boot: seq<(Key, Entry)>, cls: ModelClass, env: Env)
    requires Hydrate(row, boot, cls, env).Ok?
    ensures var s := Hydrate(row, boot, cls, env).value;
      forall k :: k in DirtyOf(s.attributes, row, BootKeys(s.bootable)) ==> k == "pagination" || k == "paginator"
  {
    var s := Hydrate(row, boot, cls, env).value;
    if boot == [] {
      assert s.attributes == row;
    } else {
      var init := boot[..|boot| - 1];
      var e := boot[|boot| - 1];
      HydratedClean(row, init, cls, env);
      var p := Hydrate(row, init, cls, env).value;
      BootKeysGrow(p, s, e, cls, env);
      forall k | k in DirtyOf(s.attributes, row, BootKeys(s.bootable))
        ensures k == "pagination" || k == "paginator"
      {
        if k !in BootKeys(p.bootable) && k in p.attributes && k in s.attributes && s.attributes[k] == p.attributes[k] {
          assert k in DirtyOf(p.attributes, row, BootKeys(p.bootable));
        }
      }
    }
  }

  /** One step keeps the recorded keys, and every attribute it changes is a
      pagination key or is recorded. */
  lemma BootKeysGrow(p: State, s: State, e: (Key, Entry), cls: ModelClass, env: Env)
    requires Step(p, e, cls, env) == Ok(s)
    ensures BootKeys(p.bootable) <= BootKeys(s.bootable)
    ensures forall k :: k in s.attributes && !(k in p.attributes && s.attributes[k] == p.attributes[k]) ==>
      k in BootKeys(s.bootable) || k == "pagination" || k == "paginator"
    ensures forall k :: k in p.attributes ==> k in s.attributes
  {
  }

  /** Put keeps every key and adds the one it writes. */
  lemma PutKeys(es: seq<(Key, Entry)>, k: Key, v: Entry)
    ensures BootKeys(Put(es, k, v)) == BootKeys(es) + (if k.StrKey? then {k.s} else {})
  {
    var r := Put(es, k, v);
    match IndexOf(es, k) {
      case Some(n) =>
        assert forall i :: 0 <= i < |r| ==> r[i].0 == es[i].0;
        if k.StrKey? {
          assert es[n].0.s in BootKeys(es);
        }
      case None =>
        assert forall i :: 0 <= i < |es| ==> r[i] == es[i];
        if k.StrKey? {
          assert r[|es|].0.s in BootKeys(r);
        }
    }
  }

  /** The state of a model, as hydration describes it. */
  function StateOf(m: Model): State
    reads m
  {
    State(m.attributes, m.relations, m.bootable)
  }

  /** A relation's getResults: the query's soft-delete filter, one row for
      the single-shaped kinds, and the result kept as the query run and the
      request of the relation's builder. */
  method GetResults(rel: Relation) returns (r: Related)
    modifies rel.query
    ensures var q := Query(rel.query.table, rel.query.clauses);
      rel.query.clauses == old(rel.query.clauses) +
        TrashedFilter(rel.query.conn, rel.query.model.cls, old(rel.query.withTrashed), old(rel.query.onlyTrashed)) +
        (if ShapeOf(rel.kind) == Single then [Clause.Limit(1, None)] else []) &&
      r == (if ShapeOf(rel.kind) == Many then ManyModels(q, rel.query.boot)
            else if rel.query.conn.rows(q) == [] then NoModel
            else OneModel(q, rel.query.boot))
    ensures rel.query.Settings() == old(rel.query.Settings())
  {
    rel.query.Deletable();
    if ShapeOf(rel.kind) == Single {
      rel.query.Limit(1, None);
      var q := rel.query.Current();
      if rel.query.conn.rows(q) == [] {
        r := NoModel;
      } else {
        r := OneModel(q, rel.query.boot);
      }
    } else {
      r := ManyModels(rel.query.Current(), rel.query.boot);
    }
  }

  /** Calls the relation method of a model and loads its results, after
      passing `rest` to with() when it is given. */
  method LoadRelation(spec: RelationSpec, m: Model, env: Env, rest: Option<string>) returns (r: Result<Related>)
    requires !spec.PlainMethod?
    ensures r == RelationResult(spec, m.attributes, m.cls, env,
                                if rest.Some? then Normalised([(IntKey(0), Literal(VStr(rest.value)))]) else [])
  {
    ghost var nested := if rest.Some? then Normalised([(IntKey(0), Literal(VStr(rest.value)))]) else [];
    var made := Relate(spec, m, env.schema, env.conn);
    if made.Err? {
      return Err(made.error);
    }
    var rel := made.value;
    ghost var c := KindOf(spec, m.cls, m.attributes, env.schema).value.0;
    ghost var base := BaseConditions(rel.kind, m.attributes, m.cls, c, true, env.conn.escape);
    assert rel.query.clauses == base && rel.query.model.cls == c;
    if rest.Some? {
      rel.query.With([(IntKey(0), Literal(VStr(rest.value)))]);
    }
    assert rel.query.clauses == base && rel.query.boot == nested;
    assert !rel.query.withTrashed && !rel.query.onlyTrashed;
    var loaded := GetResults(rel);
    ghost var k := rel.kind;
    ghost var full := base + TrashedFilter(env.conn, c, false, false);
    assert ShapeOf(k) == Many ==> loaded == ManyModels(Query(TableOf(c), full), nested);
    assert ShapeOf(k) == Single ==> rel.query.clauses == full + [Clause.Limit(1, None)];
    return Ok(loaded);
  }

  /** getAttribute with getRelationFromMethod: reads an attribute, a loaded
      relation, or loads the relation the camel-cased key names and keeps
      it. */
  method GetAttribute(m: Model, key: string, env: Env) returns (r: Result<Loaded>)
    modifies m
    ensures var spec := AttributeLookup(key, old(m.attributes), old(m.relations), m.cls, env);
      (r.Ok? <==> spec.Ok?) && (r.Ok? ==> r.value == spec.value.0 && m.relations == spec.value.1) &&
      (r.Err? ==> r.error == spec.error && m.relations == old(m.relations))
    ensures m.attributes == old(m.attributes) && m.original == old(m.original)
    ensures m.bootable == old(m.bootable) && m.stored == old(m.stored)
  {
    if key in m.attributes {
      return Ok(Plain(m.attributes[key]));
    } else if key in m.relations {
      return Ok(Models(m.relations[key]));
    }
    var camel := Camelize(key);
    if camel !in m.cls.methods {
      return Ok(Plain(VNull));
    }
    var spec := m.cls.methods[camel];
    if spec.PlainMethod? {
      return Err(LogicError);
    }
    var loaded := LoadRelation(spec, m, env, None);
    if loaded.Err? {
      return Err(loaded.error);
    }
    m.relations := m.relations[key := loaded.value];
    return Ok(Models(loaded.value));
  }

  /** invokeBootable with processBootableMethod, processBootableClosure and
      processNestedWith: resolves one entry on the model and files the
      result. */
  method InvokeBootable(m: Model, key: Key, entry: Entry, env: Env) returns (err: Option<Error>)
    requires !IsPaging(key)
    modifies m
    ensures var spec := Step(old(StateOf(m)), (key, entry), m.cls, env);
      (err.None? <==> spec.Ok?) && (err.None? ==> StateOf(m) == spec.value) &&
      (err.Some? ==> err.value == spec.error)
    ensures m.original == old(m.original) && m.stored == old(m.stored)
  {
    ghost var s := StateOf(m);
    var name := BootName(key, entry);
    if name.Err? {
      return Some(name.error);
    }
    var loaded: Loaded;
    var target := name.value;
    match entry {
      case Callback(id) =>
        var given := env.closures(id, m.attributes);
        match given {
          case GivesNull =>
            var found := GetAttribute(m, name.value, env);
            if found.Err? {
              return Some(found.error);
            }
            loaded := found.value;
          case GivesQuery(q, nested) =>
            loaded := Models(ManyModels(q, nested));
          case GivesValue(v) =>
            loaded := Plain(v);
        }
      case Literal(v) =>
        if v.VStr? {
          var res := ResolveEntry(m, name.value, v.s, env);
          if res.Err? {
            return Some(res.error);
          }
          target, loaded := res.value.0, res.value.1;
        } else if v.VList? {
          loaded := Plain(v);
        } else {
          return Some(TypeError);
        }
    }
    assert Resolve(key, entry, s, m.cls, env) == Ok((target, loaded, m.relations));
    assert m.attributes == s.attributes && m.bootable == s.bootable;
    File(m, target, loaded);
    err := None;
  }

  /** processBootableMethod and processNestedWith for a string entry. */
  method ResolveEntry(m: Model, name: string, with: string, env: Env) returns (r: Result<(string, Loaded)>)
    ensures r == ResolveMethod(name, with, m.attributes, m.cls, env)
  {
    if !IsNested(name, FirstSegment(with, '.')) {
      if name !in m.cls.methods {
        return Ok((name, Plain(VStr(with))));
      }
      var spec := m.cls.methods[name];
      if spec.PlainMethod? {
        return Ok((name, Plain(spec.result)));
      }
      var loaded := LoadRelation(spec, m, env, None);
      if loaded.Err? {
        return Err(loaded.error);
      }
      return Ok((name, Models(loaded.value)));
    }
    var head := FirstSegment(name, '.');
    if head !in m.cls.methods {
      return Ok((name, Plain(VNull)));
    }
    var spec := m.cls.methods[head];
    if spec.PlainMethod? {
      return Err(TypeError);
    }
    var loaded := LoadRelation(spec, m, env, Some(AfterFirst(name)));
    if loaded.Err? {
      return Err(loaded.error);
    }
    return Ok((head, Models(loaded.value)));
  }

  /** The filing step of invokeBootable. */
  method File(m: Model, name: string, loaded: Loaded)
    modifies m
    ensures StateOf(m) == Place(old(StateOf(m)), name, loaded, old(m.relations))
    ensures m.original == old(m.original) && m.stored == old(m.stored)
  {
    if loaded.Models? && !loaded.related.NoModel? {
      m.relations := m.relations[name := loaded.related];
    } else {
      var v := if loaded.Plain? then loaded.v else VNull;
      m.SetAttribute(name, v);
      m.bootable := Put(m.bootable, StrKey(name), Literal(v));
    }
  }

  /** One entry of the request resolved on a model: a paging entry sets the
      attribute, any other goes through invokeBootable. */
  method ApplyEntry(m: Model, e: (Key, Entry), env: Env) returns (err: Option<Error>)
    modifies m
    ensures var spec := Step(old(StateOf(m)), e, m.cls, env);
      (err.None? <==> spec.Ok?) && (err.None? ==> StateOf(m) == spec.value) &&
      (err.Some? ==> err.value == spec.error)
    ensures m.original == old(m.original) && m.stored == old(m.stored)
  {
    if IsPaging(e.0) {
      if e.1.Callback? {
        return Some(TypeError);
      }
      m.SetAttribute(e.0.s, e.1.v);
      return None;
    }
    err := InvokeBootable(m, e.0, e.1, env);
  }

  /** newFromQuery: a fresh stored instance of the host's class holding the
      row as its attributes and snapshot, with every entry of the request
      resolved on it in order; the host keeps the request. */
  method NewFromQuery(host: Model, row: Row, boot: seq<(Key, Entry)>, env: Env) returns (r: Result<Model>)
    modifies host
    ensures host.bootable == boot
    ensures host.attributes == old(host.attributes) && host.original == old(host.original)
    ensures host.relations == old(host.relations) && host.stored == old(host.stored)
    ensures r.Ok? <==> Hydrate(row, boot, host.cls, env).Ok?
    ensures r.Err? ==> r.error == Hydrate(row, boot, host.cls, env).error
    ensures r.Ok? ==> fresh(r.value) && r.value.cls == host.cls && r.value.stored && r.value.original == row
    ensures r.Ok? ==> StateOf(r.value) == Hydrate(row, boot, host.cls, env).value
  {
    host.bootable := boot;
    var m := new Model(host.cls);
    m.stored := true;
    m.SetRawAttributes(row, true);
    var i := 0;
    while i < |boot|
      invariant 0 <= i <= |boot|
      invariant fresh(m) && m.cls == host.cls && m.stored && m.original == row
      invariant host.bootable == boot
      invariant host.attributes == old(host.attributes) && host.original == old(host.original)
      invariant host.relations == old(host.relations) && host.stored == old(host.stored)
      invariant Hydrate(row, boot[..i], host.cls, env) == Ok(StateOf(m))
    {
      assert boot[..i + 1][..i] == boot[..i];
      ghost var before := StateOf(m);
      var err := ApplyEntry(m, boot[i], env);
      assert Hydrate(row, boot[..i + 1], host.cls, env) == Step(before, boot[i], host.cls, env);
      if err.Some? {
        HydrateFailureSticks(row, boot, i + 1, host.cls, env);
        return Err(err.value);
      }
      i := i + 1;
    }
    assert boot[..i] == boot;
    return Ok(m);
  }

  /** Every row hydrated, or the first failure. */
  function HydrateAll(rows: seq<Row>, boot: seq<(Key, Entry)>, cls: ModelClass, env: Env): (r: Result<seq<State>>)
    ensures r.Ok? ==> |r.value| == |rows|
    ensures r.Ok? <==> forall i :: 0 <= i < |rows| ==> Hydrate(rows[i], boot, cls, env).Ok?
    ensures r.Ok? ==> forall i :: 0 <= i < |rows| ==> r.value[i] == Hydrate(rows[i], boot, cls, env).value
  {
    if rows == [] then Ok([])
    else
      var init := rows[..|rows| - 1];
      match HydrateAll(init, boot, cls, env)
      case Err(e) =>
        var i :| 0 <= i < |init| && Hydrate(init[i], boot, cls, env).Err?;
        assert init[i] == rows[i];
        Err(e)
      case Ok(states) =>
        assert forall i :: 0 <= i < |init| ==> init[i] == rows[i];
        match Hydrate(rows[|rows| - 1], boot, cls, env)
        case Err(e) => Err(e)
        case Ok(s) => Ok(states + [s])
  }

  /** The error of a failed hydration of several rows is that of the first
      row that fails. */
  lemma {:induction false} HydrateAllFirstError(rows: seq<Row>, i: nat, boot: seq<(Key, Entry)>, cls: ModelClass, env: Env)
    requires i < |rows| && Hydrate(rows[i], boot, cls, env).Err?
    requires forall j :: 0 <= j < i ==> Hydrate(rows[j], boot, cls, env).Ok?
    ensures HydrateAll(rows, boot, cls, env).Err?
    ensures HydrateAll(rows, boot, cls, env).error == Hydrate(rows[i], boot, cls, env).error
    decreases |rows|
  {
    var init := rows[..|rows| - 1];
    if i < |rows| - 1 {
      assert init[i] == rows[i];
      assert forall j :: 0 <= j < i ==> init[j] == rows[j];
      HydrateAllFirstError(init, i, boot, cls, env);
    } else {
      assert forall j :: 0 <= j < |init| ==> init[j] == rows[j];
    }
  }

  /** A stored instance of `cls` whose snapshot is `row` and whose state is
      the row hydrated under the request. */
  ghost predicate Hydrated(m: Model, row: Row, boot: seq<(Key, Entry)>, cls: ModelClass, env: Env)
    reads m
  {
    Hydrate(row, boot, cls, env).Ok? && m.cls == cls && m.stored && m.original == row &&
    StateOf(m) == Hydrate(row, boot, cls, env).value
  }

  /** makeModels: one hydrated model per row, in order. */
  method MakeModels(host: Model, rows: seq<Row>, boot: seq<(Key, Entry)>, env: Env) returns (r: Result<seq<Model>>)
    modifies host
    ensures host.bootable == (if rows == [] then old(host.bootable) else boot)
    ensures host.attributes == old(host.attributes) && host.original == old(host.original)
    ensures host.relations == old(host.relations) && host.stored == old(host.stored)
    ensures r.Ok? <==> HydrateAll(rows, boot, host.cls, env).Ok?
    ensures r.Err? ==> r.error == HydrateAll(rows, boot, host.cls, env).error
    ensures r.Ok? ==> |r.value| == |rows| && forall i :: 0 <= i < |rows| ==>
      fresh(r.value[i]) && r.value[i].cls == host.cls && r.value[i].stored && r.value[i].original == rows[i] &&
      StateOf(r.value[i]) == HydrateAll(rows, boot, host.cls, env).value[i]
  {
    var models: seq<Model> := [];
    var i := 0;
    while i < |rows|
      invariant 0 <= i <= |rows| && |models| == i
      invariant host.bootable == (if i == 0 then old(host.bootable) else boot)
      invariant host.attributes == old(host.attributes) && host.original == old(host.original)
      invariant host.relations == old(host.relations) && host.stored == old(host.stored)
      invariant forall j :: 0 <= j < i ==> fresh(models[j])
      invariant forall j :: 0 <= j < i ==> Hydrated(models[j], rows[j], boot, host.cls, env)
    {
      var m := NewFromQuery(host, rows[i], boot, env);
      if m.Err? {
        HydrateAllFirstError(rows, i, boot, host.cls, env);
        return Err(m.error);
      }
      models := models + [m.value];
      i := i + 1;
    }
    return Ok(models);
  }

  /** get/all/getAll: the soft-delete filter, the selected columns (an empty
      list selects nothing extra), then one model per returned row. */
  method Get(q: Builder, columns: seq<string>, env: Env) returns (r: Result<seq<Model>>)
    requires q.conn == env.conn
    modifies q, q.model
    ensures q.clauses == old(q.clauses) + TrashedFilter(q.conn, q.model.cls, q.withTrashed, q.onlyTrashed) +
      (if columns == [] then [] else [Clause.Select(columns)])
    ensures q.Settings() == old(q.Settings())
    ensures var rows := q.conn.rows(q.Current());
      (r.Ok? <==> HydrateAll(rows, q.boot, q.model.cls, env).Ok?) &&
      (r.Err? ==> r.error == HydrateAll(rows, q.boot, q.model.cls, env).error) &&
      (r.Ok? ==> |r.value| == |rows| && forall i :: 0 <= i < |rows| ==>
        fresh(r.value[i]) && r.value[i].cls == q.model.cls && r.value[i].stored && r.value[i].original == rows[i] &&
        StateOf(r.value[i]) == HydrateAll(rows, q.boot, q.model.cls, env).value[i])
  {
    q.Deletable();
    if columns != [] {
      q.Select(columns);
    }
    var rows := q.conn.rows(q.Current());
    r := MakeModels(q.model, rows, q.boot, env);
  }

  /** first: the soft-delete filter, the selected columns, one row; no row
      is no model. */
  method First(q: Builder, columns: seq<string>, env: Env) returns (r: Result<Option<Model>>)
    modifies q, q.model
    ensures q.clauses == old(q.clauses) + TrashedFilter(q.conn, q.model.cls, q.withTrashed, q.onlyTrashed) +
      (if columns == [] then [] else [Clause.Select(columns)]) + [Clause.Limit(1, None)]
    ensures q.Settings() == old(q.Settings())
    ensures var rows := q.conn.rows(q.Current());
      (rows == [] ==> r == Ok(None)) &&
      (rows != [] ==>
        (r.Ok? <==> Hydrate(rows[0], q.boot, q.model.cls, env).Ok?) &&
        (r.Err? ==> r.error == Hydrate(rows[0], q.boot, q.model.cls, env).error) &&
        (r.Ok? ==> (r.value.Some? && fresh(r.value.value) && r.value.value.cls == q.model.cls &&
          r.value.value.stored && r.value.value.original == rows[0] &&
          StateOf(r.value.value) == Hydrate(rows[0], q.boot, q.model.cls, env).value)))
  {
    q.Deletable();
    if columns != [] {
      q.Select(columns);
    }
    q.Limit(1, None);
    var rows := q.conn.rows(q.Current());
    if rows == [] {
      return Ok(None);
    }
    var m := NewFromQuery(q.model, rows[0], q.boot, env);
    if m.Err? {
      return Err(m.error);
    }
    return Ok(Some(m.value));
  }

  /** firstOrFail: first, and a missing row is an error. */
  method FirstOrFail(q: Builder, columns: seq<string>, env: Env) returns (r: Result<Model>)
    modifies q, q.model
    ensures q.clauses == old(q.clauses) + TrashedFilter(q.conn, q.model.cls, q.withTrashed, q.onlyTrashed) +
      (if columns == [] then [] else [Clause.Select(columns)]) + [Clause.Limit(1, None)]
    ensures q.Settings() == old(q.Settings())
    ensures var rows := q.conn.rows(q.Current());
      (rows == [] ==> r == Err(RecordNotFound)) &&
      (rows != [] ==>
        (r.Ok? <==> Hydrate(rows[0], q.boot, q.model.cls, env).Ok?) &&
        (r.Err? ==> r.error == Hydrate(rows[0], q.boot, q.model.cls, env).error) &&
        (r.Ok? ==>
           fresh(r.value) && r.value.cls == q.model.cls && r.value.stored && r.value.original == rows[0] &&
           StateOf(r.value) == Hydrate(rows[0], q.boot, q.model.cls, env).value))
  {
    var found := First(q, columns, env);
    if found.Err? {
      return Err(found.error);
    }
    if found.value.None? {
      return Err(RecordNotFound);
    }
    return Ok(found.value.value);
  }

  /** What find returns: no model, one model, or a collection. */
  datatype Found = NotFound | FoundOne(model: Model) | FoundMany(models: seq<Model>)

  /** find: a single id loads at most one row matching the primary key; a
      list of ids goes through whereIn and get (which adds the soft-delete
      filter a second time). */
  method Find(q: Builder, ids: Value, columns: seq<string>, env: Env) returns (r: Result<Found>)
    requires q.conn == env.conn
    modifies q, q.model
    ensures ids.VNull? ==> r == Err(TypeError) && q.clauses == old(q.clauses)
    ensures q.Settings() == old(q.Settings())
    ensures !ids.VNull? ==>
      var pk := q.model.cls.primaryKey;
      var pre := old(q.clauses) + (if columns == [] then [] else [Clause.Select(columns)]) +
        TrashedFilter(q.conn, q.model.cls, q.withTrashed, q.onlyTrashed);
      var rows := q.conn.rows(q.Current());
      (!ids.VList? ==>
        q.clauses == pre + [Clause.Where(Condition(pk, "=", ids, q.escapeValue, q.conn.escape)), Clause.Limit(1, None)] &&
        FoundFirst(r, rows, q.boot, q.model.cls, env)) &&
      (ids.VList? ==>
        q.clauses == pre + [Clause.Where(Condition(pk, "IN", InValues(ids), q.escapeValue, q.conn.escape))] +
          TrashedFilter(q.conn, q.model.cls, q.withTrashed, q.onlyTrashed) &&
        FoundAll(r, rows, q.boot, q.model.cls, env))
    ensures r.Ok? && r.value.FoundOne? ==> fresh(r.value.model)
    ensures r.Ok? && r.value.FoundMany? ==> forall i :: 0 <= i < |r.value.models| ==> fresh(r.value.models[i])
  {
    if ids.VNull? {
      return Err(TypeError);
    }
    SelectDeletable(q, columns);
    if !ids.VList? {
      r := FindOne(q, ids, env);
    } else {
      r := FindMany(q, ids, env);
    }
  }

  /** find's single-id result against the rows: no row is not found;
      otherwise it succeeds iff the first row hydrates, and the model is a
      fresh stored instance in the hydrated state. */
  ghost predicate FoundFirst(r: Result<Found>, rows: seq<Row>, boot: seq<(Key, Entry)>, cls: ModelClass, env: Env)
    reads if r.Ok? && r.value.FoundOne? then {r.value.model} else {}
  {
    (rows == [] ==> r == Ok(NotFound)) &&
    (rows != [] ==>
      (r.Ok? <==> Hydrate(rows[0], boot, cls, env).Ok?) &&
      (r.Err? ==> r.error == Hydrate(rows[0], boot, cls, env).error) &&
      (r.Ok? ==>
         r.value.FoundOne? && r.value.model.cls == cls && r.value.model.stored &&
         r.value.model.original == rows[0] && StateOf(r.value.model) == Hydrate(rows[0], boot, cls, env).value))
  }

  /** find's list result against the rows: it succeeds iff every row
      hydrates, with one stored model per row in the hydrated state. */
  ghost predicate FoundAll(r: Result<Found>, rows: seq<Row>, boot: seq<(Key, Entry)>, cls: ModelClass, env: Env)
    reads if r.Ok? && r.value.FoundMany? then set m | m in r.value.models else {}
  {
    (r.Ok? <==> HydrateAll(rows, boot, cls, env).Ok?) &&
    (r.Err? ==> r.error == HydrateAll(rows, boot, cls, env).error) &&
    (r.Ok? ==> r.value.FoundMany? && |r.value.models| == |rows| && forall i :: 0 <= i < |rows| ==>
      r.value.models[i].cls == cls && r.value.models[i].stored && r.value.models[i].original == rows[i] &&
      StateOf(r.value.models[i]) == HydrateAll(rows, boot, cls, env).value[i])
  }

  /** The first steps of find: the columns, when given, then the
      soft-delete filter. */
  method SelectDeletable(q: Builder, columns: seq<string>)
    modifies q
    ensures q.clauses == old(q.clauses) + (if columns == [] then [] else [Clause.Select(columns)]) +
      TrashedFilter(q.conn, q.model.cls, q.withTrashed, q.onlyTrashed)
    ensures q.Settings() == old(q.Settings())
  {
    if columns != [] {
      q.Select(columns);
    }
    q.Deletable();
  }

  /** find with one id. */
  method FindOne(q: Builder, id: Value, env: Env) returns (r: Result<Found>)
    requires !id.VList?
    modifies q, q.model
    ensures q.clauses == old(q.clauses) +
      [Clause.Where(Condition(q.model.cls.primaryKey, "=", id, q.escapeValue, q.conn.escape)), Clause.Limit(1, None)]
    ensures q.Settings() == old(q.Settings())
    ensures FoundFirst(r, q.conn.rows(q.Current()), q.boot, q.model.cls, env)
    ensures r.Ok? && r.value.FoundOne? ==> fresh(r.value.model)
  {
    var _ := q.WhereEquals(q.model.cls.primaryKey, id);
    q.Limit(1, None);
    var rows := q.conn.rows(q.Current());
    if rows == [] {
      return Ok(NotFound);
    }
    var m := NewFromQuery(q.model, rows[0], q.boot, env);
    if m.Err? {
      return Err(m.error);
    }
    return Ok(FoundOne(m.value));
  }

  /** find with a list of ids. */
  method FindMany(q: Builder, ids: Value, env: Env) returns (r: Result<Found>)
    requires ids.VList? && q.conn == env.conn
    modifies q, q.model
    ensures q.clauses == old(q.clauses) +
      [Clause.Where(Condition(q.model.cls.primaryKey, "IN", InValues(ids), q.escapeValue, q.conn.escape))] +
      TrashedFilter(q.conn, q.model.cls, q.withTrashed, q.onlyTrashed)
    ensures q.Settings() == old(q.Settings())
    ensures FoundAll(r, q.conn.rows(q.Current()), q.boot, q.model.cls, env)
    ensures r.Ok? ==> forall i :: 0 <= i < |r.value.models| ==> fresh(r.value.models[i])
  {
    var _ := q.WhereIn(q.model.cls.primaryKey, ids);
    var ms := Get(q, [], env);
    if ms.Err? {
      return Err(ms.error);
    }
    return Ok(FoundMany(ms.value));
  }

  /** The conditions firstOrNew adds: `key = value` per attribute, in
      order. */
  function Equalities(attrs: seq<(string, Value)>, escapeOn: bool, escape: string -> string): (r: seq<Clause>)
    ensures |r| == |attrs|
  {
    if attrs == [] then []
    else
      var e := attrs[|attrs| - 1];
      Equalities(attrs[..|attrs| - 1], escapeOn, escape) + [Clause.Where(Condition(e.0, "=", e.1, escapeOn, escape))]
  }

  /** The number of attributes before the first list value. */
  function ScalarPrefix(attrs: seq<(string, Value)>): (n: nat)
    ensures n <= |attrs|
    ensures forall i :: 0 <= i < n ==> !attrs[i].1.VList?
    ensures n < |attrs| ==> attrs[n].1.VList?
  {
    if attrs == [] || attrs[0].1.VList? then 0 else 1 + ScalarPrefix(attrs[1..])
  }

  /** The where calls of firstOrNew, one per attribute, stopping at the
      first list value. */
  method WhereAll(q: Builder, attrs: seq<(string, Value)>) returns (err: Option<Error>)
    modifies q
    ensures q.Settings() == old(q.Settings())
    ensures err.Some? <==> ScalarPrefix(attrs) < |attrs|
    ensures err.Some? ==> err.value == TypeError
    ensures q.clauses == old(q.clauses) + Equalities(attrs[..ScalarPrefix(attrs)], q.escapeValue, q.conn.escape)
  {
    ghost var on := q.escapeValue;
    var n := ScalarPrefix(attrs);
    var i := 0;
    while i < n
      invariant 0 <= i <= n
      invariant q.Settings() == old(q.Settings()) && q.escapeValue == on
      invariant q.clauses == old(q.clauses) + Equalities(attrs[..i], on, q.conn.escape)
    {
      err := q.WhereEquals(attrs[i].0, attrs[i].1);
      EqualitiesSnoc(attrs, i, on, q.conn.escape);
      i := i + 1;
    }
    if n < |attrs| {
      err := q.WhereEquals(attrs[n].0, attrs[n].1);
    } else {
      err := None;
    }
  }

  /** One more attribute adds its condition at the end. */
  lemma EqualitiesSnoc(attrs: seq<(string, Value)>, i: nat, escapeOn: bool, escape: string -> string)
    requires i < |attrs|
    ensures Equalities(attrs[..i + 1], escapeOn, escape) ==
      Equalities(attrs[..i], escapeOn, escape) + [Clause.Where(Condition(attrs[i].0, "=", attrs[i].1, escapeOn, escape))]
  {
    assert attrs[..i + 1][..i] == attrs[..i];
  }

  /** firstOrNew: one equality condition per attribute, then first; without
      a row, newInstance with the attributes: a new unsaved instance they
      are mass-assigned to. A list value cannot be a where operand: the
      conditions stop before it with a type error. */
  method FirstOrNew(q: Builder, attrs: seq<(string, Value)>, env: Env) returns (r: Result<Model>)
    modifies q, q.model
    ensures q.Settings() == old(q.Settings())
    ensures var n := ScalarPrefix(attrs);
      n < |attrs| ==>
        r == Err(TypeError) && q.clauses == old(q.clauses) + Equalities(attrs[..n], q.escapeValue, q.conn.escape)
    ensures ScalarPrefix(attrs) == |attrs| ==>
      q.clauses == old(q.clauses) + Equalities(attrs, q.escapeValue, q.conn.escape) +
        TrashedFilter(q.conn, q.model.cls, q.withTrashed, q.onlyTrashed) + [Clause.Limit(1, None)]
    ensures var rows := q.conn.rows(q.Current());
      ScalarPrefix(attrs) == |attrs| && rows != [] ==>
        (r.Ok? <==> Hydrate(rows[0], q.boot, q.model.cls, env).Ok?) &&
        (r.Err? ==> r.error == Hydrate(rows[0], q.boot, q.model.cls, env).error) &&
        (r.Ok? ==>
           fresh(r.value) && r.value.cls == q.model.cls && r.value.stored && r.value.original == rows[0] &&
           StateOf(r.value) == Hydrate(rows[0], q.boot, q.model.cls, env).value)
    ensures var rows := q.conn.rows(q.Current()); var c := q.model.cls;
      ScalarPrefix(attrs) == |attrs| && rows == [] ==>
        (r.Ok? <==> c.allowedFields != [] || !c.protectFields || attrs == []) &&
        (r.Err? ==> r.error == MassAssignmentError) &&
        (r.Ok? ==>
           fresh(r.value) && r.value.cls == c && !r.value.stored &&
           r.value.attributes == Filled(map[], attrs, c.allowedFields) && r.value.original == map[] &&
           r.value.relations == map[] && r.value.bootable == [])
  {
    var err := WhereAll(q, attrs);
    if err.Some? {
      return Err(err.value);
    }
    assert attrs[..ScalarPrefix(attrs)] == attrs;
    var found := First(q, [], env);
    if found.Err? {
      return Err(found.error);
    }
    if found.value.Some? {
      return Ok(found.value.value);
    }
    r := NewInstance(q.model.cls, attrs, false);
  }
}
