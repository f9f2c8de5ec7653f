/** Relation descriptors: each binds a query builder on the related model to a
    parent model, adds its base conditions to that builder once, at
    construction, and (for the has- and morph- kinds) writes the keys that
    link a related model to the parent before saving it. The relation
    factories of a model class resolve a relation method to a descriptor. */
module Relations {
  import opened Values
  import Collections
  import opened Str
  import opened Sql
  import opened Records
  import opened Queries
  import opened Saving

  /** The descriptor kinds, with the column names they were built with. */
  datatype Kind =
    | HasOne(foreignKey: string, otherKey: string)
    | HasMany(foreignKey: string, otherKey: string)
    | BelongsTo(foreignKey: string, otherKey: string)
    | BelongsToMany(pivot: string, foreignKey: string, otherKey: string)
    | MorphOne(typeColumn: string, idColumn: string, localKey: string)
    | MorphMany(typeColumn: string, idColumn: string, localKey: string)
    | MorphTo(foreignKey: string, otherKey: string, mergeType: string)

  /** What getResults returns: first() (a model or null) or get() (a
      collection). */
  datatype Shape = Single | Many

  function ShapeOf(k: Kind): Shape {
    match k
    case HasOne(_, _) => Single
    case BelongsTo(_, _) => Single
    case MorphOne(_, _, _) => Single
    case MorphTo(_, _, _) => Single
    case HasMany(_, _) => Many
    case BelongsToMany(_, _, _) => Many
    case MorphMany(_, _, _) => Many
  }

  /** getMergeableClass, without its namespace: the tag a polymorphic
      relation stores for its parent. */
  function MergeClass(parent: ModelClass): string {
    ClassBaseName(parent.name)
  }

  /** A parent attribute read through getAttribute. */
  function ParentValue(parent: map<string, Value>, key: string): Value {
    if key in parent then parent[key] else VNull
  }

  /** The clauses a descriptor adds at construction, given the parent's
      attributes and class and the class of the builder's model. */
  function BaseConditions(k: Kind, parent: map<string, Value>, parentCls: ModelClass, child: ModelClass,
                          escapeOn: bool, escape: string -> string): seq<Clause>
  {
    match k
    case HasOne(fk, ok) =>
      [Clause.Where(Condition(fk, "=", ParentValue(parent, ok), escapeOn, escape)), Clause.Limit(1, None)]
    case HasMany(fk, ok) =>
      [Clause.Where(Condition(fk, "=", ParentValue(parent, ok), escapeOn, escape))]
    case BelongsTo(fk, ok) =>
      [Clause.Where(Condition(TableOf(child) + "." + ok, "=", ParentValue(parent, fk), escapeOn, escape))]
    case MorphTo(fk, ok, _) =>
      [Clause.Where(Condition(TableOf(child) + "." + ok, "=", ParentValue(parent, fk), escapeOn, escape))]
    case BelongsToMany(pivot, _, _) =>
      var base := TableOf(child);
      [Clause.Join(pivot, base + "." + child.primaryKey + " = " + PivotOtherKey(k), "inner"),
       Clause.Select([base + ".*"]),
       Clause.Where(Condition(PivotForeignKey(k), "=", ParentValue(parent, parentCls.primaryKey), escapeOn, escape))]
    case MorphOne(t, id, lk) =>
      [Clause.Where(Condition(t, "=", VStr(ToLower(MergeClass(parentCls))), escapeOn, escape)),
       Clause.Where(Condition(id, "=", ParentValue(parent, lk), escapeOn, escape))]
    case MorphMany(t, id, lk) =>
      [Clause.Where(Condition(t, "=", VStr(ToLower(MergeClass(parentCls))), escapeOn, escape)),
       Clause.Where(Condition(id, "=", ParentValue(parent, lk), escapeOn, escape))]
  }

  lemma AppendTwo(s: seq<Clause>, a: Clause, b: Clause)
    ensures s + [a] + [b] == s + [a, b]
  {
  }

  /** The two clauses of MorphOne and MorphMany. */
  lemma MorphBase(k: Kind, parent: map<string, Value>, parentCls: ModelClass, child: ModelClass,
                  escapeOn: bool, escape: string -> string)
    requires k.MorphOne? || k.MorphMany?
    ensures BaseConditions(k, parent, parentCls, child, escapeOn, escape) ==
      [Clause.Where(Condition(k.typeColumn, "=", VStr(ToLower(MergeClass(parentCls))), escapeOn, escape)),
       Clause.Where(Condition(k.idColumn, "=", ParentValue(parent, k.localKey), escapeOn, escape))]
  {
  }

  /** getForeignKey of BelongsToMany: the pivot-qualified foreign key. */
  function PivotForeignKey(k: Kind): string
    requires k.BelongsToMany?
  {
    k.pivot + "." + k.foreignKey
  }

  /** getOtherKey of BelongsToMany: the pivot-qualified other key. */
  function PivotOtherKey(k: Kind): string
    requires k.BelongsToMany?
  {
    k.pivot + "." + k.otherKey
  }

  /** Both pivot keys name a column of the pivot table: their last segment
      is the key as given. */
  lemma PivotKeysQualified(pivot: string, fk: string, ok: string)
    requires '.' !in fk && '.' !in ok
    ensures var k := BelongsToMany(pivot, fk, ok);
      Plain(PivotForeignKey(k)) == fk && Plain(PivotOtherKey(k)) == ok
  {
    LastSegmentQualified(pivot, fk, '.');
    LastSegmentQualified(pivot, ok, '.');
  }

  /** BelongsToMany joins the pivot table before it restricts the pivot's
      foreign key, and selects only the related table's columns. */
  lemma PivotJoinFirst(k: Kind, parent: map<string, Value>, parentCls: ModelClass, child: ModelClass,
                       escapeOn: bool, escape: string -> string)
    requires k.BelongsToMany?
    ensures var cs := BaseConditions(k, parent, parentCls, child, escapeOn, escape);
      |cs| == 3 && cs[0].Join? && cs[0].table == k.pivot && cs[1] == Clause.Select([TableOf(child) + ".*"]) &&
      cs[2] == Clause.Where(Condition(PivotForeignKey(k), "=", ParentValue(parent, parentCls.primaryKey), escapeOn, escape))
  {
  }

  /** Only HasOne limits its query to one row: single-shaped relations other
      than HasOne (BelongsTo, MorphOne, MorphTo) rely on first() alone. */
  lemma OnlyHasOneLimits(k: Kind, parent: map<string, Value>, parentCls: ModelClass, child: ModelClass,
                         escapeOn: bool, escape: string -> string)
    ensures var cs := BaseConditions(k, parent, parentCls, child, escapeOn, escape);
      (exists i :: 0 <= i < |cs| && cs[i].Limit?) <==> k.HasOne?
  {
    var cs := BaseConditions(k, parent, parentCls, child, escapeOn, escape);
    if k.HasOne? {
      assert cs[1].Limit?;
    } else {
      forall i | 0 <= i < |cs|
        ensures !cs[i].Limit?
      {
        match k
        case HasMany(_, _) => assert cs[i] == cs[0];
        case BelongsTo(_, _) => assert cs[i] == cs[0];
        case MorphTo(_, _, _) => assert cs[i] == cs[0];
        case BelongsToMany(_, _, _) => assert cs[i] == cs[0] || cs[i] == cs[1] || cs[i] == cs[2];
        case MorphOne(_, _, _) => assert cs[i] == cs[0] || cs[i] == cs[1];
        case MorphMany(_, _, _) => assert cs[i] == cs[0] || cs[i] == cs[1];
      }
    }
  }

  /** MorphTo's condition is exactly BelongsTo's: its type column takes no
      part in the query. */
  lemma MorphToIsBelongsTo(fk: string, ok: string, t: string, parent: map<string, Value>, parentCls: ModelClass,
                           child: ModelClass, escapeOn: bool, escape: string -> string)
    ensures BaseConditions(MorphTo(fk, ok, t), parent, parentCls, child, escapeOn, escape)
         == BaseConditions(BelongsTo(fk, ok), parent, parentCls, child, escapeOn, escape)
  {
  }

  /** The polymorphic conditions test the lower-cased parent tag: a parent
      of class `N\Post` is matched under `post`. */
  lemma MorphTag(t: string, id: string, lk: string, parent: map<string, Value>, parentCls: ModelClass, ns: string,
                 child: ModelClass, escape: string -> string)
    requires parentCls.name == ns + "\\Post" && '/' !in ns
    ensures BaseConditions(MorphOne(t, id, lk), parent, parentCls, child, false, escape)[0]
         == Clause.Where(t + " = post")
  {
    ClassBaseNameQualified(ns, "Post");
    assert ns + "\\Post" == ns + "\\" + "Post";
    assert MergeClass(parentCls) == "Post";
    assert ToLower("Post") == "post" by {
      assert Lower('P') == 'p';
    }
    assert t + " " + "=" + " " + "post" == t + " = post";
  }

  /** The kinds with a save-back (HasOne, HasMany and the morph-one/many
      kinds built on them). */
  predicate Saves(k: Kind) {
    k.HasOne? || k.HasMany? || k.MorphOne? || k.MorphMany?
  }

  /** getPlainForeignKey / getPlainMergeId / getPlainMergeableType: the text
      after the last dot. */
  function Plain(column: string): string {
    LastSegment(column, '.')
  }

  /** The attribute writes save makes on the related model, in order. The
      morph kinds write the type tag and the parent's primary-key value, and
      then the HasOne/HasMany save they delegate to writes the id column
      again, with the parent's local-key value. */
  function SaveBack(k: Kind, parent: map<string, Value>, parentCls: ModelClass): seq<(string, Value)>
    requires Saves(k)
  {
    match k
    case HasOne(fk, ok) => [(Plain(fk), ParentValue(parent, ok))]
    case HasMany(fk, ok) => [(Plain(fk), ParentValue(parent, ok))]
    case MorphOne(t, id, lk) =>
      [(Plain(t), VStr(MergeClass(parentCls))),
       (Plain(id), ParentValue(parent, parentCls.primaryKey)),
       (Plain(id), ParentValue(parent, lk))]
    case MorphMany(t, id, lk) =>
      [(Plain(t), VStr(ToLower(ClassBaseName(MergeClass(parentCls))))),
       (Plain(id), ParentValue(parent, parentCls.primaryKey)),
       (Plain(id), ParentValue(parent, lk))]
  }

  /** An overlay of three writes is three map updates. */
  lemma OverlayThree(attrs: map<string, Value>, ws: seq<(string, Value)>)
    requires |ws| == 3
    ensures Overlay(attrs, ws) == attrs[ws[0].0 := ws[0].1][ws[1].0 := ws[1].1][ws[2].0 := ws[2].1]
  {
    assert ws[..3] == ws && ws[..2][..1] == ws[..1] && ws[..1][..0] == [];
    assert Overlay(attrs, ws[..1]) == attrs[ws[0].0 := ws[0].1];
    assert Overlay(attrs, ws[..2]) == Overlay(attrs, ws[..1])[ws[1].0 := ws[1].1];
  }

  /** An overlay of one write is one map update. */
  lemma OverlayOne(attrs: map<string, Value>, ws: seq<(string, Value)>)
    requires |ws| == 1
    ensures Overlay(attrs, ws) == attrs[ws[0].0 := ws[0].1]
  {
    assert ws[..0] == [];
  }

  /** What the save-back leaves on the related model: the plain foreign key
      holds the parent's other-key value; for the morph kinds, the plain id
      column holds the parent's local-key value and the plain type column the
      parent's class base name (lower-cased only for MorphMany). */
  lemma SaveBackValues(k: Kind, attrs: map<string, Value>, parent: map<string, Value>, parentCls: ModelClass)
    requires Saves(k)
    ensures var w := Overlay(attrs, SaveBack(k, parent, parentCls));
      (k.HasOne? || k.HasMany?) ==> w[Plain(k.foreignKey)] == ParentValue(parent, k.otherKey)
    ensures var w := Overlay(attrs, SaveBack(k, parent, parentCls));
      (k.MorphOne? || k.MorphMany?) ==> w[Plain(k.idColumn)] == ParentValue(parent, k.localKey)
    ensures var w := Overlay(attrs, SaveBack(k, parent, parentCls));
      k.MorphOne? && Plain(k.typeColumn) != Plain(k.idColumn) ==>
        w[Plain(k.typeColumn)] == VStr(MergeClass(parentCls))
    ensures var w := Overlay(attrs, SaveBack(k, parent, parentCls));
      k.MorphMany? && Plain(k.typeColumn) != Plain(k.idColumn) ==>
        w[Plain(k.typeColumn)] == VStr(ToLower(MergeClass(parentCls)))
  {
    var ws := SaveBack(k, parent, parentCls);
    if k.MorphOne? || k.MorphMany? {
      OverlayThree(attrs, ws);
      ClassBaseNameIdempotent(parentCls.name);
    } else {
      OverlayOne(attrs, ws);
    }
  }

  /** The related model carries the save-back: every key the save-back
      writes, other than the model's primary key and timestamp columns,
      holds its last written value. */
  ghost predicate CarriesBack(attrs: map<string, Value>, cls: ModelClass, k: Kind, parent: map<string, Value>, parentCls: ModelClass)
    requires Saves(k)
  {
    var w := Overlay(map[], SaveBack(k, parent, parentCls));
    forall key :: key in w && key != cls.primaryKey && key != CreatedAt && key != UpdatedAt ==>
      key in attrs && attrs[key] == w[key]
  }

  /** The outcome of saving a model after the save-back writes. */
  function SavedOutcome(k: Kind, parent: map<string, Value>, parentCls: ModelClass, cls: ModelClass,
                        attrs: map<string, Value>, original: map<string, Value>, boot: set<string>, stored: bool,
                        conn: Connection, time: Value): Outcome
    requires Saves(k)
  {
    var written := Overlay(attrs, SaveBack(k, parent, parentCls));
    if stored then UpdateOutcome(cls, written, original, boot, stored, conn, [], time)
    else InsertOutcome(cls, written, original, boot, stored, conn, [], time)
  }

  /** Whatever save does after the save-back, the related model carries
      it. */
  lemma SavedCarriesBack(k: Kind, parent: map<string, Value>, parentCls: ModelClass, cls: ModelClass,
                         attrs: map<string, Value>, original: map<string, Value>, boot: set<string>, stored: bool,
                         conn: Connection, time: Value)
    requires Saves(k)
    ensures CarriesBack(SavedOutcome(k, parent, parentCls, cls, attrs, original, boot, stored, conn, time).attributes,
                        cls, k, parent, parentCls)
  {
    var ws := SaveBack(k, parent, parentCls);
    var written := Overlay(attrs, ws);
    var o := SavedOutcome(k, parent, parentCls, cls, attrs, original, boot, stored, conn, time);
    var w := Overlay(map[], ws);
    forall key | key in w && key != cls.primaryKey && key != CreatedAt && key != UpdatedAt
      ensures key in o.attributes && o.attributes[key] == w[key]
    {
      OverlayLookup(attrs, ws, key);
      if stored {
        UpdateKeepsOtherKeys(cls, written, original, boot, stored, conn, time, key);
      } else {
        InsertKeepsOtherKeys(cls, written, original, boot, stored, conn, time, key);
      }
    }
  }

  /** getKeys: the key values of the models, `getAttribute(key)` when the key
      is truthy and otherwise the primary-key column NAME. */
  function KeyValues(models: seq<Model>, key: Option<string>): (r: seq<Value>)
    reads set m | m in models
    ensures |r| == |models|
  {
    seq(|models|, i requires 0 <= i < |models| reads set m | m in models =>
      if key.Some? && TruthyString(key.value) then models[i].AttributeOrNull(key.value)
      else VStr(models[i].cls.primaryKey))
  }

  /** Position i repeats the string form of an earlier position. */
  predicate SeenBefore(vs: seq<Value>, i: int)
    requires 0 <= i < |vs|
  {
    exists j :: 0 <= j < i && StringForm(vs[j]) == StringForm(vs[i])
  }

  /** array_unique: the first of each group of values with equal string
      forms, under its original position (positions are not renumbered). */
  function Unique(vs: seq<Value>): (r: seq<(Collections.Key, Value)>)
    ensures forall p :: 0 <= p < |r| ==> r[p].0.IntKey? && 0 <= r[p].0.i < |vs| && r[p].1 == vs[r[p].0.i]
    ensures forall p, q :: 0 <= p < q < |r| ==> r[p].0.i < r[q].0.i
  {
    if vs == [] then []
    else
      var n := |vs| - 1;
      var rest := Unique(vs[..n]);
      if SeenBefore(vs, n) then rest else rest + [(Collections.IntKey(n), vs[n])]
  }

  /** getKeys keeps a position exactly when no earlier position has its
      string form. */
  lemma {:induction false} UniqueKeeps(vs: seq<Value>, i: int)
    requires 0 <= i < |vs|
    ensures (Collections.IntKey(i), vs[i]) in Unique(vs) <==> !SeenBefore(vs, i)
    decreases |vs|
  {
    var n := |vs| - 1;
    var init := vs[..n];
    var rest := Unique(init);
    assert (Collections.IntKey(n), vs[n]) !in rest;
    if i < n {
      UniqueKeeps(init, i);
      assert SeenBefore(init, i) == SeenBefore(vs, i) by {
        assert forall j :: 0 <= j <= i ==> init[j] == vs[j];
      }
    }
  }

  /** The first position whose value has the same string form as position
      i. */
  function FirstSame(vs: seq<Value>, i: nat, j: nat): (r: nat)
    requires j <= i < |vs|
    ensures j <= r <= i && StringForm(vs[r]) == StringForm(vs[i])
    ensures forall m :: j <= m < r ==> StringForm(vs[m]) != StringForm(vs[i])
    decreases i - j
  {
    if StringForm(vs[j]) == StringForm(vs[i]) then j else FirstSame(vs, i, j + 1)
  }

  /** getKeys yields every value's string form exactly once. */
  lemma UniqueCovers(vs: seq<Value>)
    ensures forall i :: 0 <= i < |vs| ==> exists e :: e in Unique(vs) && StringForm(e.1) == StringForm(vs[i])
    ensures forall p, q :: 0 <= p < q < |Unique(vs)| ==> StringForm(Unique(vs)[p].1) != StringForm(Unique(vs)[q].1)
  {
    var r := Unique(vs);
    forall i | 0 <= i < |vs|
      ensures exists e :: e in r && StringForm(e.1) == StringForm(vs[i])
    {
      var f := FirstSame(vs, i, 0);
      UniqueKeeps(vs, f);
      assert (Collections.IntKey(f), vs[f]) in r;
    }
    forall p, q | 0 <= p < q < |r|
      ensures StringForm(r[p].1) != StringForm(r[q].1)
    {
      var a, b := r[p].0.i, r[q].0.i;
      assert r[q] == (Collections.IntKey(b), vs[b]) && r[q] in r;
      UniqueKeeps(vs, b);
    }
  }

  /** The values of an array, in order. */
  function ValuesOf(es: seq<(Collections.Key, Value)>): (r: seq<Value>)
    ensures |r| == |es| && forall i :: 0 <= i < |es| ==> r[i] == es[i].1
  {
    seq(|es|, i requires 0 <= i < |es| => es[i].1)
  }

  /** A relation descriptor. */
  class Relation {
    const kind: Kind
    const query: Builder
    const parent: Model

    /** The constructor: sets the query and parent, then adds the base
        conditions once. */
    constructor(kind: Kind, query: Builder, parent: Model)
      modifies query
      ensures this.kind == kind && this.query == query && this.parent == parent
      ensures query.clauses == old(query.clauses) +
        BaseConditions(kind, parent.attributes, parent.cls, query.model.cls, old(query.escapeValue), query.conn.escape)
      ensures query.Settings() == old(query.Settings())
    {
      this.kind := kind;
      this.query := query;
      this.parent := parent;
      new;
      AddConditions();
    }

    /** addConditions, per kind. */
    method AddConditions()
      modifies query
      ensures query.clauses == old(query.clauses) +
        BaseConditions(kind, parent.attributes, parent.cls, query.model.cls, old(query.escapeValue), query.conn.escape)
      ensures query.Settings() == old(query.Settings())
    {
      if kind.BelongsToMany? {
        AddPivotConditions();
      } else if kind.MorphOne? || kind.MorphMany? {
        AddMorphConditions();
      } else {
        AddKeyConditions();
      }
    }

    /** HasOne and HasMany: the foreign key equals the parent's other key,
        and HasOne limits to one row; BelongsTo and MorphTo: the qualified
        other key equals the parent's foreign key. */
    method AddKeyConditions()
      requires kind.HasOne? || kind.HasMany? || kind.BelongsTo? || kind.MorphTo?
      modifies query
      ensures query.clauses == old(query.clauses) +
        BaseConditions(kind, parent.attributes, parent.cls, query.model.cls, old(query.escapeValue), query.conn.escape)
      ensures query.Settings() == old(query.Settings())
    {
      var child := query.model.cls;
      match kind {
        case HasOne(fk, ok) =>
          query.Where(fk, "=", parent.AttributeOrNull(ok));
          query.Limit(1, None);
        case HasMany(fk, ok) =>
          query.Where(fk, "=", parent.AttributeOrNull(ok));
        case BelongsTo(fk, ok) =>
          query.Where(TableOf(child) + "." + ok, "=", parent.AttributeOrNull(fk));
        case MorphTo(fk, ok, _) =>
          query.Where(TableOf(child) + "." + ok, "=", parent.AttributeOrNull(fk));
      }
    }

    /** BelongsToMany: join the pivot, select the related table's columns,
        and match the pivot's foreign key to the parent's primary key. */
    method AddPivotConditions()
      requires kind.BelongsToMany?
      modifies query
      ensures query.clauses == old(query.clauses) +
        BaseConditions(kind, parent.attributes, parent.cls, query.model.cls, old(query.escapeValue), query.conn.escape)
      ensures query.Settings() == old(query.Settings())
    {
      var child := query.model.cls;
      var base := TableOf(child);
      var pivot, fk, ok := kind.pivot, kind.foreignKey, kind.otherKey;
      var other := PivotOtherKey(kind);
      assert TruthyString(other) by {
        assert other[|pivot|] == '.';
      }
      query.Join(TableName(pivot), base + "." + child.primaryKey, "=", Some(other), "inner");
      assert base + "." + child.primaryKey + " " + "=" + " " + other
          == base + "." + child.primaryKey + " = " + other;
      query.Select([base + ".*"]);
      query.Where(PivotForeignKey(kind), "=", parent.AttributeOrNull(parent.cls.primaryKey));
    }

    /** MorphOne and MorphMany: the type column holds the lower-cased parent
        tag and the id column the parent's local key. */
    method AddMorphConditions()
      requires kind.MorphOne? || kind.MorphMany?
      modifies query
      ensures query.clauses == old(query.clauses) +
        BaseConditions(kind, parent.attributes, parent.cls, query.model.cls, old(query.escapeValue), query.conn.escape)
      ensures query.Settings() == old(query.Settings())
    {
      ghost var before := query.clauses;
      var e, escape := query.escapeValue, query.conn.escape;
      var tag := VStr(ToLower(MergeClass(parent.cls)));
      var local := parent.AttributeOrNull(kind.localKey);
      MorphBase(kind, parent.attributes, parent.cls, query.model.cls, e, escape);
      var _ := query.WhereEquals(kind.typeColumn, tag);
      query.Where(kind.idColumn, "=", local);
      AppendTwo(before, Clause.Where(Condition(kind.typeColumn, "=", tag, e, escape)),
                Clause.Where(Condition(kind.idColumn, "=", local, e, escape)));
    }

    /** __call forwarding a where: the builder returns itself, so the
        relation does too; the clause lands on the relation's query. */
    method Where(key: string, op: string, v: Value)
      modifies query
      ensures query.clauses == old(query.clauses) + [Clause.Where(Condition(key, op, v, query.escapeValue, query.conn.escape))]
      ensures query.Settings() == old(query.Settings())
    {
      query.Where(key, op, v);
    }

    /** save: the save-back writes, then the model's own save; the model is
        returned when that is truthy (Ok(true)), false otherwise. */
    method Save(model: Model, conn: Connection, time: Value) returns (r: Result<bool>, sent: seq<Clause>)
      requires Saves(kind) && model != parent
      modifies model
      ensures Outcome(r, model.attributes, model.stored, sent) ==
        SavedOutcome(kind, old(parent.attributes), parent.cls, model.cls, old(model.attributes), old(model.original),
                     BootKeys(old(model.bootable)), old(model.stored), conn, time)
      ensures CarriesBack(model.attributes, model.cls, kind, parent.attributes, parent.cls)
      ensures model.original == old(model.original) && model.relations == old(model.relations)
      ensures model.bootable == old(model.bootable)
    {
      ghost var writes := SaveBack(kind, parent.attributes, parent.cls);
      match kind {
        case HasOne(fk, ok) =>
          model.SetAttribute(Plain(fk), parent.AttributeOrNull(ok));
          OverlayOne(old(model.attributes), writes);
        case HasMany(fk, ok) =>
          model.SetAttribute(Plain(fk), parent.AttributeOrNull(ok));
          OverlayOne(old(model.attributes), writes);
        case MorphOne(t, id, lk) =>
          model.SetAttribute(Plain(t), VStr(MergeClass(parent.cls)));
          model.SetAttribute(Plain(id), parent.AttributeOrNull(parent.cls.primaryKey));
          model.SetAttribute(Plain(id), parent.AttributeOrNull(lk));
          OverlayThree(old(model.attributes), writes);
        case MorphMany(t, id, lk) =>
          model.SetAttribute(Plain(t), VStr(ToLower(ClassBaseName(MergeClass(parent.cls)))));
          model.SetAttribute(Plain(id), parent.AttributeOrNull(parent.cls.primaryKey));
          model.SetAttribute(Plain(id), parent.AttributeOrNull(lk));
          OverlayThree(old(model.attributes), writes);
      }
      assert model.attributes == Overlay(old(model.attributes), writes);
      r, sent := Saving.Save(model, conn, [], time);
      SavedCarriesBack(kind, parent.attributes, parent.cls, model.cls, old(model.attributes), old(model.original),
                       BootKeys(old(model.bootable)), old(model.stored), conn, time);
    }

    /** One save of saveMany, stated against the model's state before it. */
    method SaveOne(m: Model, conn: Connection, time: Value) returns (res: Result<bool>)
      requires Saves(kind) && m != parent
      modifies m
      ensures res.Ok? ==> SavedFrom(m, old(m.attributes), old(m.original), old(m.bootable), old(m.stored), conn, time)
      ensures res.Err? ==>
        var o := SavedOutcome(kind, parent.attributes, parent.cls, m.cls, old(m.attributes), old(m.original),
                              BootKeys(old(m.bootable)), old(m.stored), conn, time);
        o.result.Err? && res.error == o.result.error && m.attributes == o.attributes && m.stored == o.stored
      ensures m.original == old(m.original) && m.relations == old(m.relations) && m.bootable == old(m.bootable)
    {
      var sent;
      res, sent := Save(m, conn, time);
    }

    /** `m` was saved successfully from the given earlier state: its
        attributes and flag are the save's outcome, and it carries the
        parent's keys. */
    ghost predicate SavedFrom(m: Model, attrs0: map<string, Value>, original0: map<string, Value>,
                              boot0: seq<(Collections.Key, Entry)>, stored0: bool, conn: Connection, time: Value)
      reads parent, m
    {
      Saves(kind) &&
      var o := SavedOutcome(kind, parent.attributes, parent.cls, m.cls, attrs0, original0, BootKeys(boot0), stored0,
                            conn, time);
      o.result.Ok? && m.attributes == o.attributes && m.stored == o.stored &&
      CarriesBack(m.attributes, m.cls, kind, parent.attributes, parent.cls)
    }

    /** saveMany: saves each model in order and returns the input. A save
        that throws (an insert without an id, an update with nothing to
        write) ends the loop and reaches the caller: the models before it
        are saved, it holds what its failed save left, and the models after
        it are untouched. `done` counts the models saved without error. */
    method SaveMany(models: seq<Model>, conn: Connection, time: Value) returns (r: Result<seq<Model>>, ghost done: nat)
      requires Saves(kind) && parent !in models
      requires forall i, j :: 0 <= i < j < |models| ==> models[i] != models[j]
      modifies set m | m in models
      ensures done <= |models| && (r.Ok? <==> done == |models|)
      ensures r.Ok? ==> r.value == models
      ensures forall i :: 0 <= i < done ==>
        SavedFrom(models[i], old(models[i].attributes), old(models[i].original), old(models[i].bootable),
                  old(models[i].stored), conn, time)
      ensures done < |models| ==>
        var o := SavedOutcome(kind, parent.attributes, parent.cls, models[done].cls, old(models[done].attributes),
                              old(models[done].original), BootKeys(old(models[done].bootable)), old(models[done].stored), conn, time);
        o.result.Err? && r == Err(o.result.error) && models[done].attributes == o.attributes && models[done].stored == o.stored
      ensures forall i :: done < i < |models| ==>
        models[i].attributes == old(models[i].attributes) && models[i].stored == old(models[i].stored)
      ensures forall i :: 0 <= i < |models| ==>
        models[i].original == old(models[i].original) && models[i].relations == old(models[i].relations) &&
        models[i].bootable == old(models[i].bootable)
      ensures parent.attributes == old(parent.attributes)
    {
      var i := 0;
      while i < |models|
        invariant 0 <= i <= |models|
        invariant parent.attributes == old(parent.attributes)
        invariant forall j :: 0 <= j < i ==>
          SavedFrom(models[j], old(models[j].attributes), old(models[j].original), old(models[j].bootable),
                    old(models[j].stored), conn, time)
        invariant forall j :: i <= j < |models| ==>
          models[j].attributes == old(models[j].attributes) && models[j].stored == old(models[j].stored)
        invariant forall j :: 0 <= j < |models| ==>
          models[j].original == old(models[j].original) && models[j].relations == old(models[j].relations) &&
          models[j].bootable == old(models[j].bootable)
      {
        assert forall j :: 0 <= j < |models| && j != i ==> models[j] != models[i];
        var res := SaveOne(models[i], conn, time);
        if res.Err? {
          return Err(res.error), i;
        }
        i := i + 1;
      }
      return Ok(models), i;
    }

    /** addLazyConditions (HasMany): restrict the plain foreign key to the
        distinct other-key values of the given models. */
    method AddLazyConditions(models: seq<Model>)
      requires kind.HasMany?
      modifies query
      ensures query.clauses == old(query.clauses) +
        [Clause.Where(Condition(Plain(kind.foreignKey), "IN",
                                InValues(VList(ValuesOf(Unique(KeyValues(models, Some(kind.otherKey)))))),
                                query.escapeValue, query.conn.escape))]
      ensures query.Settings() == old(query.Settings())
    {
      var keys := Unique(KeyValues(models, Some(kind.otherKey)));
      var _ := query.WhereIn(Plain(kind.foreignKey), VList(ValuesOf(keys)));
    }
  }

  /** The classes a relation method may name, and the namespace resolution
      returnAppropriateNamespace performs. */
  datatype Schema = Schema(classes: map<string, ModelClass>, resolve: string -> string)

  /** The class named by a relation's target, or the error `new $class`
      raises when there is none. */
  function Target(schema: Schema, name: string): Result<ModelClass> {
    if name in schema.classes then Ok(schema.classes[name]) else Err(LogicError)
  }

  /** The relation factories of Model: the related class and the descriptor
      kind a relation method builds, with their defaulting rules. An omitted
      foreign key of hasOne/hasMany comes from a getForeignKey the model
      does not define, which answers null through the model's method
      forwarding, so the key is empty; belongsToMany hands that null to a
      string parameter, which is a type error. */
  function KindOf(spec: RelationSpec, parent: ModelClass, attrs: map<string, Value>, schema: Schema): (r: Result<(ModelClass, Kind)>)
    requires !spec.PlainMethod?
  {
    match spec
    case HasOneMethod(t, fk, ok) =>
      if t !in schema.classes then Err(LogicError)
      else
        var c := schema.classes[t];
        Ok((c, HasOne(TableOf(c) + "." + OrDefault(fk, ""), OrDefault(ok, parent.primaryKey))))
    case HasManyMethod(t, fk, ok) =>
      if t !in schema.classes then Err(LogicError)
      else
        var c := schema.classes[t];
        Ok((c, HasMany(TableOf(c) + "." + OrDefault(fk, ""), OrDefault(ok, parent.primaryKey))))
    case BelongsToMethod(t, fk, ok, relation) =>
      if t !in schema.classes then Err(LogicError)
      else
        var c := schema.classes[t];
        var foreign := if fk.None? then relation + "_id" else fk.value;
        Ok((c, BelongsTo(foreign, OrDefault(ok, c.primaryKey))))
    case BelongsToManyMethod(t, pivot, first, second) =>
      if t !in schema.classes then Err(LogicError)
      else if !(first.Some? && TruthyString(first.value)) || !(second.Some? && TruthyString(second.value)) then Err(TypeError)
      else
        var c := schema.classes[t];
        var table := if pivot.None? then JoinTables(parent.name, t) else pivot.value;
        Ok((c, BelongsToMany(table, first.value, second.value)))
    case MorphOneMethod(t, name, typeColumn, idColumn, lk) =>
      var cn := schema.resolve(t);
      if cn !in schema.classes then Err(LogicError)
      else
        var c := schema.classes[cn];
        var cols := MergeStrings(name, typeColumn, idColumn);
        Ok((c, MorphOne(TableOf(c) + "." + cols.0, TableOf(c) + "." + cols.1, OrDefault(lk, parent.primaryKey))))
    case MorphManyMethod(t, name, typeColumn, idColumn, lk) =>
      var cn := schema.resolve(t);
      if cn !in schema.classes then Err(LogicError)
      else
        var c := schema.classes[cn];
        var cols := MergeStrings(name, typeColumn, idColumn);
        Ok((c, MorphMany(TableOf(c) + "." + cols.0, TableOf(c) + "." + cols.1, OrDefault(lk, parent.primaryKey))))
    case MorphToMethod(name, typeColumn, idColumn, caller) =>
      var cols := MergeStrings(OrDefault(name, caller), typeColumn, idColumn);
      match ParentValue(attrs, cols.0)
      case VStr(s) =>
        var cn := if s in schema.classes then s else schema.resolve(UcFirst(Camelize(s)));
        if cn !in schema.classes then Err(LogicError)
        else
          var c := schema.classes[cn];
          Ok((c, MorphTo(cols.1, c.primaryKey, cols.0)))
      case _ => Err(TypeError)
  }

  /** belongsTo without keys joins on `<relation>_id` against the target's
      primary key. */
  lemma BelongsToDefaults(t: string, relation: string, parent: ModelClass, attrs: map<string, Value>, schema: Schema)
    requires t in schema.classes
    ensures KindOf(BelongsToMethod(t, None, None, relation), parent, attrs, schema)
         == Ok((schema.classes[t], BelongsTo(relation + "_id", schema.classes[t].primaryKey)))
  {
  }

  /** hasOne/hasMany qualify the foreign key with the target table; its
      plain form is the key as given, and the other key defaults to the
      parent's primary key. */
  lemma HasForeignKey(spec: RelationSpec, parent: ModelClass, attrs: map<string, Value>, schema: Schema)
    requires spec.HasOneMethod? || spec.HasManyMethod?
    requires spec.target in schema.classes && spec.foreignKey.Some? && TruthyString(spec.foreignKey.value)
    requires '.' !in spec.foreignKey.value
    ensures var r := KindOf(spec, parent, attrs, schema);
      r.Ok? && r.value.1.foreignKey == TableOf(schema.classes[spec.target]) + "." + spec.foreignKey.value &&
      Plain(r.value.1.foreignKey) == spec.foreignKey.value
    ensures spec.otherKey.None? ==> KindOf(spec, parent, attrs, schema).value.1.otherKey == parent.primaryKey
  {
    LastSegmentQualified(TableOf(schema.classes[spec.target]), spec.foreignKey.value, '.');
  }

  /** morphOne/morphMany without column names use `<name>_type` and
      `<name>_id` on the target table, and their plain forms are those
      names. */
  lemma MorphColumns(spec: RelationSpec, parent: ModelClass, attrs: map<string, Value>, schema: Schema)
    requires spec.MorphOneMethod? || spec.MorphManyMethod?
    requires spec.typeColumn.None? && spec.idColumn.None? && '.' !in spec.name
    requires schema.resolve(spec.target) in schema.classes
    ensures var r := KindOf(spec, parent, attrs, schema);
      var table := TableOf(schema.classes[schema.resolve(spec.target)]);
      r.Ok? && r.value.1.typeColumn == table + "." + spec.name + "_type" &&
      r.value.1.idColumn == table + "." + spec.name + "_id" &&
      Plain(r.value.1.typeColumn) == spec.name + "_type" && Plain(r.value.1.idColumn) == spec.name + "_id"
  {
    var table := TableOf(schema.classes[schema.resolve(spec.target)]);
    assert '.' !in spec.name + "_type" && '.' !in spec.name + "_id";
    LastSegmentQualified(table, spec.name + "_type", '.');
    LastSegmentQualified(table, spec.name + "_id", '.');
  }

  /** morphTo targets the class the parent's type column names (directly,
      or after camel-casing and namespace resolution), joins on the target's
      primary key, and fails on a type value that is not a string. */
  lemma MorphToTarget(name: string, caller: string, parent: ModelClass, attrs: map<string, Value>, schema: Schema)
    requires TruthyString(name)
    ensures var r := KindOf(MorphToMethod(Some(name), None, None, caller), parent, attrs, schema);
      var v := ParentValue(attrs, name + "_type");
      (v.VStr? && v.s in schema.classes ==>
        r == Ok((schema.classes[v.s], MorphTo(name + "_id", schema.classes[v.s].primaryKey, name + "_type")))) &&
      (!v.VStr? ==> r == Err(TypeError))
  {
  }

  /** makes the descriptor a relation method returns, with a fresh builder
      on a fresh instance of the related class. */
  method Relate(spec: RelationSpec, parent: Model, schema: Schema, conn: Connection) returns (r: Result<Relation>)
    requires !spec.PlainMethod?
    ensures r.Ok? <==> KindOf(spec, parent.cls, parent.attributes, schema).Ok?
    ensures r.Err? ==> r.error == KindOf(spec, parent.cls, parent.attributes, schema).error
    ensures r.Ok? ==>
      var made := KindOf(spec, parent.cls, parent.attributes, schema).value;
      fresh(r.value) && fresh(r.value.query) && fresh(r.value.query.model) &&
      r.value.kind == made.1 && r.value.parent == parent && r.value.query.model.cls == made.0 &&
      r.value.query.conn == conn && r.value.query.table == TableOf(made.0) &&
      r.value.query.Settings() == (true, false, false, []) &&
      r.value.query.clauses == BaseConditions(made.1, parent.attributes, parent.cls, made.0, true, conn.escape) &&
      r.value.query.model.attributes == map[] && !r.value.query.model.stored
  {
    var made := KindOf(spec, parent.cls, parent.attributes, schema);
    if made.Err? {
      return Err(made.error);
    }
    var instance := new Model(made.value.0);
    var query := new Builder(conn, instance);
    var relation := new Relation(made.value.1, query, parent);
    return Ok(relation);
  }
}
