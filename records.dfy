/** The model's attribute store and dirty tracker, its mass-assignment and
    output filtering, and the naming conventions (table names, pivot tables,
    polymorphic columns) the model class derives from its class name. */
module Records {
  import opened Values
  import opened Str
  import opened Inflect
  import opened Collections
  import opened Sql

  /** What a relation method of a model class returns: the relation factory it
      calls, with the arguments it passes (None where it leaves the default),
      or something that is not a relation. Target classes are named; the
      schema maps names to classes. */
  datatype RelationSpec =
    | HasOneMethod(target: string, foreignKey: Option<string>, otherKey: Option<string>)
    | HasManyMethod(target: string, foreignKey: Option<string>, otherKey: Option<string>)
    | BelongsToMethod(target: string, foreignKey: Option<string>, otherKey: Option<string>, relation: string)
    | BelongsToManyMethod(target: string, pivot: Option<string>, firstKey: Option<string>, secondKey: Option<string>)
    | MorphOneMethod(target: string, name: string, typeColumn: Option<string>, idColumn: Option<string>, localKey: Option<string>)
    | MorphManyMethod(target: string, name: string, typeColumn: Option<string>, idColumn: Option<string>, localKey: Option<string>)
    | MorphToMethod(morphName: Option<string>, typeColumn: Option<string>, idColumn: Option<string>, caller: string)
    | PlainMethod(result: Value)

  /** The static configuration of a model class. */
  datatype ModelClass = ModelClass(
    name: string,                      // the fully qualified class name
    table: Option<string>,
    primaryKey: string,
    deleteKey: string,
    allowedFields: seq<string>,
    protectFields: bool,
    hidden: seq<string>,
    useTimestamps: bool,
    methods: map<string, RelationSpec>)

  /** A loaded relation: the model, or the collection of models, the database
      returns for the query, each hydrated with the nested eager-load request;
      or no model, when a single-shaped relation found no row. */
  datatype Related =
    | OneModel(query: Query, nested: seq<(Key, Entry)>)
    | ManyModels(query: Query, nested: seq<(Key, Entry)>)
    | NoModel

  const CreatedAt: string := "created_at"
  const UpdatedAt: string := "updated_at"

  /** originalIsNumericallyEquivalent: both numeric and with byte-equal string
      forms. */
  predicate NumericallyEquivalent(current: Value, original: Value) {
    IsNumeric(current) && IsNumeric(original) && StringForm(current) == StringForm(original)
  }

  /** The string keys of an eager-load map. */
  function BootKeys(boot: seq<(Key, Entry)>): set<string> {
    set i | 0 <= i < |boot| && boot[i].0.StrKey? :: boot[i].0.s
  }

  /** Whether getDirty reports key k. */
  predicate DirtyKey(attrs: map<string, Value>, original: map<string, Value>, boot: set<string>, k: string)
    requires k in attrs
  {
    k !in boot &&
    (k !in original || (attrs[k] != original[k] && !NumericallyEquivalent(attrs[k], original[k])))
  }

  /** The change set getDirty computes. */
  function DirtyOf(attrs: map<string, Value>, original: map<string, Value>, boot: set<string>): (d: map<string, Value>)
    ensures forall k :: k in d <==> k in attrs && DirtyKey(attrs, original, boot, k)
    ensures forall k :: k in d ==> d[k] == attrs[k]
  {
    map k | k in attrs && DirtyKey(attrs, original, boot, k) :: attrs[k]
  }

  /** Right after a snapshot nothing is dirty. */
  lemma CleanAfterSync(attrs: map<string, Value>, boot: set<string>)
    ensures DirtyOf(attrs, attrs, boot) == map[]
  {
    assert forall k :: k !in DirtyOf(attrs, attrs, boot);
  }

  /** An eager-loaded key is never dirty; a key the snapshot lacks is dirty
      with its current value. */
  lemma DirtyKeys(attrs: map<string, Value>, original: map<string, Value>, boot: set<string>, k: string)
    ensures k in boot ==> k !in DirtyOf(attrs, original, boot)
    ensures k !in boot && k in attrs && k !in original ==> DirtyOf(attrs, original, boot)[k] == attrs[k]
  {
  }

  /** `3` against `"3"` is clean; `"3.0"` against `"3"` is dirty. */
  lemma NumericComparison()
    ensures DirtyOf(map["n" := VInt(3)], map["n" := VStr("3")], {}) == map[]
    ensures DirtyOf(map["n" := VStr("3.0")], map["n" := VStr("3")], {}) == map["n" := VStr("3.0")]
  {
    assert IntToString(3) == "3" by {
      assert NatToString(3) == "3";
    }
    assert IsNumericString("3") by {
      assert LeadingDigits("3") == 1;
    }
    assert IsNumericString("3.0") by {
      assert LeadingDigits("3.0") == 1;
      assert "3.0"[2..] == "0";
      assert LeadingDigits("0") == 1;
    }
    assert NumericallyEquivalent(VInt(3), VStr("3"));
    assert !NumericallyEquivalent(VStr("3.0"), VStr("3"));
  }

  /** One step of fillModelWithSingle when it does not throw: a key is
      assigned when the allow-list is empty (and protection is off) or lists
      it. */
  function FillStep(attrs: map<string, Value>, e: (string, Value), allowed: seq<string>): map<string, Value> {
    if allowed == [] || e.0 in allowed then attrs[e.0 := e.1] else attrs
  }

  /** The attributes after assigning every entry of the input in order. */
  function Filled(attrs: map<string, Value>, input: seq<(string, Value)>, allowed: seq<string>): map<string, Value>
  {
    if input == [] then attrs
    else FillStep(Filled(attrs, input[..|input| - 1], allowed), input[|input| - 1], allowed)
  }

  /** Mass assignment under an allow-list: keys outside the list keep their
      old value (or stay absent), and every listed key of the input takes
      its input value. */
  lemma {:induction false} FilledKeys(attrs: map<string, Value>, input: seq<(string, Value)>, allowed: seq<string>, k: string)
    requires forall i, j :: 0 <= i < j < |input| ==> input[i].0 != input[j].0
    ensures allowed != [] && k !in allowed ==>
      (k in Filled(attrs, input, allowed) <==> k in attrs) &&
      (k in attrs ==> Filled(attrs, input, allowed)[k] == attrs[k])
    ensures forall j :: 0 <= j < |input| && input[j].0 == k && (allowed == [] || k in allowed) ==>
      k in Filled(attrs, input, allowed) && Filled(attrs, input, allowed)[k] == input[j].1
    decreases |input|
  {
    if input != [] {
      var init := input[..|input| - 1];
      FilledKeys(attrs, init, allowed, k);
      forall j | 0 <= j < |init| && init[j].0 == k && (allowed == [] || k in allowed)
        ensures input[|input| - 1].0 != k
      {
        assert init[j] == input[j];
      }
      forall j | 0 <= j < |input| - 1
        ensures input[j] == init[j]
      {
      }
    }
  }

  /** The visible part of a serialised row: entries whose key is not hidden,
      in their order. */
  function Visible(row: seq<(string, Value)>, hidden: seq<string>): (r: seq<(string, Value)>)
    ensures forall e :: e in r <==> e in row && e.0 !in hidden
    ensures |r| <= |row|
  {
    if row == [] then []
    else
      var last := if row[|row| - 1].0 in hidden then [] else [row[|row| - 1]];
      Visible(row[..|row| - 1], hidden) + last
  }

  /** The attributes after setTimestamps: `updated_at` takes the time unless
      it is dirty, and on an unsaved record `created_at` does too, unless
      dirty. */
  function Stamped(attrs: map<string, Value>, dirty: map<string, Value>, stored: bool, time: Value): map<string, Value> {
    var a := if UpdatedAt in dirty then attrs else attrs[UpdatedAt := time];
    if !stored && CreatedAt !in dirty then a[CreatedAt := time] else a
  }

  /** Stamping never overwrites a pending change: every key dirty before is
      dirty after, with the same value, and only the two timestamp columns
      can change. */
  lemma StampKeepsDirty(attrs: map<string, Value>, original: map<string, Value>, boot: set<string>, stored: bool, time: Value)
    ensures var d := DirtyOf(attrs, original, boot);
      var after := DirtyOf(Stamped(attrs, d, stored, time), original, boot);
      forall k :: k in d ==> k in after && after[k] == d[k]
    ensures forall k :: k != UpdatedAt && k != CreatedAt ==>
      (k in attrs <==> k in Stamped(attrs, DirtyOf(attrs, original, boot), stored, time)) &&
      (k in attrs ==> Stamped(attrs, DirtyOf(attrs, original, boot), stored, time)[k] == attrs[k])
  {
    var d := DirtyOf(attrs, original, boot);
    var s := Stamped(attrs, d, stored, time);
    forall k | k in d
      ensures k in s && s[k] == attrs[k]
    {
    }
  }

  /** ASCII byte order on strings, as strcmp sorts them. */
  predicate StrLeq(a: string, b: string) {
    a == [] || (b != [] && (a[0] < b[0] || (a[0] == b[0] && StrLeq(a[1..], b[1..]))))
  }

  lemma {:induction false} StrLeqTotal(a: string, b: string)
    ensures StrLeq(a, b) || StrLeq(b, a)
    ensures StrLeq(a, b) && StrLeq(b, a) ==> a == b
  {
    if a != [] && b != [] && a[0] == b[0] {
      StrLeqTotal(a[1..], b[1..]);
      assert a == [a[0]] + a[1..] && b == [b[0]] + b[1..];
    }
  }

  /** joinTables: the lower-cased base names of the two classes, sorted and
      joined with an underscore. */
  function JoinTables(thisClass: string, otherClass: string): (r: string)
  {
    var mine := ToLower(ClassBaseName(thisClass));
    var theirs := ToLower(ClassBaseName(otherClass));
    var sorted := if StrLeq(theirs, mine) then [theirs, mine] else [mine, theirs];
    ToLower(sorted[0] + "_" + sorted[1])
  }

  /** The pivot name is the same from either side, and is the smaller
      lower-cased base name, an underscore and the larger. */
  lemma JoinTablesSymmetric(a: string, b: string)
    ensures JoinTables(a, b) == JoinTables(b, a)
    ensures var x := ToLower(ClassBaseName(a)); var y := ToLower(ClassBaseName(b));
      JoinTables(a, b) == ToLower(if StrLeq(x, y) then x + "_" + y else y + "_" + x)
  {
    var x := ToLower(ClassBaseName(a));
    var y := ToLower(ClassBaseName(b));
    StrLeqTotal(x, y);
  }

  /** getMergeStrings: the type and id column names, `<name>_type` and
      `<name>_id` unless given (a falsy argument counts as not given). */
  function MergeStrings(name: string, typeColumn: Option<string>, idColumn: Option<string>): (r: (string, string))
    ensures !(typeColumn.Some? && TruthyString(typeColumn.value)) ==> r.0 == name + "_type"
    ensures !(idColumn.Some? && TruthyString(idColumn.value)) ==> r.1 == name + "_id"
    ensures typeColumn.Some? && TruthyString(typeColumn.value) ==> r.0 == typeColumn.value
    ensures idColumn.Some? && TruthyString(idColumn.value) ==> r.1 == idColumn.value
  {
    (OrDefault(typeColumn, name + "_type"), OrDefault(idColumn, name + "_id"))
  }

  /** getTable: the configured table, or the plural of the snake-cased class
      base name (snakeCase is applied twice, as the source does). */
  function TableOf(c: ModelClass): string {
    match c.table
    case Some(t) => t
    case None => Pluralize(SnakeCase(SnakeCase(ClassBaseName(c.name))))
  }

  /** A class `N\Word` whose base name is a PascalCase word is stored in
      the plural of its snake form: `App\UserLog` in the plural of
      `user_log`. */
  lemma DefaultTable(c: ModelClass, ns: string, word: string)
    requires c.table.None? && c.name == ns + "\\" + word
    requires '/' !in ns && PascalWord(word)
    ensures TableOf(c) == Pluralize([Lower(word[0])] + Underscored(word[1..]))
  {
    assert '\\' !in word && '/' !in word by {
      forall i | 0 <= i < |word| ensures word[i] != '\\' && word[i] != '/' {
        LettersAt(word, i);
      }
    }
    ClassBaseNameQualified(ns, word);
    SnakePascal(word);
  }

  /** A model instance: its attributes, the snapshot taken at the last sync,
      the relations and eager-load entries attached to it, and whether it is
      stored. */
  class Model {
    const cls: ModelClass
    var attributes: map<string, Value>
    var original: map<string, Value>
    var relations: map<string, Related>
    var bootable: seq<(Key, Entry)>
    var stored: bool

    /** `new static()`: a fresh, empty, unsaved instance. */
    constructor(c: ModelClass)
      ensures cls == c && attributes == map[] && original == map[]
      ensures relations == map[] && bootable == [] && !stored
    {
      cls := c;
      attributes := map[];
      original := map[];
      relations := map[];
      bootable := [];
      stored := false;
    }

    /** The change set getDirty computes over the current state. */
    function Dirty(): map<string, Value>
      reads this
    {
      DirtyOf(attributes, original, BootKeys(bootable))
    }

    /** getAttribute for a key held in the attributes, null otherwise. */
    function AttributeOrNull(k: string): (v: Value)
      reads this
      ensures k in attributes ==> v == attributes[k]
      ensures k !in attributes ==> v == VNull
    {
      if k in attributes then attributes[k] else VNull
    }

    /** syncAttributes. */
    method SyncAttributes()
      modifies this
      ensures original == attributes && attributes == old(attributes)
      ensures relations == old(relations) && bootable == old(bootable) && stored == old(stored)
      ensures Dirty() == map[]
    {
      original := attributes;
      CleanAfterSync(attributes, BootKeys(bootable));
    }

    /** setAttribute. */
    method SetAttribute(k: string, v: Value)
      modifies this
      ensures attributes == old(attributes)[k := v]
      ensures original == old(original) && relations == old(relations)
      ensures bootable == old(bootable) && stored == old(stored)
    {
      attributes := attributes[k := v];
    }

    /** setRawAttributes: replaces the attributes, and with `sync` also the
        snapshot. */
    method SetRawAttributes(attrs: map<string, Value>, sync: bool)
      modifies this
      ensures attributes == attrs
      ensures original == if sync then attrs else old(original)
      ensures relations == old(relations) && bootable == old(bootable) && stored == old(stored)
      ensures sync ==> Dirty() == map[]
    {
      attributes := attrs;
      if sync {
        SyncAttributes();
      }
    }

    /** getDirty: every attribute not eager-loaded that is new since the
        snapshot or changed other than to a numerically equivalent value. */
    method GetDirty() returns (dirty: map<string, Value>)
      ensures dirty == Dirty()
    {
      var boot := BootKeys(bootable);
      dirty := map[];
      var todo := attributes.Keys;
      while todo != {}
        invariant todo <= attributes.Keys
        invariant forall k :: k in dirty <==> k in attributes && k !in todo && DirtyKey(attributes, original, boot, k)
        invariant forall k :: k in dirty ==> dirty[k] == attributes[k]
        decreases todo
      {
        var k :| k in todo;
        if k !in boot {
          if k !in original {
            dirty := dirty[k := attributes[k]];
          } else if attributes[k] != original[k] && !NumericallyEquivalent(attributes[k], original[k]) {
            dirty := dirty[k := attributes[k]];
          }
        }
        todo := todo - {k};
      }
      assert dirty.Keys == Dirty().Keys;
    }

    /** isDirty(): with no keys, whether anything is dirty; with keys, whether
        one of them is. */
    method IsDirty(keys: Option<seq<string>>) returns (b: bool)
      ensures keys.None? ==> (b <==> Dirty() != map[])
      ensures keys.Some? ==> (b <==> exists i :: 0 <= i < |keys.value| && keys.value[i] in Dirty())
    {
      var dirty := GetDirty();
      if keys.None? {
        return |dirty| > 0;
      }
      var ks := keys.value;
      var i := 0;
      while i < |ks|
        invariant 0 <= i <= |ks|
        invariant forall j :: 0 <= j < i ==> ks[j] !in dirty
      {
        if ks[i] in dirty {
          return true;
        }
        i := i + 1;
      }
      return false;
    }

    /** fillModelWithSingle: with an allow-list, listed keys are assigned and
        the rest dropped; with none, every key is assigned when protection is
        off, and the first key throws when it is on. */
    method FillModelWithSingle(input: seq<(string, Value)>) returns (err: Option<Error>)
      modifies this
      ensures cls.allowedFields != [] || !cls.protectFields ==>
        err.None? && attributes == Filled(old(attributes), input, cls.allowedFields)
      ensures cls.allowedFields == [] && cls.protectFields ==>
        (err.Some? <==> input != []) && attributes == old(attributes)
      ensures err.Some? ==> err.value == MassAssignmentError
      ensures original == old(original) && relations == old(relations)
      ensures bootable == old(bootable) && stored == old(stored)
    {
      var i := 0;
      while i < |input|
        invariant 0 <= i <= |input|
        invariant attributes == Filled(old(attributes), input[..i], cls.allowedFields)
        invariant cls.allowedFields == [] && cls.protectFields ==> i == 0
        invariant original == old(original) && relations == old(relations)
        invariant bootable == old(bootable) && stored == old(stored)
      {
        var (k, v) := input[i];
        if cls.allowedFields != [] {
          if k in cls.allowedFields {
            attributes := attributes[k := v];
          }
        } else if !cls.protectFields {
          attributes := attributes[k := v];
        } else {
          return Some(MassAssignmentError);
        }
        assert input[..i + 1][..i] == input[..i];
        i := i + 1;
      }
      assert input[..i] == input;
      return None;
    }

    /** removeHiddenFields. */
    method RemoveHiddenFields(row: seq<(string, Value)>) returns (items: seq<(string, Value)>)
      ensures items == Visible(row, cls.hidden)
    {
      items := [];
      var i := 0;
      while i < |row|
        invariant 0 <= i <= |row|
        invariant items == Visible(row[..i], cls.hidden)
      {
        assert row[..i + 1][..i] == row[..i];
        if row[i].0 !in cls.hidden {
          items := items + [row[i]];
        }
        i := i + 1;
      }
      assert row[..i] == row;
    }

    /** setTimestamps: `updated_at` takes the time unless it is already
        dirty; on an unsaved record `created_at` does too, unless dirty. */
    method SetTimestamps(time: Value)
      modifies this
      ensures attributes == Stamped(old(attributes), old(Dirty()), old(stored), time)
      ensures original == old(original) && relations == old(relations)
      ensures bootable == old(bootable) && stored == old(stored)
    {
      ghost var before := Dirty();
      var updatedDirty := IsDirty(Some([UpdatedAt]));
      assert updatedDirty <==> UpdatedAt in before by {
        assert [UpdatedAt][0] == UpdatedAt;
      }
      if !updatedDirty {
        SetAttribute(UpdatedAt, time);
      }
      assert CreatedAt in Dirty() <==> CreatedAt in before;
      var createdDirty := IsDirty(Some([CreatedAt]));
      assert createdDirty <==> CreatedAt in before by {
        assert [CreatedAt][0] == CreatedAt;
      }
      if !stored && !createdDirty {
        SetAttribute(CreatedAt, time);
      }
    }
  }

  /** newInstance(attributes, exists): `new static(attributes)`, whose
      constructor takes the (empty) snapshot and then mass-assigns the
      attributes, which throws under protection without an allow-list;
      then the exists flag is set. */
  method NewInstance(c: ModelClass, attrs: seq<(string, Value)>, stored: bool) returns (r: Result<Model>)
    ensures r.Ok? <==> c.allowedFields != [] || !c.protectFields || attrs == []
    ensures r.Err? ==> r.error == MassAssignmentError
    ensures r.Ok? ==> fresh(r.value) && r.value.cls == c && r.value.stored == stored
    ensures r.Ok? ==> r.value.attributes == Filled(map[], attrs, c.allowedFields) && r.value.original == map[]
    ensures r.Ok? ==> r.value.relations == map[] && r.value.bootable == []
  {
    var m := new Model(c);
    m.SyncAttributes();
    var err := m.FillModelWithSingle(attrs);
    if err.Some? {
      return Err(err.value);
    }
    m.stored := stored;
    return Ok(m);
  }
}
