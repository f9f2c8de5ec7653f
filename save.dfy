/** Saving a model: save chooses between inserting a new record and updating
    a stored one. Each path is specified by a function of the model's state
    before the call (its outcome: the result, the new attributes, whether the
    record is now stored, and the clauses sent to the database). The methods
    run it through a fresh query builder on the model. */
module Saving {
  import opened Values
  import opened Sql
  import opened Records
  import opened Queries

  /** The options the option filter keeps: those whose key is not, compared
      strictly, one of the attribute VALUES. The filter is written this way
      in the source and is modelled as written. */
  function KeptOptions(options: seq<(string, Value)>, attrs: map<string, Value>): (r: seq<(string, Value)>)
    ensures forall e :: e in r <==> e in options && VStr(e.0) !in attrs.Values
  {
    if options == [] then []
    else
      var e := options[|options| - 1];
      var last := if VStr(e.0) in attrs.Values then [] else [e];
      KeptOptions(options[..|options| - 1], attrs) + last
  }

  /** array_merge of string-keyed arrays: later entries overwrite. */
  function Overlay(attrs: map<string, Value>, entries: seq<(string, Value)>): (r: map<string, Value>)
    ensures r.Keys == attrs.Keys + set e | e in entries :: e.0
  {
    if entries == [] then attrs
    else
      var e := entries[|entries| - 1];
      Overlay(attrs, entries[..|entries| - 1])[e.0 := e.1]
  }

  /** After an overlay a written key holds its last written value, and
      every other key what it held. */
  lemma {:induction false} OverlayLookup(attrs: map<string, Value>, entries: seq<(string, Value)>, k: string)
    ensures k in Overlay(map[], entries) ==> Overlay(attrs, entries)[k] == Overlay(map[], entries)[k]
    ensures k !in Overlay(map[], entries) ==>
      (k in Overlay(attrs, entries) <==> k in attrs) && (k in attrs ==> Overlay(attrs, entries)[k] == attrs[k])
    decreases |entries|
  {
    if entries != [] {
      OverlayLookup(attrs, entries[..|entries| - 1], k);
    }
  }

  /** The attributes once the options are merged in (none: unchanged). */
  function WithOptions(attrs: map<string, Value>, options: seq<(string, Value)>): map<string, Value> {
    if options == [] then attrs else Overlay(attrs, KeptOptions(options, attrs))
  }

  /** The options merged in, at key k: an option whose key is one of the
      attribute values is dropped, so k keeps its attribute (or stays
      absent); otherwise k takes the value of the last option under k, and
      without such an option keeps its attribute. */
  lemma OptionFilter(attrs: map<string, Value>, options: seq<(string, Value)>, k: string)
    requires options != []
    ensures var r := WithOptions(attrs, options);
      VStr(k) in attrs.Values ==> (k in r <==> k in attrs) && (k in attrs ==> r[k] == attrs[k])
    ensures var r := WithOptions(attrs, options); var given := Overlay(map[], options);
      VStr(k) !in attrs.Values ==>
        (k in r <==> k in attrs || k in given) &&
        (k in given ==> r[k] == given[k]) &&
        (k !in given && k in attrs ==> r[k] == attrs[k])
  {
    var kept := KeptOptions(options, attrs);
    OverlayLookup(attrs, kept, k);
    KeptAt(options, attrs, k);
  }

  /** At a key that is not an attribute value, the kept options give what
      all the options give; at one that is, they give nothing. */
  lemma {:induction false} KeptAt(options: seq<(string, Value)>, attrs: map<string, Value>, k: string)
    ensures VStr(k) in attrs.Values ==> k !in Overlay(map[], KeptOptions(options, attrs))
    ensures VStr(k) !in attrs.Values ==>
      (k in Overlay(map[], KeptOptions(options, attrs)) <==> k in Overlay(map[], options)) &&
      (k in Overlay(map[], options) ==> Overlay(map[], KeptOptions(options, attrs))[k] == Overlay(map[], options)[k])
    decreases |options|
  {
    var kept := KeptOptions(options, attrs);
    if VStr(k) !in attrs.Values && options != [] {
      var init := options[..|options| - 1];
      var e := options[|options| - 1];
      KeptAt(init, attrs, k);
      var last := if VStr(e.0) in attrs.Values then [] else [e];
      assert kept == KeptOptions(init, attrs) + last;
      if last != [] {
        assert (KeptOptions(init, attrs) + last)[..|kept| - 1] == KeptOptions(init, attrs);
      } else {
        assert kept == KeptOptions(init, attrs);
        assert e.0 != k;
      }
    }
  }

  /** What a save path produces. */
  datatype Outcome = Outcome(result: Result<bool>, attributes: map<string, Value>, stored: bool, sent: seq<Clause>)

  /** performInsert: timestamps (when enabled), the options merged in, then
      create with every attribute; on success the record is stored and its
      primary key read back from itself (null when it has none). */
  function InsertOutcome(c: ModelClass, attrs: map<string, Value>, original: map<string, Value>, boot: set<string>,
                         stored: bool, conn: Connection, options: seq<(string, Value)>, time: Value): Outcome
  {
    var a0 := if c.useTimestamps then Stamped(attrs, DirtyOf(attrs, original, boot), stored, time) else attrs;
    var payload := WithOptions(a0, options);
    if payload == map[] then Outcome(Err(ModelError), a0, stored, [])
    else match conn.insertId
      case NoInsertId => Outcome(Err(DatabaseError), a0, stored, [Insert(payload)])
      case InsertedId(id) =>
        var a1 := if Truthy(id) then a0[c.primaryKey := id] else a0;
        var pk := if c.primaryKey in a1 then a1[c.primaryKey] else VNull;
        Outcome(Ok(true), a1[c.primaryKey := pk], true, [Insert(payload)])
  }

  /** performUpdate: the options merged in; nothing dirty means false and
      nothing sent; otherwise timestamps (when enabled), then an update of
      exactly the dirty attributes, constrained twice to the current
      primary-key value (once by setKeysForSaveQuery, once by the builder's
      update). The record stays stored and the snapshot is not refreshed. */
  function UpdateOutcome(c: ModelClass, attrs: map<string, Value>, original: map<string, Value>, boot: set<string>,
                         stored: bool, conn: Connection, options: seq<(string, Value)>, time: Value): Outcome
  {
    var a1 := WithOptions(attrs, options);
    if DirtyOf(a1, original, boot) == map[] then Outcome(Ok(false), a1, stored, [])
    else WriteOutcome(c, a1, original, boot, stored, conn, time)
  }

  /** The dirty branch of performUpdate. */
  function WriteOutcome(c: ModelClass, attrs: map<string, Value>, original: map<string, Value>, boot: set<string>,
                        stored: bool, conn: Connection, time: Value): Outcome
  {
    var a2 := if c.useTimestamps then Stamped(attrs, DirtyOf(attrs, original, boot), stored, time) else attrs;
    var pk := if c.primaryKey in a2 then a2[c.primaryKey] else VNull;
    var keyed := [Clause.Where(Condition(c.primaryKey, "=", pk, true, conn.escape))];
    var d2 := DirtyOf(a2, original, boot);
    if d2 == map[] then Outcome(Err(ModelError), a2, stored, keyed)
    else Outcome(Ok(true), a2, stored, keyed + [WhereKey(c.primaryKey, pk), Clause.Update(d2)])
  }

  /** A clean record is not written: false, nothing sent, nothing changed
      when no options are given. */
  lemma CleanUpdateWritesNothing(c: ModelClass, attrs: map<string, Value>, original: map<string, Value>, boot: set<string>,
                                 stored: bool, conn: Connection, time: Value)
    requires DirtyOf(attrs, original, boot) == map[]
    ensures UpdateOutcome(c, attrs, original, boot, stored, conn, [], time) == Outcome(Ok(false), attrs, stored, [])
  {
  }

  /** A dirty record is updated (performUpdate's dirty branch, with the
      options already merged): true, the record stays stored, and the update
      writes every pending change with its value (plus, with timestamps, the
      timestamp columns), constrained to the primary-key value. */
  lemma DirtyUpdateWrites(c: ModelClass, attrs: map<string, Value>, original: map<string, Value>, boot: set<string>,
                          stored: bool, conn: Connection, time: Value)
    requires DirtyOf(attrs, original, boot) != map[]
    ensures var o := WriteOutcome(c, attrs, original, boot, stored, conn, time);
      var pk := if c.primaryKey in o.attributes then o.attributes[c.primaryKey] else VNull;
      o.result == Ok(true) && o.stored == stored &&
      o.sent == [Clause.Where(Condition(c.primaryKey, "=", pk, true, conn.escape)),
                 WhereKey(c.primaryKey, pk), Clause.Update(DirtyOf(o.attributes, original, boot))]
    ensures var o := WriteOutcome(c, attrs, original, boot, stored, conn, time);
      var written := DirtyOf(o.attributes, original, boot);
      forall k :: k in DirtyOf(attrs, original, boot) ==> k in written && written[k] == attrs[k]
  {
    var d := DirtyOf(attrs, original, boot);
    var a2 := if c.useTimestamps then Stamped(attrs, d, stored, time) else attrs;
    WrittenCovers(c.useTimestamps, attrs, original, boot, stored, time);
    var k :| k in d;
    assert k in DirtyOf(a2, original, boot);
  }

  /** The attributes written after the optional stamping still hold every
      pending change. */
  lemma WrittenCovers(stamp: bool, attrs: map<string, Value>, original: map<string, Value>, boot: set<string>,
                      stored: bool, time: Value)
    ensures var d := DirtyOf(attrs, original, boot);
      var a2 := if stamp then Stamped(attrs, d, stored, time) else attrs;
      var written := DirtyOf(a2, original, boot);
      forall k :: k in d ==> k in written && written[k] == attrs[k]
  {
    StampKeepsDirty(attrs, original, boot, stored, time);
  }

  /** An insert stores the record and leaves it with a primary-key
      attribute: the generated id when it is truthy. */
  lemma InsertStoresKey(c: ModelClass, attrs: map<string, Value>, original: map<string, Value>, boot: set<string>,
                        stored: bool, conn: Connection, options: seq<(string, Value)>, time: Value)
    ensures var o := InsertOutcome(c, attrs, original, boot, stored, conn, options, time);
      o.result.Ok? ==> o.stored && c.primaryKey in o.attributes && o.result == Ok(true)
    ensures var o := InsertOutcome(c, attrs, original, boot, stored, conn, options, time);
      o.result.Ok? && conn.insertId.InsertedId? && Truthy(conn.insertId.id) ==>
        o.attributes[c.primaryKey] == conn.insertId.id
    ensures var o := InsertOutcome(c, attrs, original, boot, stored, conn, options, time);
      o.result.Err? ==> o.stored == stored
  {
  }

  /** Inserting a record with nothing to write is refused and sends
      nothing. */
  lemma EmptyInsertRefused(c: ModelClass, original: map<string, Value>, boot: set<string>,
                           stored: bool, conn: Connection, time: Value)
    requires !c.useTimestamps
    ensures InsertOutcome(c, map[], original, boot, stored, conn, [], time) == Outcome(Err(ModelError), map[], stored, [])
  {
  }

  /** Saving without options touches no attribute but the primary key and
      the two timestamp columns, on either path and whatever the outcome. */
  lemma InsertKeepsOtherKeys(c: ModelClass, attrs: map<string, Value>, original: map<string, Value>, boot: set<string>,
                             stored: bool, conn: Connection, time: Value, k: string)
    requires k != c.primaryKey && k != CreatedAt && k != UpdatedAt
    ensures var o := InsertOutcome(c, attrs, original, boot, stored, conn, [], time);
      (k in o.attributes <==> k in attrs) && (k in attrs ==> o.attributes[k] == attrs[k])
  {
    StampKeepsDirty(attrs, original, boot, stored, time);
  }

  lemma UpdateKeepsOtherKeys(c: ModelClass, attrs: map<string, Value>, original: map<string, Value>, boot: set<string>,
                             stored: bool, conn: Connection, time: Value, k: string)
    requires k != c.primaryKey && k != CreatedAt && k != UpdatedAt
    ensures var o := UpdateOutcome(c, attrs, original, boot, stored, conn, [], time);
      (k in o.attributes <==> k in attrs) && (k in attrs ==> o.attributes[k] == attrs[k])
  {
    assert WithOptions(attrs, []) == attrs;
    StampKeepsDirty(attrs, original, boot, stored, time);
  }

  /** performInsert. */
  method PerformInsert(m: Model, conn: Connection, options: seq<(string, Value)>, time: Value)
    returns (r: Result<bool>, sent: seq<Clause>)
    modifies m
    ensures Outcome(r, m.attributes, m.stored, sent) ==
      InsertOutcome(m.cls, old(m.attributes), old(m.original), BootKeys(old(m.bootable)), old(m.stored), conn, options, time)
    ensures m.original == old(m.original) && m.relations == old(m.relations) && m.bootable == old(m.bootable)
  {
    var query := new Builder(conn, m);
    StampIfEnabled(m, time);
    var attributes := WithOptions(m.attributes, options);
    var created := query.Create(attributes);
    sent := query.clauses;
    if created.Err? {
      return created, sent;
    }
    MarkInserted(m);
    return Ok(true), sent;
  }

  /** performUpdate, with setKeysForSaveQuery. */
  method PerformUpdate(m: Model, conn: Connection, options: seq<(string, Value)>, time: Value)
    returns (r: Result<bool>, sent: seq<Clause>)
    modifies m
    ensures Outcome(r, m.attributes, m.stored, sent) ==
      UpdateOutcome(m.cls, old(m.attributes), old(m.original), BootKeys(old(m.bootable)), old(m.stored), conn, options, time)
    ensures m.original == old(m.original) && m.relations == old(m.relations) && m.bootable == old(m.bootable)
  {
    MergeOptions(m, options);
    var dirty := m.GetDirty();
    if |dirty| == 0 {
      assert dirty == map[];
      return Ok(false), [];
    }
    r, sent := WriteChanges(m, conn, time);
  }

  /** updateTimestamps, when the class keeps timestamps. */
  method StampIfEnabled(m: Model, time: Value)
    modifies m
    ensures m.attributes == if m.cls.useTimestamps
      then Stamped(old(m.attributes), DirtyOf(old(m.attributes), old(m.original), BootKeys(old(m.bootable))), old(m.stored), time)
      else old(m.attributes)
    ensures m.original == old(m.original) && m.relations == old(m.relations)
    ensures m.bootable == old(m.bootable) && m.stored == old(m.stored)
  {
    if m.cls.useTimestamps {
      m.SetTimestamps(time);
    }
  }

  /** After a successful insert: the record exists, and the primary key is
      set again from the attributes (null when absent). */
  method MarkInserted(m: Model)
    modifies m
    ensures var pk := m.cls.primaryKey;
      m.attributes == old(m.attributes)[pk := if pk in old(m.attributes) then old(m.attributes)[pk] else VNull]
    ensures m.stored
    ensures m.original == old(m.original) && m.relations == old(m.relations) && m.bootable == old(m.bootable)
  {
    m.stored := true;
    var pk := m.cls.primaryKey;
    m.SetAttribute(pk, m.AttributeOrNull(pk));
  }

  /** The options given to save, merged into the attributes when there are
      any. */
  method MergeOptions(m: Model, options: seq<(string, Value)>)
    modifies m
    ensures m.attributes == WithOptions(old(m.attributes), options)
    ensures m.original == old(m.original) && m.relations == old(m.relations)
    ensures m.bootable == old(m.bootable) && m.stored == old(m.stored)
  {
    if |options| != 0 {
      m.attributes := WithOptions(m.attributes, options);
    }
  }

  /** The dirty branch of performUpdate: timestamps, then the keyed update. */
  method WriteChanges(m: Model, conn: Connection, time: Value) returns (r: Result<bool>, sent: seq<Clause>)
    modifies m
    ensures Outcome(r, m.attributes, m.stored, sent) ==
      WriteOutcome(m.cls, old(m.attributes), old(m.original), BootKeys(old(m.bootable)), old(m.stored), conn, time)
    ensures m.original == old(m.original) && m.relations == old(m.relations) && m.bootable == old(m.bootable)
  {
    StampIfEnabled(m, time);
    var err;
    err, sent := KeyedUpdate(m, conn);
    r := if err.Some? then Err(err.value) else Ok(true);
  }

  /** setKeysForSaveQuery followed by the builder's update with the dirty
      attributes, on a fresh builder: the clauses it sends. */
  method KeyedUpdate(m: Model, conn: Connection) returns (err: Option<Error>, sent: seq<Clause>)
    ensures var pk := m.cls.primaryKey;
      var key := m.AttributeOrNull(pk);
      var keyed := [Clause.Where(Condition(pk, "=", key, true, conn.escape))];
      if m.Dirty() == map[] then err == Some(ModelError) && sent == keyed
      else err.None? && sent == keyed + [WhereKey(pk, key), Clause.Update(m.Dirty())]
  {
    var query := new Builder(conn, m);
    var pk := m.cls.primaryKey;
    query.Where(pk, "=", m.AttributeOrNull(pk));
    var changes := m.GetDirty();
    err := query.Update(changes);
    sent := query.clauses;
  }

  /** save: an update when the record is stored, an insert otherwise. */
  method Save(m: Model, conn: Connection, options: seq<(string, Value)>, time: Value)
    returns (r: Result<bool>, sent: seq<Clause>)
    modifies m
    ensures Outcome(r, m.attributes, m.stored, sent) ==
      if old(m.stored)
      then UpdateOutcome(m.cls, old(m.attributes), old(m.original), BootKeys(old(m.bootable)), old(m.stored), conn, options, time)
      else InsertOutcome(m.cls, old(m.attributes), old(m.original), BootKeys(old(m.bootable)), old(m.stored), conn, options, time)
    ensures m.original == old(m.original) && m.relations == old(m.relations) && m.bootable == old(m.bootable)
  {
    if m.stored {
      r, sent := PerformUpdate(m, conn, options, time);
    } else {
      r, sent := PerformInsert(m, conn, options, time);
    }
  }
}
