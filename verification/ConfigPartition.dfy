/** The cache entry of one object in a partition: rows are read into it and the differences pushed to the consumer. */
module ConfigPartition {
  import opened ColumnKeys
  import opened ConfigSync
  import opened ConfigRows
  import opened ConfigColumns
  import ConfigHistory

  // ---- The field map, in the order of its keys ----

  datatype Field = Field(key: Key, entry: Entry)

  ghost predicate Sorted(w: seq<Field>) {
    forall i, j {:trigger w[i], w[j]} :: 0 <= i < j < |w| ==> Less(w[i].key, w[j].key)
  }

  lemma SortedDistinct(w: seq<Field>)
    requires Sorted(w)
    ensures forall i, j {:trigger w[i], w[j]} :: 0 <= i < j < |w| ==> w[i].key != w[j].key
  {
    forall i, j | 0 <= i < j < |w| ensures w[i].key != w[j].key {
      Irreflexive(w[i].key, w[j].key);
    }
  }

  ghost function ToMap(w: seq<Field>): Fields
    requires Sorted(w)
  {
    SortedDistinct(w);
    map i | 0 <= i < |w| :: w[i].key := w[i].entry
  }

  lemma MapAt(w: seq<Field>, i: nat)
    requires Sorted(w) && i < |w|
    ensures w[i].key in ToMap(w) && ToMap(w)[w[i].key] == w[i].entry
  {
    SortedDistinct(w);
  }

  lemma IndexOf(w: seq<Field>, k: Key) returns (i: nat)
    requires Sorted(w) && k in ToMap(w)
    ensures i < |w| && w[i].key == k && ToMap(w)[k] == w[i].entry
  {
    SortedDistinct(w);
    i :| 0 <= i < |w| && w[i].key == k;
  }

  /** First position whose key is not below k. */
  ghost predicate IsLowerBound(w: seq<Field>, k: Key, i: nat) {
    && i <= |w|
    && (forall j {:trigger w[j]} :: 0 <= j < i ==> Less(w[j].key, k))
    && (i < |w| ==> !Less(w[i].key, k))
  }

  method LowerBound(w: seq<Field>, k: Key) returns (i: nat)
    ensures IsLowerBound(w, k, i)
  {
    i := 0;
    while i < |w| && Less(w[i].key, k)
      invariant i <= |w| && forall j {:trigger w[j]} :: 0 <= j < i ==> Less(w[j].key, k)
    {
      i := i + 1;
    }
  }

  lemma LowerBoundFinds(w: seq<Field>, k: Key, i: nat)
    requires Sorted(w) && IsLowerBound(w, k, i)
    ensures k in ToMap(w) <==> i < |w| && w[i].key == k
  {
    if k in ToMap(w) {
      var j := IndexOf(w, k);
      NotBelowItself(k);
      assert j >= i;
    }
    if i < |w| && w[i].key == k {
      MapAt(w, i);
    }
  }

  lemma NotBelowItself(k: Key)
    ensures !Less(k, k)
  {
    if Less(k, k) {
      Irreflexive(k, k);
    }
  }

  lemma InsertSorted(w: seq<Field>, f: Field, i: nat)
    requires Sorted(w) && IsLowerBound(w, f.key, i) && f.key !in ToMap(w)
    ensures Sorted(w[..i] + [f] + w[i..]) && ToMap(w[..i] + [f] + w[i..]) == ToMap(w)[f.key := f.entry]
  {
    var v := w[..i] + [f] + w[i..];
    forall j | i <= j < |w| ensures Less(f.key, w[j].key) {
      LowerBoundFinds(w, f.key, i);
      Total(f.key, w[i].key);
      if j > i {
        Transitive(f.key, w[i].key, w[j].key);
      }
    }
    assert Inserted(w, f, i, v);
    assert Sorted(v);
    InsertMap(w, f, i, v);
  }

  ghost predicate Inserted(w: seq<Field>, f: Field, i: nat, v: seq<Field>) {
    && i <= |w| && |v| == |w| + 1 && v[i] == f
    && (forall j {:trigger v[j]} :: 0 <= j < i ==> v[j] == w[j])
    && (forall j {:trigger v[j]} :: i < j < |v| ==> v[j] == w[j - 1])
  }

  lemma InsertMap(w: seq<Field>, f: Field, i: nat, v: seq<Field>)
    requires Sorted(w) && Sorted(v) && Inserted(w, f, i, v)
    ensures ToMap(v) == ToMap(w)[f.key := f.entry]
  {
    var m, n := ToMap(v), ToMap(w)[f.key := f.entry];
    forall k | k in m ensures k in n && m[k] == n[k] {
      InsertedHas(w, f, i, v, k);
    }
    MapAt(v, i);
    forall k | k in ToMap(w) ensures k in m {
      InsertedKeeps(w, f, i, v, k);
    }
    SameMap(m, n);
  }

  lemma SameMap(m: Fields, n: Fields)
    requires forall k {:trigger m[k]} :: k in m ==> k in n && m[k] == n[k]
    requires forall k {:trigger k in n} :: k in n ==> k in m
    ensures m == n
  {
  }

  lemma InsertedKeeps(w: seq<Field>, f: Field, i: nat, v: seq<Field>, k: Key)
    requires Sorted(w) && Sorted(v) && Inserted(w, f, i, v) && k in ToMap(w)
    ensures k in ToMap(v)
  {
    var j := IndexOf(w, k);
    var n := if j < i then j else j + 1;
    assert v[n] == w[j];
    MapAt(v, n);
  }

  lemma InsertedHas(w: seq<Field>, f: Field, i: nat, v: seq<Field>, k: Key)
    requires Sorted(w) && Sorted(v) && Inserted(w, f, i, v) && k in ToMap(v)
    ensures if k == f.key then ToMap(v)[k] == f.entry else k in ToMap(w) && ToMap(v)[k] == ToMap(w)[k]
  {
    var j := IndexOf(v, k);
    SortedDistinct(v);
    if j != i {
      MapAt(w, if j < i then j else j - 1);
    }
  }

  lemma UpdateMap(w: seq<Field>, i: nat, e: Entry)
    requires Sorted(w) && i < |w|
    ensures Sorted(w[i := Field(w[i].key, e)]) && ToMap(w[i := Field(w[i].key, e)]) == ToMap(w)[w[i].key := e]
  {
    var v := w[i := Field(w[i].key, e)];
    assert forall j {:trigger v[j]} :: 0 <= j < |v| ==> v[j].key == w[j].key;
    var m, n := ToMap(v), ToMap(w)[w[i].key := e];
    forall k | k in m ensures k in n && m[k] == n[k] {
      UpdatedHas(w, v, i, e, k);
    }
    MapAt(v, i);
    forall k | k in ToMap(w) ensures k in m {
      var j := IndexOf(w, k);
      MapAt(v, j);
    }
    SameMap(m, n);
  }

  lemma UpdatedHas(w: seq<Field>, v: seq<Field>, i: nat, e: Entry, k: Key)
    requires Sorted(w) && Sorted(v) && i < |w| && v == w[i := Field(w[i].key, e)] && k in ToMap(v)
    ensures if k == w[i].key then ToMap(v)[k] == e else k in ToMap(w) && ToMap(v)[k] == ToMap(w)[k]
  {
    var j := IndexOf(v, k);
    SortedDistinct(v);
    assert v[i] == Field(w[i].key, e);
    if j != i {
      assert v[j] == w[j];
      MapAt(w, j);
    }
  }

  /** The fields at the positions from i on, with the flag refreshed cleared before i. */
  lemma DirtyMap(w: seq<Field>, v: seq<Field>)
    requires Sorted(w) && |v| == |w|
    requires forall j {:trigger v[j]} :: 0 <= j < |w| ==> v[j] == Field(w[j].key, Entry(w[j].entry.ts, false))
    ensures Sorted(v) && ToMap(v) == Dirty(ToMap(w))
  {
    var m, n := ToMap(v), Dirty(ToMap(w));
    forall k | k in m ensures k in n && m[k] == n[k] {
      var j := IndexOf(v, k);
      MapAt(w, j);
    }
    forall k | k in n ensures k in m {
      var j := IndexOf(w, k);
      MapAt(v, j);
    }
  }

  // ---- The scan for stale fields of a property ----

  /** The name of the type comes after every key that starts like a property. */
  lemma BeforeType(k: Key)
    requires k != [] && k[0] == 'p'
    ensures Less(k, "type")
  {
  }

  lemma FromLowerBound(w: seq<Field>, g: Key, start: nat, j: nat)
    requires Sorted(w) && IsLowerBound(w, g, start) && start <= j < |w|
    ensures LessEq(g, w[j].key)
  {
    Total(g, w[start].key);
    if g != w[start].key && start < j {
      Transitive(g, w[start].key, w[j].key);
    }
  }

  /** The keys near the name of a property lie between it and the first key that does not start like it. */
  lemma InScan(w: seq<Field>, g: Key, start: nat, stop: nat, j: nat)
    requires Sorted(w) && IsLowerBound(w, g, start) && start <= stop < |w| && j < |w| && Near(g, w[j].key)
    requires !HasPrefix(w[stop].key, g[..|g| - 1])
    ensures start <= j < stop
  {
    if j < start {
      NotBelowItself(g);
      Irreflexive(w[j].key, g);
    }
    if j >= stop {
      FromLowerBound(w, g, start, stop);
      Between(g[..|g| - 1], g, w[stop].key, w[j].key);
    }
  }

  const NO_CONTEXT := Context(map[], {}, {}, "", false, false, false)

  /** The cache entry of an object, and the consumer's configuration of the object. */
  class CachedObject {
    var fields: seq<Field>
    var consumer: Config
    var retry: bool

    constructor ()
      ensures fields == [] && consumer == map[] && fresh(this)
    {
      fields, consumer, retry := [], map[], false;
    }

    method MarkCacheDirty()
      requires Sorted(fields)
      modifies this`fields
      ensures Sorted(fields) && ToMap(fields) == Dirty(ToMap(old(fields)))
    {
      var i := 0;
      while i < |fields|
        invariant i <= |fields| == |old(fields)|
        invariant forall j {:trigger fields[j]} :: 0 <= j < i ==>
          fields[j] == Field(old(fields)[j].key, Entry(old(fields)[j].entry.ts, false))
        invariant forall j {:trigger fields[j]} :: i <= j < |fields| ==> fields[j] == old(fields)[j]
      {
        fields := fields[i := Field(fields[i].key, Entry(fields[i].entry.ts, false))];
        i := i + 1;
      }
      DirtyMap(old(fields), fields);
    }

    /** Stores the entry of a key. */
    method Put(key: Key, entry: Entry, i: nat)
      requires Sorted(fields) && IsLowerBound(fields, key, i)
      modifies this`fields
      ensures Sorted(fields) && ToMap(fields) == ToMap(old(fields))[key := entry]
    {
      LowerBoundFinds(fields, key, i);
      if i < |fields| && fields[i].key == key {
        UpdateMap(fields, i, entry);
        fields := fields[i := Field(key, entry)];
      } else {
        InsertSorted(fields, Field(key, entry), i);
        fields := fields[..i] + [Field(key, entry)] + fields[i..];
      }
    }

    /** Stores the timestamp of a column; tells whether the column is new or changed. */
    method Touch(c: Column, ghost f: Fields, ghost row: map<Key, Column>) returns (changed: bool)
      requires Sorted(fields) && ToMap(fields) == Stored(f, row) && c.key !in row
      modifies this`fields
      ensures Sorted(fields) && ToMap(fields) == Stored(f, row[c.key := c])
      ensures changed <==> Changed(f, c)
    {
      var i := LowerBound(fields, c.key);
      LowerBoundFinds(fields, c.key, i);
      StoreStep(f, row, c);
      if i < |fields| && fields[i].key == c.key {
        MapAt(fields, i);
        var e := fields[i].entry;
        if !IsField(c.key) {
          Put(c.key, Entry(e.ts, true), i);
          return true;
        }
        Put(c.key, Entry(c.ts, true), i);
        return !(c.ts != 0 && e.ts == c.ts);
      }
      Put(c.key, Entry(c.ts, true), i);
      return true;
    }

    /** Stores a column; tells whether it is to be pushed at once, and collects what is needed for the others. */
    method StoreKeyIfUpdated(c: Column, names: Names, x: Context, ghost f: Fields, ghost row: map<Key, Column>)
      returns (push: bool, y: Context)
      requires Sorted(fields) && ToMap(fields) == Stored(f, row) && c.key !in row
      modifies this`fields
      ensures Sorted(fields)
      ensures push <==> Accepted(c, names) && !IsListMap(c.key) && Changed(f, c)
      ensures !Accepted(c, names) ==> fields == old(fields)
      ensures !Accepted(c, names) ==>
        y == x.(draft := x.draft || IsDraft(c), unknown := x.unknown || IsUnknown(c, names))
      ensures Accepted(c, names) ==> ToMap(fields) == Stored(f, row[c.key := c])
      ensures Accepted(c, names) ==>
        y == Collect(f, x, c, names).(objType := TypeAfter(x.objType, c), named := x.named || c.key == "fq_name")
    {
      y := x;
      if IsSkipped(c.key) {
        if c.key[FirstColon(c.key) + 1..] == "draft_mode_state" && c.value != "" {
          y := y.(draft := true);
        }
        return false, y;
      }
      if IsLink(c.key) && names(LinkUuid(c.key)).None? {
        return false, y.(unknown := true);
      }
      push, y := StoreAccepted(c, names, x, f, row);
    }

    method StoreAccepted(c: Column, names: Names, x: Context, ghost f: Fields, ghost row: map<Key, Column>)
      returns (push: bool, y: Context)
      requires Sorted(fields) && ToMap(fields) == Stored(f, row) && c.key !in row && Accepted(c, names)
      modifies this`fields
      ensures Sorted(fields) && ToMap(fields) == Stored(f, row[c.key := c])
      ensures push <==> !IsListMap(c.key) && Changed(f, c)
      ensures y == Collect(f, x, c, names).(objType := TypeAfter(x.objType, c), named := x.named || c.key == "fq_name")
    {
      y := x.(objType := TypeAfter(x.objType, c), named := x.named || c.key == "fq_name");
      var changed := Touch(c, f, row);
      if !IsListMap(c.key) {
        return changed, y;
      }
      y := y.(listMap := y.listMap[c.key := PayloadOf(c, names)]);
      if changed {
        y := y.(updated := y.updated + {Group(c.key)});
      } else {
        y := y.(candidates := y.candidates + {Group(c.key)});
      }
      return false, y;
    }

    /** Reads the columns of a row into the cache. */
    method Parse(cols: seq<Column>, names: Names) returns (pushed: Config, x: Context)
      requires Sorted(fields) && DistinctKeys(cols)
      modifies this`fields
      ensures Sorted(fields) && ToMap(fields) == Stored(ToMap(old(fields)), Row(cols, names))
      ensures Collected(ToMap(old(fields)), Row(cols, names), names, x, pushed) && Flagged(x, cols, names)
    {
      ghost var f, row := ToMap(fields), Row([], names);
      pushed, x := map[], NO_CONTEXT;
      var i := 0;
      assert cols[..0] == [];
      while i < |cols|
        invariant i <= |cols| && row == Row(cols[..i], names)
        invariant Sorted(fields) && ToMap(fields) == Stored(f, row)
        invariant Collected(f, row, names, x, pushed) && Flagged(x, cols[..i], names)
      {
        var c := cols[i];
        NextColumn(cols, names, i);
        var push, y := StoreKeyIfUpdated(c, names, x, f, row);
        CollectNext(f, row, names, x, pushed, c, push, y);
        FlagsAfter(x, c, names, y, f);
        pushed := if push then pushed[c.key := PayloadOf(c, names)] else pushed;
        x := y;
        row := NextRow(row, c, names);
        i := i + 1;
      }
      assert cols[..i] == cols;
    }

    /**
     * Looks for a stale field from the name of a property on, as long as the keys start like it. The loop has no test
     * for the end of the map: the type comes after all properties.
     */
    method HasStale(g: Key, ghost k: Key) returns (found: bool)
      requires Sorted(fields) && k in ToMap(fields) && IsListMap(k) && Group(k) == g && "type" in ToMap(fields)
      ensures found <==> DirtyNear(ToMap(fields), g)
    {
      var i := LowerBound(fields, g);
      ghost var start := i;
      ScanStarts(fields, g, k, i);
      assert i < |fields|;
      assert HasPrefix(fields[i].key, g[..|g| - 1]);
      while HasPrefix(fields[i].key, g[..|g| - 1])
        invariant start <= i < |fields| && AllRefreshed(fields, start, i)
        decreases |fields| - i
      {
        if !fields[i].entry.refreshed {
          FoundStale(fields, g, start, i);
          return true;
        }
        ScanGoesOn(fields, g, k, i);
        OneMoreRefreshed(fields, start, i);
        i := i + 1;
      }
      NoStale(fields, g, start, i);
      return false;
    }

    /** The same for a property of the row. */
    method Scan(g: Key, ghost f: Fields, ghost row: map<Key, Column>) returns (found: bool)
      requires Sorted(fields) && ToMap(fields) == Stored(f, row) && f == Dirty(f) && "type" in row
      requires g in CandidateGroups(f, row)
      ensures found <==> StaleNear(f, row, g)
    {
      ghost var k :| k in row && IsListMap(k) && !Changed(f, row[k]) && Group(k) == g;
      StaleIsDirty(f, row, g);
      found := HasStale(g, k);
    }

    /** One candidate: it is added if it is not there and the scan finds a stale field. */
    method Revise(
        g: Key, was: set<Key>, ghost f: Fields, ghost row: map<Key, Column>, ghost base: set<Key>, ghost done: set<Key>)
      returns (updated: set<Key>)
      requires Sorted(fields) && ToMap(fields) == Stored(f, row) && f == Dirty(f) && "type" in row
      requires g in CandidateGroups(f, row) && was == base + Scanned(f, row, done)
      ensures updated == base + Scanned(f, row, done + {g})
    {
      updated := was;
      if g !in updated {
        var found := Scan(g, f, row);
        if found {
          updated := updated + {g};
        }
      }
      ScannedGrows(f, row, done, g);
      OneMore(base, Scanned(f, row, done), Scanned(f, row, done + {g}), was, updated, g, StaleNear(f, row, g));
    }

    method ListMapPropReviseUpdateList(x: Context, ghost f: Fields, ghost row: map<Key, Column>)
      returns (updated: set<Key>)
      requires Sorted(fields) && ToMap(fields) == Stored(f, row) && "type" in row
      requires f == Dirty(f) && x.updated == UpdatedGroups(f, row) && x.candidates == CandidateGroups(f, row)
      ensures updated == Replaced(f, row)
    {
      updated := x.updated;
      var rest := x.candidates;
      ghost var done: set<Key> := {};
      while rest != {}
        invariant done + rest == x.candidates
        invariant updated == x.updated + Scanned(f, row, done)
        decreases |rest|
      {
        var g :| g in rest;
        updated := Revise(g, updated, f, row, x.updated, done);
        rest, done := rest - {g}, done + {g};
      }
      assert done == x.candidates;
    }

    /** The consumer's question whether a list or map property is empty. */
    method IsListOrMapPropEmpty(name: string) returns (empty: bool)
      requires Sorted(fields)
      ensures empty <==> PropEmpty(ToMap(fields).Keys, name)
    {
      var key := MapPrefix(name);
      var i := LowerBound(fields, key);
      FirstHasPrefix(fields, key, i);
      if i < |fields| && HasPrefix(fields[i].key, key) {
        return false;
      }
      key := ListPrefix(name);
      i := LowerBound(fields, key);
      FirstHasPrefix(fields, key, i);
      if i < |fields| && HasPrefix(fields[i].key, key) {
        return false;
      }
      return true;
    }

    /** Erases the stale fields while the map is walked. */
    method EraseStale() returns (deletes: set<Key>)
      modifies this`fields
      ensures fields == KeptOf(old(fields)) && deletes == GoneOf(old(fields))
    {
      deletes := {};
      var i := 0;
      while i < |fields|
        invariant i <= |fields| && Erase(fields, i, deletes) == Erase(old(fields), 0, {})
        decreases |fields| - i
      {
        if IsKept(fields[i]) {
          i := i + 1;
        } else {
          deletes := deletes + {fields[i].key};
          fields := fields[..i] + fields[i + 1..];
        }
      }
      EraseKeeps([], old(fields), {});
    }

    /** The consumer goes through pushed deletes, and asks about list and map properties. */
    method ApplyDeletes(deletes: set<Key>)
      requires Sorted(fields)
      modifies this`consumer
      ensures consumer == AfterDeletes(old(consumer), deletes, ToMap(fields).Keys)
    {
      ghost var cached := ToMap(fields).Keys;
      NothingDeleted(consumer, cached);
      var rest := deletes;
      while rest != {}
        invariant rest <= deletes && consumer == AfterDeletes(old(consumer), deletes - rest, cached)
        decreases |rest|
      {
        var d :| d in rest;
        DeletesOneByOne(old(consumer), deletes - rest, d, cached);
        assert deletes - (rest - {d}) == deletes - rest + {d};
        rest := rest - {d};
        if IsListMap(d) {
          var empty := IsListOrMapPropEmpty(PropName(d));
          PropertyDeleted(consumer, d, cached);
          if empty {
            consumer := map k | k in consumer && !SameProperty(d, k) :: consumer[k];
          }
        } else {
          FieldDeleted(consumer, d, cached);
          consumer := consumer - {d};
        }
      }
      assert deletes - rest == deletes;
    }

    /** HandleObjectDelete after a change: the keys of the stale fields are pushed as deletes. */
    method DeleteStale()
      requires Sorted(fields)
      modifies this`fields, this`consumer
      ensures Sorted(fields) && ToMap(fields) == Kept(ToMap(old(fields)))
      ensures consumer == AfterDeletes(old(consumer), Gone(ToMap(old(fields))), ToMap(fields).Keys)
    {
      KeptMap(fields);
      GoneMap(fields);
      var deletes := EraseStale();
      if deletes != {} {
        ApplyDeletes(deletes);
      } else {
        NothingDeleted(consumer, ToMap(fields).Keys);
      }
    }

    /** HandleObjectDelete of the whole object. */
    method DeleteObject()
      requires Sorted(fields)
      modifies this`fields, this`consumer
      ensures fields == []
      ensures consumer == AfterDeletes(old(consumer), FieldsOf(ToMap(old(fields))), {})
    {
      ghost var m := ToMap(fields);
      KeysOfMap(fields);
      var deletes := set k | k in KeysOf(fields) && IsField(k);
      assert deletes == FieldsOf(m);
      fields := [];
      assert ToMap(fields).Keys == {};
      if deletes != {} {
        ApplyDeletes(deletes);
      } else {
        NothingDeleted(consumer, {});
      }
    }

    /** Marks the cache dirty and stores the columns of a row. */
    method ReadRow(cols: seq<Column>, names: Names) returns (singles: Config, x: Context)
      requires Sorted(fields) && DistinctKeys(cols)
      modifies this`fields
      ensures Sorted(fields) && ToMap(fields) == Stored(Dirty(ToMap(old(fields))), Row(cols, names))
      ensures Collected(Dirty(ToMap(old(fields))), Row(cols, names), names, x, singles) && Flagged(x, cols, names)
    {
      MarkCacheDirty();
      singles, x := Parse(cols, names);
    }

    /** Pushes adds, then the deletes. */
    method Push(adds: Config)
      requires Sorted(fields)
      modifies this`fields, this`consumer
      ensures Sorted(fields) && ToMap(fields) == Kept(ToMap(old(fields)))
      ensures var m := ToMap(old(fields));
        consumer == AfterDeletes(AfterAdds(old(consumer), adds), Gone(m), Kept(m).Keys)
    {
      consumer := AfterAdds(consumer, adds);
      DeleteStale();
    }

    /** Pushes the adds and deletes of a row that has been stored; m are the fields before the row. */
    method PushRow(x: Context, singles: Config, names: Names, ghost m: Fields, ghost row: map<Key, Column>)
      requires Sorted(fields) && ToMap(fields) == Stored(Dirty(m), row) && Collected(Dirty(m), row, names, x, singles)
      requires "type" in row && "fq_name" in row
      modifies this`fields, this`consumer
      ensures Sorted(fields) && ToMap(fields) == Refreshed(Stored(Dirty(m), row))
      ensures consumer == Outcome(Dirty(m), old(consumer), row, names)
    {
      DirtyTwice(m);
      var updated := ListMapPropReviseUpdateList(x, Dirty(m), row);
      RowPushed(m, consumer, row, names, x, singles, updated);
      Push(Pushed(singles, x.listMap, updated));
    }

    /** Draft objects are dropped from the cache; a row without type or name deletes an object known by name. */
    method Reject(draft: bool, known: bool)
      requires Sorted(fields)
      modifies this
      ensures Sorted(fields) && (draft || known ==> fields == [])
      ensures draft || !known ==> consumer == old(consumer)
      ensures !draft && known ==> consumer == AfterDeletes(old(consumer), FieldsOf(ToMap(old(fields))), {})
      ensures !draft && !known ==> fields == old(fields)
    {
      if draft {
        fields := [];
        return;
      }
      retry := false;
      if known {
        DeleteObject();
      }
    }

    ghost function View(): Sync
      requires Sorted(fields)
      reads this
    {
      Sync(ToMap(fields), consumer)
    }

    /** Reads a row; known tells whether the name of the object is known. */
    method ProcessRow(cols: seq<Column>, names: Names, known: bool) returns (ok: bool)
      requires Sorted(fields) && DistinctKeys(cols)
      modifies this
      ensures Sorted(fields) && View() == Process(old(View()), cols, names, known)
      ensures (ok <==> Usable(cols)) && (ok ==> retry == Unknown(cols, names))
      ensures ok ==> ToMap(fields).Keys == Row(cols, names).Keys && Caches(ToMap(fields), cols, names)
      ensures ok && old(View()) == ConfigHistory.EMPTY ==> Conveys(View().config, cols, names)
    {
      ghost var s := View();
      ghost var row := Row(cols, names);
      var singles, x := ReadRow(cols, names);
      ok := !(x.draft || x.objType == "" || !x.named);
      if !ok {
        Reject(x.draft, known);
        return;
      }
      retry := x.unknown;
      IdentityInRow(cols, names);
      PushRow(x, singles, names, s.fields, row);
      RowReached(s, View(), cols, names, known);
    }
  }

  /** What a usable row leaves in the cache and with the consumer. */
  lemma RowReached(s: Sync, t: Sync, cols: seq<Column>, names: Names, known: bool)
    requires DistinctKeys(cols) && Usable(cols) && t == Process(s, cols, names, known)
    ensures t.fields.Keys == Row(cols, names).Keys && Caches(t.fields, cols, names)
    ensures s == ConfigHistory.EMPTY ==> Conveys(t.config, cols, names)
  {
    StoredKeys(s.fields, Row(cols, names));
    UsableCaches(s, cols, names, known);
    FirstRowConveys(cols, names, known);
  }

  lemma OneMore(
      base: set<Key>, scanned: set<Key>, next: set<Key>, was: set<Key>, updated: set<Key>, g: Key, found: bool)
    requires was == base + scanned && next == scanned + if found then {g} else {}
    requires updated == if g !in was && found then was + {g} else was
    ensures updated == base + next
  {
  }

  lemma NothingDeleted(c: Config, cached: set<Key>)
    ensures AfterDeletes(c, {}, cached) == c
  {
  }

  lemma PropertyDeleted(c: Config, d: Key, cached: set<Key>)
    requires IsListMap(d)
    ensures AfterDeletes(c, {d}, cached) ==
      if PropEmpty(cached, PropName(d)) then map k | k in c && !SameProperty(d, k) :: c[k] else c
  {
    forall k ensures HasField({d}, k) <==> SameProperty(d, k) {
    }
  }

  lemma FieldDeleted(c: Config, d: Key, cached: set<Key>)
    requires !IsListMap(d)
    ensures AfterDeletes(c, {d}, cached) == c - {d}
  {
    forall k ensures !HasField({d}, k) {
    }
  }

  /** Some key has a prefix exactly if the first one that is not below it has. */
  lemma FirstHasPrefix(w: seq<Field>, p: Key, i: nat)
    requires Sorted(w) && IsLowerBound(w, p, i)
    ensures (exists k {:trigger HasPrefix(k, p)} :: k in ToMap(w) && HasPrefix(k, p)) <==>
      i < |w| && HasPrefix(w[i].key, p)
  {
    if k :| k in ToMap(w) && HasPrefix(k, p) {
      var j := IndexOf(w, k);
      if |p| < |k| {
        PrefixLess(p, k);
        Irreflexive(p, k);
      } else {
        assert k == p;
        NotBelowItself(p);
      }
      assert j >= i;
      FromLowerBound(w, p, i, i);
      Between(p, p, w[i].key, w[j].key);
    }
    if i < |w| && HasPrefix(w[i].key, p) {
      MapAt(w, i);
    }
  }

  lemma IdentityInRow(cols: seq<Column>, names: Names)
    requires TypeOf(cols) != "" && Named(cols)
    ensures "type" in Row(cols, names) && "fq_name" in Row(cols, names)
  {
    var i :| 0 <= i < |cols| && cols[i].key == "fq_name";
    PlainAccepted(cols[i], names);
    RowHas(cols, names, i);
    var j := TypeColumn(cols);
    PlainAccepted(cols[j], names);
    RowHas(cols, names, j);
  }

  lemma PlainAccepted(c: Column, names: Names)
    requires !IsField(c.key)
    ensures Accepted(c, names)
  {
    NoColon(c.key);
  }

  lemma {:induction false} TypeColumn(cols: seq<Column>) returns (i: nat)
    requires TypeOf(cols) != ""
    ensures i < |cols| && cols[i].key == "type"
    decreases |cols|
  {
    if TypeOf(cols[..|cols| - 1]) != "" {
      i := TypeColumn(cols[..|cols| - 1]);
    } else {
      i := |cols| - 1;
    }
  }

  /** The pushes of a row, in terms of the cache and the row. */
  lemma RowPushed(
      m: Fields, c: Config, row: map<Key, Column>, names: Names, x: Context, singles: Config, updated: set<Key>)
    requires Collected(Dirty(m), row, names, x, singles) && updated == Replaced(Dirty(m), row)
    requires "type" in row && "fq_name" in row
    ensures var s := Stored(Dirty(m), row);
      && Kept(s) == Refreshed(s)
      && AfterDeletes(AfterAdds(c, Pushed(singles, x.listMap, updated)), Gone(s), Kept(s).Keys)
        == Outcome(Dirty(m), c, row, names)
  {
    PushedIsAdds(Dirty(m), row, names, updated);
    KeptAndGone(m, row);
  }

  lemma StoredKeys(m: Fields, row: map<Key, Column>)
    ensures Refreshed(Stored(Dirty(m), row)).Keys == row.Keys
  {
  }

  lemma KeptAndGone(m: Fields, row: map<Key, Column>)
    requires "type" in row && "fq_name" in row
    ensures Kept(Stored(Dirty(m), row)) == Refreshed(Stored(Dirty(m), row))
    ensures Kept(Stored(Dirty(m), row)).Keys == row.Keys
    ensures Gone(Stored(Dirty(m), row)) == Stale(Dirty(m), row)
  {
  }

  // ---- Deleting ----

  predicate IsKept(f: Field) {
    f.entry.refreshed || !IsField(f.key)
  }

  function KeptOf(w: seq<Field>): seq<Field> {
    if w == [] then [] else (if IsKept(w[0]) then [w[0]] else []) + KeptOf(w[1..])
  }

  lemma {:induction false} KeptHas(w: seq<Field>, f: Field)
    ensures f in KeptOf(w) <==> f in w && IsKept(f)
    decreases |w|
  {
    if w != [] {
      assert w == [w[0]] + w[1..];
      KeptHas(w[1..], f);
    }
  }

  lemma {:induction false} KeptSorted(w: seq<Field>)
    requires Sorted(w)
    ensures Sorted(KeptOf(w))
    decreases |w|
  {
    if w != [] {
      var u := w[1..];
      KeptSorted(u);
      forall i | 0 <= i < |KeptOf(u)| ensures Less(w[0].key, KeptOf(u)[i].key) {
        KeptHas(u, KeptOf(u)[i]);
      }
    }
  }

  /** The fields of a cache that stay. */
  function Kept(m: Fields): Fields {
    map k | k in m && (m[k].refreshed || !IsField(k)) :: m[k]
  }

  /** The fields of a cache that go. */
  function Gone(m: Fields): set<Key> {
    set k | k in m && IsField(k) && !m[k].refreshed
  }

  lemma KeptMap(w: seq<Field>)
    requires Sorted(w)
    ensures Sorted(KeptOf(w)) && ToMap(KeptOf(w)) == Kept(ToMap(w))
  {
    KeptSorted(w);
    var v := KeptOf(w);
    var m, n := ToMap(v), Kept(ToMap(w));
    forall k | k in m ensures k in n && m[k] == n[k] {
      var i := IndexOf(v, k);
      KeptHas(w, v[i]);
      var j :| 0 <= j < |w| && w[j] == v[i];
      MapAt(w, j);
    }
    forall k | k in n ensures k in m {
      var j := IndexOf(w, k);
      KeptHas(w, w[j]);
      var i :| 0 <= i < |v| && v[i] == w[j];
      MapAt(v, i);
    }
    SameMap(m, n);
  }

  function GoneOf(w: seq<Field>): set<Key> {
    set f | f in w && !IsKept(f) :: f.key
  }

  lemma GoneMap(w: seq<Field>)
    requires Sorted(w)
    ensures GoneOf(w) == Gone(ToMap(w))
  {
    forall k | k in GoneOf(w) ensures k in Gone(ToMap(w)) {
      var f :| f in w && !IsKept(f) && f.key == k;
      var i :| 0 <= i < |w| && w[i] == f;
      MapAt(w, i);
    }
    forall k | k in Gone(ToMap(w)) ensures k in GoneOf(w) {
      var i := IndexOf(w, k);
      assert w[i] in w && !IsKept(w[i]);
    }
  }

  /** The walk that erases from position i on. */
  function Erase(w: seq<Field>, i: nat, deletes: set<Key>): (seq<Field>, set<Key>)
    requires i <= |w|
    decreases |w| - i
  {
    if i == |w| then (w, deletes)
    else if IsKept(w[i]) then Erase(w, i + 1, deletes)
    else Erase(w[..i] + w[i + 1..], i, deletes + {w[i].key})
  }

  /** The walk keeps what it has passed, and of the rest what is to be kept. */
  lemma {:induction false} EraseKeeps(a: seq<Field>, b: seq<Field>, deletes: set<Key>)
    ensures Erase(a + b, |a|, deletes) == (a + KeptOf(b), deletes + GoneOf(b))
    decreases |b|
  {
    if b != [] {
      var f, rest := b[0], b[1..];
      assert b == [f] + rest;
      GoneStep(f, rest);
      EraseAt(a, f, rest);
      if IsKept(f) {
        EraseKeeps(a + [f], rest, deletes);
        Associative(a, [f], KeptOf(rest));
      } else {
        EraseKeeps(a, rest, deletes + {f.key});
        assert deletes + {f.key} + GoneOf(rest) == deletes + GoneOf(b) && [] + KeptOf(rest) == KeptOf(rest);
      }
    } else {
      assert KeptOf(b) == [] && a + b == a && deletes + GoneOf(b) == deletes;
    }
  }

  lemma Associative(a: seq<Field>, b: seq<Field>, c: seq<Field>)
    ensures a + (b + c) == (a + b) + c
  {
  }

  lemma EraseAt(a: seq<Field>, f: Field, b: seq<Field>)
    ensures a + ([f] + b) == (a + [f]) + b && (a + ([f] + b))[|a|] == f
    ensures (a + ([f] + b))[..|a|] + (a + ([f] + b))[|a| + 1..] == a + b
  {
  }

  lemma GoneStep(f: Field, u: seq<Field>)
    ensures GoneOf([f] + u) == if IsKept(f) then GoneOf(u) else {f.key} + GoneOf(u)
  {
    var v := [f] + u;
    assert forall g {:trigger g in v} :: g in v <==> g in u || g == f;
    forall k | k in GoneOf(u) ensures k in GoneOf(v) {
      var g :| g in u && !IsKept(g) && g.key == k;
      assert g in v;
    }
    assert f in v;
  }

  function KeysOf(w: seq<Field>): set<Key> {
    set f | f in w :: f.key
  }

  lemma KeysOfMap(w: seq<Field>)
    requires Sorted(w)
    ensures KeysOf(w) == ToMap(w).Keys
  {
    forall k | k in KeysOf(w) ensures k in ToMap(w) {
      var f :| f in w && f.key == k;
      var i :| 0 <= i < |w| && w[i] == f;
      MapAt(w, i);
    }
    forall k | k in ToMap(w) ensures k in KeysOf(w) {
      var i := IndexOf(w, k);
      assert w[i] in w;
    }
  }

  /** Some key near the name of the property was not seen in the row. */
  ghost predicate DirtyNear(m: Fields, g: Key) {
    exists s {:trigger m[s]} :: s in m && !m[s].refreshed && Near(g, s)
  }

  ghost predicate AllRefreshed(w: seq<Field>, a: nat, b: nat)
    requires b <= |w|
  {
    forall j {:trigger w[j]} :: a <= j < b ==> w[j].entry.refreshed
  }

  lemma OneMoreRefreshed(w: seq<Field>, a: nat, b: nat)
    requires b < |w| && AllRefreshed(w, a, b) && w[b].entry.refreshed
    ensures AllRefreshed(w, a, b + 1)
  {
  }

  lemma StaleIsDirty(f: Fields, row: map<Key, Column>, g: Key)
    requires f == Dirty(f)
    ensures StaleNear(f, row, g) <==> DirtyNear(Stored(f, row), g)
  {
    var m := Stored(f, row);
    if s :| s in f && s !in row && Near(g, s) {
      assert !m[s].refreshed;
    }
  }

  lemma ScanStarts(w: seq<Field>, g: Key, k: Key, i: nat)
    requires Sorted(w) && k in ToMap(w) && IsListMap(k) && Group(k) == g && IsLowerBound(w, g, i)
    ensures |g| > 0 && i < |w| && HasPrefix(w[i].key, g[..|g| - 1])
  {
    GroupFacts(k);
    var j := IndexOf(w, k);
    PrefixLess(g, k);
    if j < i {
      Irreflexive(w[j].key, g);
    }
    Total(g, w[i].key);
    Between(g, g, w[i].key, w[j].key);
    ShorterPrefix(w[i].key, g);
  }

  lemma ShorterPrefix(k: Key, g: Key)
    requires HasPrefix(k, g) && |g| > 0
    ensures HasPrefix(k, g[..|g| - 1])
  {
    assert k[..|g| - 1] == k[..|g|][..|g| - 1];
  }

  lemma ScanGoesOn(w: seq<Field>, g: Key, k: Key, i: nat)
    requires Sorted(w) && IsListMap(k) && Group(k) == g && "type" in ToMap(w)
    requires i < |w| && |g| > 0 && HasPrefix(w[i].key, g[..|g| - 1])
    ensures i + 1 < |w|
  {
    GroupFacts(k);
    assert w[i].key[0] == g[..|g| - 1][0];
    BeforeType(w[i].key);
    var t := IndexOf(w, "type");
    if t < i {
      Irreflexive(w[t].key, w[i].key);
    }
    Irreflexive(w[i].key, "type");
  }

  lemma NoStale(w: seq<Field>, g: Key, start: nat, stop: nat)
    requires Sorted(w) && IsLowerBound(w, g, start) && start <= stop < |w| && |g| > 0
    requires !HasPrefix(w[stop].key, g[..|g| - 1]) && AllRefreshed(w, start, stop)
    ensures !DirtyNear(ToMap(w), g)
  {
    forall s | s in ToMap(w) && Near(g, s) ensures ToMap(w)[s].refreshed {
      var j := IndexOf(w, s);
      InScan(w, g, start, stop, j);
    }
  }

  lemma FoundStale(w: seq<Field>, g: Key, start: nat, i: nat)
    requires Sorted(w) && IsLowerBound(w, g, start) && start <= i < |w| && |g| > 0
    requires HasPrefix(w[i].key, g[..|g| - 1]) && !w[i].entry.refreshed
    ensures DirtyNear(ToMap(w), g)
  {
    FromLowerBound(w, g, start, i);
    MapAt(w, i);
  }

  ghost predicate Flagged(x: Context, cols: seq<Column>, names: Names) {
    && x.objType == TypeOf(cols) && x.named == Named(cols)
    && x.draft == Draft(cols) && x.unknown == Unknown(cols, names)
  }

  function NextRow(row: map<Key, Column>, c: Column, names: Names): map<Key, Column> {
    if Accepted(c, names) then row[c.key := c] else row
  }

  /** The context after one more column. */
  lemma CollectNext(
      f: Fields, row: map<Key, Column>, names: Names, x: Context, pushed: Config, c: Column, push: bool, y: Context)
    requires Collected(f, row, names, x, pushed) && c.key !in row
    requires push <==> Accepted(c, names) && !IsListMap(c.key) && Changed(f, c)
    requires if Accepted(c, names)
      then y == Collect(f, x, c, names).(objType := TypeAfter(x.objType, c), named := x.named || c.key == "fq_name")
      else y == x.(draft := x.draft || IsDraft(c), unknown := x.unknown || IsUnknown(c, names))
    ensures Collected(f, NextRow(row, c, names), names, y,
      if push then pushed[c.key := PayloadOf(c, names)] else pushed)
  {
    if Accepted(c, names) {
      CollectStep(f, row, names, x, pushed, c);
      SameCollected(f, row[c.key := c], names, Collect(f, x, c, names), y,
        if push then pushed[c.key := PayloadOf(c, names)] else pushed);
    } else {
      SameCollected(f, row, names, x, y, pushed);
    }
  }

  lemma SameCollected(f: Fields, row: map<Key, Column>, names: Names, x: Context, y: Context, pushed: Config)
    requires Collected(f, row, names, x, pushed)
    requires y.listMap == x.listMap && y.updated == x.updated && y.candidates == x.candidates
    ensures Collected(f, row, names, y, pushed)
  {
  }

  lemma FlagsAfter(x: Context, c: Column, names: Names, y: Context, f: Fields)
    requires if Accepted(c, names)
      then y == Collect(f, x, c, names).(objType := TypeAfter(x.objType, c), named := x.named || c.key == "fq_name")
      else y == x.(draft := x.draft || IsDraft(c), unknown := x.unknown || IsUnknown(c, names))
    ensures y.objType == TypeAfter(x.objType, c) && y.named == (x.named || c.key == "fq_name")
    ensures y.draft == (x.draft || IsDraft(c)) && y.unknown == (x.unknown || IsUnknown(c, names))
  {
    if !Accepted(c, names) && !IsField(c.key) {
      PlainAccepted(c, names);
    }
  }

  lemma NextColumn(cols: seq<Column>, names: Names, i: nat)
    requires i < |cols| && DistinctKeys(cols)
    ensures cols[i].key !in Row(cols[..i], names)
    ensures Row(cols[..i + 1], names) == NextRow(Row(cols[..i], names), cols[i], names)
    ensures TypeOf(cols[..i + 1]) == TypeAfter(TypeOf(cols[..i]), cols[i])
    ensures Named(cols[..i + 1]) == (Named(cols[..i]) || cols[i].key == "fq_name")
    ensures Draft(cols[..i + 1]) == (Draft(cols[..i]) || IsDraft(cols[i]))
    ensures Unknown(cols[..i + 1], names) == (Unknown(cols[..i], names) || IsUnknown(cols[i], names))
  {
    var v := cols[..i + 1];
    assert v[..|v| - 1] == cols[..i] && v[|v| - 1] == cols[i];
    RowFacts(cols[..i], names);
    if cols[i].key in Row(cols[..i], names) {
      RowIndex(cols, names, i, cols[i].key);
    }
    FlagsStep(cols, names, i);
  }

  lemma RowIndex(cols: seq<Column>, names: Names, i: nat, k: Key)
    requires i < |cols| && DistinctKeys(cols) && k in Row(cols[..i], names)
    ensures k != cols[i].key
  {
    RowFacts(cols[..i], names);
    var c := Row(cols[..i], names)[k];
    var j :| 0 <= j < i && cols[..i][j] == c;
    assert cols[j].key == k;
  }

  lemma FlagsStep(cols: seq<Column>, names: Names, i: nat)
    requires i < |cols|
    ensures Named(cols[..i + 1]) == (Named(cols[..i]) || cols[i].key == "fq_name")
    ensures Draft(cols[..i + 1]) == (Draft(cols[..i]) || IsDraft(cols[i]))
    ensures Unknown(cols[..i + 1], names) == (Unknown(cols[..i], names) || IsUnknown(cols[i], names))
  {
    var u, v := cols[..i], cols[..i + 1];
    assert v == u + [cols[i]];
    assert v[i] == cols[i];
    assert forall j {:trigger u[j]} :: 0 <= j < i ==> v[j] == u[j];
    assert forall j {:trigger v[j]} :: 0 <= j < i ==> v[j] == u[j];
  }
}
