/** What reading rows does to the cache and the consumer, and exactly when the consumer gets the row. */
module ConfigRows {
  import opened ColumnKeys
  import opened ConfigSync

  // ---- The effect of a usable row, whatever the cache and the consumer have ----

  /** The consumer after the adds and deletes of a row. */
  function Outcome(f: Fields, c: Config, row: map<Key, Column>, names: Names): Config
    requires AllAccepted(row, names)
  {
    AfterDeletes(AfterAdds(c, Adds(f, row, names, Replaced(f, row))), Stale(f, row), row.Keys)
  }

  /** The fields of the row that are pushed. */
  function Sent(f: Fields, row: map<Key, Column>): set<Key> {
    AddKeys(f, row, Replaced(f, row))
  }

  /** A field that is not in the row leaves the consumer: with a replacement of its property, or with a delete. */
  predicate Removed(f: Fields, row: map<Key, Column>, k: Key) {
    HasField(Sent(f, row), k) || DeletedBy(Stale(f, row), row.Keys, k)
  }

  lemma InRow(f: Fields, c: Config, row: map<Key, Column>, names: Names, k: Key)
    requires AllAccepted(row, names) && k in row && IsField(k)
    ensures var end := Outcome(f, c, row, names);
      && (k in end <==> k in Sent(f, row) || k in c)
      && (k in end ==> end[k] == if k in Sent(f, row) then PayloadOf(row[k], names) else c[k])
  {
    var adds := Adds(f, row, names, Replaced(f, row));
    assert adds.Keys == Sent(f, row);
    if IsListMap(k) {
      NotEmpty(row.Keys, k);
      assert HasField(adds.Keys, k) ==> k in adds;
    }
    assert !DeletedBy(Stale(f, row), row.Keys, k);
  }

  lemma NotInRow(f: Fields, c: Config, row: map<Key, Column>, names: Names, k: Key)
    requires AllAccepted(row, names) && !(k in row && IsField(k))
    ensures k in Outcome(f, c, row, names) <==> k in c && !Removed(f, row, k)
  {
    var adds := Adds(f, row, names, Replaced(f, row));
    assert adds.Keys == Sent(f, row);
  }

  /** What is not pushed is with the consumer already. */
  ghost predicate Reached(f: Fields, c: Config, row: map<Key, Column>, names: Names)
    requires AllAccepted(row, names)
  {
    forall k {:trigger row[k]} :: k in row && IsField(k) && k !in Sent(f, row) ==>
      k in c && c[k] == PayloadOf(row[k], names)
  }

  /** What the row does not have leaves the consumer. */
  ghost predicate Cleared(f: Fields, c: Config, row: map<Key, Column>) {
    forall k {:trigger k in c} :: k in c && !(k in row && IsField(k)) ==> Removed(f, row, k)
  }

  /** What leaves the consumer. */
  function Leaving(f: Fields, c: Config, row: map<Key, Column>): set<Key> {
    set k | k in c && Removed(f, row, k)
  }

  ghost predicate EndsWith(end: Config, all: Config, c: Config, sent: set<Key>, gone: set<Key>) {
    && (forall k {:trigger k in all} :: k in all ==>
          && (k in end <==> k in sent || k in c)
          && (k in end ==> end[k] == if k in sent then all[k] else c[k]))
    && (forall k {:trigger k in end} :: k !in all ==> (k in end <==> k in c && k !in gone))
  }

  lemma EndIsAllIff(end: Config, all: Config, c: Config, sent: set<Key>, gone: set<Key>)
    requires EndsWith(end, all, c, sent, gone)
    ensures end == all <==>
      && (forall k {:trigger all[k]} :: k in all && k !in sent ==> k in c && c[k] == all[k])
      && (forall k {:trigger k in c} :: k in c && k !in all ==> k in gone)
  {
    if end == all {
      forall k | k in c && k !in all ensures k in gone {
        assert k !in end;
      }
    }
  }

  lemma OutcomeEndsWith(f: Fields, c: Config, row: map<Key, Column>, names: Names)
    requires AllAccepted(row, names)
    ensures EndsWith(Outcome(f, c, row, names), Snapshot(row, names), c, Sent(f, row), Leaving(f, c, row))
  {
    var end, all := Outcome(f, c, row, names), Snapshot(row, names);
    forall k | k in all
      ensures k in end <==> k in Sent(f, row) || k in c
      ensures k in end ==> end[k] == if k in Sent(f, row) then all[k] else c[k]
    {
      InRow(f, c, row, names, k);
    }
    forall k | k !in all ensures k in end <==> k in c && k !in Leaving(f, c, row) {
      NotInRow(f, c, row, names, k);
    }
  }

  /** For any cache and any consumer: the row is what the consumer ends up with exactly if both conditions hold. */
  lemma OutcomeIsSnapshotIff(f: Fields, c: Config, row: map<Key, Column>, names: Names)
    requires AllAccepted(row, names)
    ensures Outcome(f, c, row, names) == Snapshot(row, names) <==> Reached(f, c, row, names) && Cleared(f, c, row)
  {
    OutcomeEndsWith(f, c, row, names);
    EndIsAllIff(Outcome(f, c, row, names), Snapshot(row, names), c, Sent(f, row), Leaving(f, c, row));
    ReachedIff(f, c, row, names);
  }

  lemma ReachedIff(f: Fields, c: Config, row: map<Key, Column>, names: Names)
    requires AllAccepted(row, names)
    ensures Reached(f, c, row, names) <==> var all := Snapshot(row, names);
      forall k {:trigger all[k]} :: k in all && k !in Sent(f, row) ==> k in c && c[k] == all[k]
  {
    var all := Snapshot(row, names);
    if forall k {:trigger all[k]} :: k in all && k !in Sent(f, row) ==> k in c && c[k] == all[k] {
      forall k | k in row && IsField(k) && k !in Sent(f, row) ensures k in c && c[k] == PayloadOf(row[k], names) {
        assert all[k] == PayloadOf(row[k], names);
      }
    }
  }

  // ---- A consumer in sync with the cache ----

  /**
   * No property that the row has lost altogether looks non-empty: no key of the row starts like a list or a map of
   * its name.
   */
  ghost predicate NoClash(keys: set<Key>, row: map<Key, Column>) {
    forall k {:trigger k in keys} :: k in keys && k !in row && IsListMap(k) && !HasField(row.Keys, k) ==>
      PropEmpty(row.Keys, PropName(k))
  }

  /** What the cache has and the row has not is removed, unless the emptiness test fails. */
  lemma CachedIsRemovedIff(f: Fields, row: map<Key, Column>, k: Key)
    requires k in f && IsField(k) && k !in row
    ensures Removed(f, row, k) <==> (IsListMap(k) && !HasField(row.Keys, k) ==> PropEmpty(row.Keys, PropName(k)))
  {
    assert k in Stale(f, row);
    if IsListMap(k) {
      assert SameProperty(k, k);
      if a :| a in row.Keys && SameProperty(a, k) {
        StaleIsReplaced(f, row, a, k);
        ListMapIsField(a);
        assert a in Sent(f, row);
      }
    }
  }

  lemma ClearedIff(f: Fields, c: Config, row: map<Key, Column>)
    requires forall k {:trigger k in c} :: k in c ==> k in f && IsField(k)
    ensures Cleared(f, c, row) <==> NoClash(c.Keys, row)
  {
    forall k | k in c && k !in row
      ensures Removed(f, row, k) <==> (IsListMap(k) && !HasField(row.Keys, k) ==> PropEmpty(row.Keys, PropName(k)))
    {
      CachedIsRemovedIff(f, row, k);
    }
  }

  /** A field that is not pushed has the cached timestamp. */
  lemma UnsentIsCached(f: Fields, row: map<Key, Column>, k: Key)
    requires k in row && IsField(k) && k !in Sent(f, row) && row[k].key == k
    ensures k in f && row[k].ts != 0 && f[k].ts == row[k].ts
  {
    assert Changed(f, row[k]) && IsListMap(k) ==> Group(k) in UpdatedGroups(f, row);
  }

  /**
   * Incremental sync equals snapshot: for a consumer in sync with the cache the adds and deletes of a row have the
   * result of replaying the row exactly if no property that the row has lost looks non-empty.
   */
  lemma IncrementalIsSnapshotIff(f: Fields, c: Config, row: map<Key, Column>, names: Names, truth: Truth)
    requires Synced(f, c, truth) && TrueRow(row, names, truth)
    ensures Outcome(f, c, row, names) == Snapshot(row, names) <==> NoClash(f.Keys, row)
  {
    OutcomeIsSnapshotIff(f, c, row, names);
    SyncedReached(f, c, row, names, truth);
    ClearedIff(f, c, row);
    SameClash(f, c, row, truth);
  }

  lemma SyncedReached(f: Fields, c: Config, row: map<Key, Column>, names: Names, truth: Truth)
    requires Synced(f, c, truth) && TrueRow(row, names, truth)
    ensures Reached(f, c, row, names)
  {
    forall k | k in row && IsField(k) && k !in Sent(f, row) ensures k in c && c[k] == PayloadOf(row[k], names) {
      UnsentIsCached(f, row, k);
    }
  }

  lemma SameClash(f: Fields, c: Config, row: map<Key, Column>, truth: Truth)
    requires Synced(f, c, truth)
    ensures NoClash(f.Keys, row) <==> NoClash(c.Keys, row)
  {
    forall k | k in f && IsListMap(k) ensures k in c {
      ListMapIsField(k);
    }
  }

  /** Afterwards the cache has exactly the accepted columns; a consumer that has the row is in sync with it. */
  lemma StaysSynced(f: Fields, row: map<Key, Column>, names: Names, truth: Truth)
    requires TrueRow(row, names, truth)
    ensures Refreshed(Stored(Dirty(f), row)).Keys == row.Keys
    ensures Synced(Refreshed(Stored(Dirty(f), row)), Snapshot(row, names), truth)
  {
  }

  lemma DirtySynced(f: Fields, c: Config, truth: Truth)
    requires Synced(f, c, truth)
    ensures Synced(Dirty(f), c, truth) && Dirty(f).Keys == f.Keys
  {
  }

  /** A consumer with fields of the row only has the row. */
  lemma OnlyRowIsSnapshot(f: Fields, c: Config, row: map<Key, Column>, names: Names, truth: Truth)
    requires Synced(f, c, truth) && TrueRow(row, names, truth)
    requires var end := Outcome(f, c, row, names); forall k {:trigger k in end} :: k in end ==> k in row && IsField(k)
    ensures Outcome(f, c, row, names) == Snapshot(row, names)
  {
    OutcomeIsSnapshotIff(f, c, row, names);
    SyncedReached(f, c, row, names, truth);
    forall k | k in c && !(k in row && IsField(k)) ensures Removed(f, row, k) {
      NotInRow(f, c, row, names, k);
    }
  }

  // ---- Rows of all kinds ----

  /** The cache entry of an object, and what the consumer has of it. */
  datatype Sync = Sync(fields: Fields, config: Config)

  predicate Usable(cols: seq<Column>) {
    !Draft(cols) && TypeOf(cols) != "" && Named(cols)
  }

  function FieldsOf(f: Fields): set<Key> {
    set k | k in f && IsField(k)
  }

  /** ProcessObjUUIDTableEntry; known tells whether the object is known by name. */
  function Process(s: Sync, cols: seq<Column>, names: Names, known: bool): Sync {
    RowFacts(cols, names);
    var row := Row(cols, names);
    var stored := Stored(Dirty(s.fields), row);
    if Draft(cols) then Sync(map[], s.config)
    else if Usable(cols) then Sync(Refreshed(stored), Outcome(Dirty(s.fields), s.config, row, names))
    else if known then Sync(map[], AfterDeletes(s.config, FieldsOf(stored), {}))
    else Sync(stored, s.config)
  }

  ghost predicate InSync(s: Sync, truth: Truth) {
    Synced(s.fields, s.config, truth)
  }

  lemma RowAccepted(cols: seq<Column>, names: Names)
    ensures AllAccepted(Row(cols, names), names)
  {
    RowFacts(cols, names);
  }

  /** When a row leaves cache and consumer in sync. */
  ghost predicate KeepsSync(s: Sync, cols: seq<Column>, names: Names, known: bool) {
    RowFacts(cols, names);
    var row := Row(cols, names);
    if Draft(cols) then forall k {:trigger k in s.fields} :: k in s.fields ==> !IsField(k)
    else if Usable(cols) then NoClash(s.fields.Keys, row)
    else known || forall k {:trigger row[k]} :: k in row && IsField(k) ==>
      k in s.config && (row[k].ts != 0 ==> s.config[k] == PayloadOf(row[k], names))
  }

  lemma DraftKeepsSyncIff(s: Sync, cols: seq<Column>, names: Names, known: bool, truth: Truth)
    requires InSync(s, truth) && Draft(cols)
    ensures InSync(Process(s, cols, names, known), truth) <==>
      forall k {:trigger k in s.fields} :: k in s.fields ==> k == "type" || k == "fq_name"
  {
  }

  lemma EverythingDeleted(s: Sync, row: map<Key, Column>, truth: Truth)
    requires InSync(s, truth)
    ensures AfterDeletes(s.config, FieldsOf(Stored(Dirty(s.fields), row)), {}) == map[]
  {
    var d := FieldsOf(Stored(Dirty(s.fields), row));
    forall k | k in s.config ensures DeletedBy(d, {}, k) {
      assert k in d && (IsListMap(k) ==> SameProperty(k, k));
    }
  }

  lemma UnusableKeepsSyncIff(s: Sync, row: map<Key, Column>, names: Names, truth: Truth)
    requires InSync(s, truth) && TrueRow(row, names, truth)
    ensures Synced(Stored(Dirty(s.fields), row), s.config, truth) <==>
      forall k {:trigger row[k]} :: k in row && IsField(k) ==>
        k in s.config && (row[k].ts != 0 ==> s.config[k] == PayloadOf(row[k], names))
  {
    var m, c := Stored(Dirty(s.fields), row), s.config;
    if Synced(m, c, truth) {
      forall k | k in row && IsField(k) ensures k in c && (row[k].ts != 0 ==> c[k] == PayloadOf(row[k], names)) {
        assert k in m;
      }
    }
  }

  /** For every kind of row, exactly when cache and consumer stay in sync. */
  lemma KeepsSyncIff(s: Sync, cols: seq<Column>, names: Names, known: bool, truth: Truth)
    requires InSync(s, truth) && TrueRow(Row(cols, names), names, truth)
    ensures InSync(Process(s, cols, names, known), truth) <==> KeepsSync(s, cols, names, known)
  {
    var row := Row(cols, names);
    if Draft(cols) {
      DraftKeepsSyncIff(s, cols, names, known, truth);
    } else if Usable(cols) {
      UsableKeepsSyncIff(s, cols, names, known, truth);
    } else {
      EverythingDeleted(s, row, truth);
      UnusableKeepsSyncIff(s, row, names, truth);
    }
  }

  lemma UsableKeepsSyncIff(s: Sync, cols: seq<Column>, names: Names, known: bool, truth: Truth)
    requires InSync(s, truth) && TrueRow(Row(cols, names), names, truth) && Usable(cols)
    ensures InSync(Process(s, cols, names, known), truth) <==> NoClash(s.fields.Keys, Row(cols, names))
    ensures Process(s, cols, names, known).config == Snapshot(Row(cols, names), names) <==>
      NoClash(s.fields.Keys, Row(cols, names))
  {
    var row := Row(cols, names);
    DirtySynced(s.fields, s.config, truth);
    IncrementalIsSnapshotIff(Dirty(s.fields), s.config, row, names, truth);
    StaysSynced(s.fields, row, names, truth);
    var m, end := Refreshed(Stored(Dirty(s.fields), row)), Outcome(Dirty(s.fields), s.config, row, names);
    if Synced(m, end, truth) {
      assert forall k {:trigger k in end} :: k in end ==> k in m && IsField(k);
      OnlyRowIsSnapshot(Dirty(s.fields), s.config, row, names, truth);
    }
  }
}
