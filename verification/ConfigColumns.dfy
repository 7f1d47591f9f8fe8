/** What the keys of a row mean, which columns are stored and pushed, and with which values. */
module ConfigColumns {
  import opened ColumnKeys
  import opened ConfigSync
  import opened ConfigRows
  import opened ConfigHistory

  // ---- Keys ----

  /** The key of a reference or of the parent: what it is, the type of the object, and its uuid. */
  predicate IsLinkKey(k: Key, kind: string, objType: string, uuid: string) {
    (kind == "ref" || kind == "parent") && ':' !in uuid && k == kind + ":" + objType + ":" + uuid
  }

  lemma LinkKey(k: Key, kind: string, objType: string, uuid: string)
    requires IsLinkKey(k, kind, objType, uuid)
    ensures TypeField(k) == kind + ":" && LinkUuid(k) == uuid
  {
    assert k == kind + ":" + (objType + ":" + uuid);
    FirstColonAt(kind, objType + ":" + uuid);
    assert k == (kind + ":" + objType) + ":" + uuid;
    LastColonAt(kind + ":" + objType, uuid);
  }

  lemma LinkKind(k: Key, kind: string, objType: string, uuid: string)
    requires IsLinkKey(k, kind, objType, uuid)
    ensures IsLink(k) && IsField(k) && !IsListMap(k) && !IsSkipped(k)
    ensures TypeField(k) == "ref:" <==> kind == "ref"
  {
    LinkKey(k, kind, objType, uuid);
    var t := TypeField(k);
    assert kind == "ref" ==> |t| == 4;
    assert kind == "parent" ==> |t| == 7;
    assert k[..|t|] == t;
  }

  /**
   * A reference or parent is accepted exactly if the name of the object with its uuid is known; a reference is
   * then pushed with that name, a parent without. A link to an unknown object asks for the row to be read again.
   */
  lemma LinkColumn(c: Column, names: Names, kind: string, objType: string, uuid: string)
    requires IsLinkKey(c.key, kind, objType, uuid)
    ensures Accepted(c, names) <==> names(uuid).Some?
    ensures IsUnknown(c, names) <==> names(uuid).None?
    ensures names(uuid).Some? ==>
      PayloadOf(c, names) == Payload(c.value, if kind == "ref" then names(uuid).value else "")
  {
    LinkKey(c.key, kind, objType, uuid);
    LinkKind(c.key, kind, objType, uuid);
  }

  /** The two properties that are not stored, by their whole keys. */
  lemma SkippedKeys(k: Key)
    ensures IsSkipped(k) <==> k == "prop:" + "perms2" || k == "prop:" + "draft_mode_state"
  {
    var i := FirstColon(k);
    if TypeField(k) == "prop:" {
      assert k == k[..i + 1] + k[i + 1..];
      PropKey(k, k[i + 1..]);
    }
    if k == "prop:" + "perms2" { PropKey(k, "perms2"); }
    if k == "prop:" + "draft_mode_state" { PropKey(k, "draft_mode_state"); }
  }

  lemma DraftColumn(c: Column)
    ensures IsDraft(c) <==> c.key == "prop:" + "draft_mode_state" && c.value != ""
  {
    SkippedKeys(c.key);
    if c.key == "prop:" + "draft_mode_state" { PropKey(c.key, "draft_mode_state"); }
    if c.key == "prop:" + "perms2" { PropKey(c.key, "perms2"); }
  }

  /** A map property and its key. */
  lemma MapKey(k: Key, name: string, index: string)
    requires k == "propm:" + name + ":" + index && ':' !in index
    ensures IsListMap(k) && Group(k) == MapPrefix(name) && PropName(k) == name && IsField(k) && !IsLink(k)
    ensures !IsSkipped(k)
  {
    assert k == "propm" + ":" + (name + ":" + index);
    FirstColonAt("propm", name + ":" + index);
    assert k == MapPrefix(name) + ":" + index;
    LastColonAt(MapPrefix(name), index);
    assert k[..6] == "propm:";
    ListMapIsField(k);
  }

  // ---- Rows ----

  /** A column that is accepted is in the row under its key, and one that is not is not. */
  lemma {:induction false} RowIs(cols: seq<Column>, names: Names, i: nat)
    requires DistinctKeys(cols) && i < |cols|
    ensures cols[i].key in Row(cols, names) <==> Accepted(cols[i], names)
    ensures Accepted(cols[i], names) ==> Row(cols, names)[cols[i].key] == cols[i]
    decreases |cols|
  {
    var u, c := cols[..|cols| - 1], cols[|cols| - 1];
    if i < |u| {
      assert u[i] == cols[i] && cols[i].key != c.key;
      RowIs(u, names, i);
    } else {
      RowFacts(u, names);
      assert forall j {:trigger u[j]} :: 0 <= j < |u| ==> u[j] == cols[j];
    }
  }

  /** The cache has exactly the accepted columns of the row. */
  ghost predicate Caches(f: Fields, cols: seq<Column>, names: Names) {
    forall i {:trigger cols[i]} :: 0 <= i < |cols| ==> (cols[i].key in f <==> Accepted(cols[i], names))
  }

  function RefName(c: Column, names: Names): string {
    if TypeField(c.key) == "ref:" && names(LinkUuid(c.key)).Some? then names(LinkUuid(c.key)).value else ""
  }

  /** The consumer has every accepted field of the row with its value, and a reference with the name it leads to. */
  ghost predicate Conveys(c: Config, cols: seq<Column>, names: Names) {
    forall i {:trigger cols[i]} :: 0 <= i < |cols| && IsField(cols[i].key) && Accepted(cols[i], names) ==>
      cols[i].key in c && c[cols[i].key] == Payload(cols[i].value, RefName(cols[i], names))
  }

  lemma UsableCaches(s: Sync, cols: seq<Column>, names: Names, known: bool)
    requires Usable(cols) && DistinctKeys(cols)
    ensures Caches(Process(s, cols, names, known).fields, cols, names)
  {
    forall i | 0 <= i < |cols|
      ensures cols[i].key in Process(s, cols, names, known).fields <==> Accepted(cols[i], names)
    {
      RowIs(cols, names, i);
    }
  }

  /** A cached column has its timestamp from the row, but the type and the name keep the first one they had. */
  lemma UsableTimestamps(s: Sync, cols: seq<Column>, names: Names, known: bool, i: nat)
    requires Usable(cols) && DistinctKeys(cols) && i < |cols| && Accepted(cols[i], names)
    ensures var k, f := cols[i].key, Process(s, cols, names, known).fields;
      && k in f
      && f[k].ts == (if (k == "type" || k == "fq_name") && k in s.fields then s.fields[k].ts else cols[i].ts)
  {
    RowIs(cols, names, i);
  }

  /** A row that reaches the consumer as a whole reaches it with its values. */
  lemma SnapshotConveys(cols: seq<Column>, names: Names)
    requires DistinctKeys(cols)
    ensures AllAccepted(Row(cols, names), names) && Conveys(Snapshot(Row(cols, names), names), cols, names)
  {
    RowAccepted(cols, names);
    forall i | 0 <= i < |cols| && IsField(cols[i].key) && Accepted(cols[i], names)
      ensures var c := Snapshot(Row(cols, names), names);
        cols[i].key in c && c[cols[i].key] == Payload(cols[i].value, RefName(cols[i], names))
    {
      RowIs(cols, names, i);
    }
  }

  /** The first row of an object is the consumer's picture of it. */
  lemma FirstRowIsSnapshot(cols: seq<Column>, names: Names, known: bool)
    requires Usable(cols)
    ensures AllAccepted(Row(cols, names), names)
    ensures Process(EMPTY, cols, names, known).config == Snapshot(Row(cols, names), names)
  {
    RowAccepted(cols, names);
    var row := Row(cols, names);
    assert Dirty(map[]) == map[];
    AllSent(row);
    OutcomeIsSnapshotIff(map[], map[], row, names);
  }

  lemma FirstRowConveys(cols: seq<Column>, names: Names, known: bool)
    requires Usable(cols) && DistinctKeys(cols)
    ensures Conveys(Process(EMPTY, cols, names, known).config, cols, names)
  {
    FirstRowIsSnapshot(cols, names, known);
    SnapshotConveys(cols, names);
  }

  /** The same for any row of a consumer in sync, if no lost property looks non-empty. */
  lemma LaterRowConveys(s: Sync, cols: seq<Column>, names: Names, known: bool, truth: Truth)
    requires InSync(s, truth) && TrueRow(Row(cols, names), names, truth) && Usable(cols) && DistinctKeys(cols)
    requires NoClash(s.fields.Keys, Row(cols, names))
    ensures Conveys(Process(s, cols, names, known).config, cols, names)
  {
    UsableKeepsSyncIff(s, cols, names, known, truth);
    SnapshotConveys(cols, names);
  }

  /** After a first row a reference to a known object is cached and with the consumer, with the object's name. */
  lemma FirstRowLinks(cols: seq<Column>, names: Names, known: bool, i: nat, kind: string, objType: string, uuid: string)
    requires Usable(cols) && DistinctKeys(cols) && i < |cols| && IsLinkKey(cols[i].key, kind, objType, uuid)
    ensures var s := Process(EMPTY, cols, names, known);
      && (cols[i].key in s.fields <==> names(uuid).Some?)
      && (names(uuid).Some? ==> cols[i].key in s.config)
      && (names(uuid).Some? ==>
            s.config[cols[i].key] == Payload(cols[i].value, if kind == "ref" then names(uuid).value else ""))
  {
    UsableCaches(EMPTY, cols, names, known);
    FirstRowConveys(cols, names, known);
    LinkKey(cols[i].key, kind, objType, uuid);
    LinkKind(cols[i].key, kind, objType, uuid);
    LinkColumn(cols[i], names, kind, objType, uuid);
  }

  // ---- Usable rows ----

  lemma {:induction false} UnquotedEmpty(v: string)
    ensures Unquoted(v) == "" <==> forall i {:trigger v[i]} :: 0 <= i < |v| ==> v[i] == '"'
  {
    if v != [] {
      UnquotedEmpty(v[1..]);
      assert forall i {:trigger v[i]} :: 0 < i < |v| ==> v[i] == v[1..][i - 1];
    }
  }

  /** The column gives the object a type. */
  predicate GivesType(c: Column) {
    c.key == "type" && exists i {:trigger c.value[i]} :: 0 <= i < |c.value| && c.value[i] != '"'
  }

  lemma {:induction false} TypeOfEmpty(cols: seq<Column>)
    ensures TypeOf(cols) == "" <==> forall i {:trigger cols[i]} :: 0 <= i < |cols| ==> !GivesType(cols[i])
    decreases |cols|
  {
    if cols != [] {
      var u, c := cols[..|cols| - 1], cols[|cols| - 1];
      TypeOfEmpty(u);
      UnquotedEmpty(c.value);
      assert forall i {:trigger cols[i]} :: 0 <= i < |u| ==> cols[i] == u[i];
    }
  }

  /** A row counts if and only if it names the object, gives its type, and is not a draft. */
  lemma UsableIff(cols: seq<Column>)
    ensures Usable(cols) <==>
      && (exists i {:trigger cols[i]} :: 0 <= i < |cols| && cols[i].key == "fq_name")
      && (exists i {:trigger cols[i]} :: 0 <= i < |cols| && GivesType(cols[i]))
      && (forall i {:trigger cols[i]} :: 0 <= i < |cols| ==>
            !(cols[i].key == "prop:" + "draft_mode_state" && cols[i].value != ""))
  {
    TypeOfEmpty(cols);
    forall i | 0 <= i < |cols| ensures IsDraft(cols[i]) <==>
      cols[i].key == "prop:" + "draft_mode_state" && cols[i].value != ""
    {
      DraftColumn(cols[i]);
    }
  }
}
