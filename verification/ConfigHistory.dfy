/** Sequences of rows: when the consumer stays in sync, and what a draft or an unusable row does to the next one. */
module ConfigHistory {
  import opened ColumnKeys
  import opened ConfigSync
  import opened ConfigRows

  // ---- Runs ----

  datatype Read = Read(cols: seq<Column>, names: Names, known: bool)

  const EMPTY := Sync(map[], map[])

  function After(s: Sync, rows: seq<Read>): Sync {
    if rows == [] then s
    else
      var r := rows[|rows| - 1];
      Process(After(s, rows[..|rows| - 1]), r.cols, r.names, r.known)
  }

  ghost predicate AllTrue(rows: seq<Read>, truth: Truth) {
    forall i {:trigger rows[i]} :: 0 <= i < |rows| ==> TrueRow(Row(rows[i].cols, rows[i].names), rows[i].names, truth)
  }

  ghost predicate AlwaysInSync(s: Sync, rows: seq<Read>, truth: Truth) {
    InSync(After(s, rows), truth) && (rows != [] ==> AlwaysInSync(s, rows[..|rows| - 1], truth))
  }

  /** Every row meets the condition of its kind at its turn. */
  ghost predicate AllKeepSync(s: Sync, rows: seq<Read>) {
    rows != [] ==>
      var u, r := rows[..|rows| - 1], rows[|rows| - 1];
      AllKeepSync(s, u) && KeepsSync(After(s, u), r.cols, r.names, r.known)
  }

  /** Cache and consumer are in sync throughout a run exactly if every row meets the condition of its kind. */
  lemma {:induction false} RunKeepsSyncIff(s: Sync, rows: seq<Read>, truth: Truth)
    requires InSync(s, truth) && AllTrue(rows, truth)
    ensures AlwaysInSync(s, rows, truth) <==> AllKeepSync(s, rows)
    decreases |rows|
  {
    if rows != [] {
      var u, r := rows[..|rows| - 1], rows[|rows| - 1];
      RunKeepsSyncIff(s, u, truth);
      if InSync(After(s, u), truth) {
        KeepsSyncIff(After(s, u), r.cols, r.names, r.known, truth);
      }
    }
  }

  // ---- A draft row and a usable one ----

  /** Everything cached is still in the row: single fields themselves, list and map properties with some field. */
  ghost predicate StillThere(f: Fields, row: map<Key, Column>) {
    forall k {:trigger k in f} :: k in f && IsField(k) ==> if IsListMap(k) then HasField(row.Keys, k) else k in row
  }

  /** With an empty cache the whole row is sent. */
  lemma AllSent(row: map<Key, Column>)
    ensures forall k {:trigger k in Sent(map[], row)} :: k in row && IsField(k) ==> k in Sent(map[], row)
  {
    var f: Fields := map[];
    forall k | k in row && IsField(k) ensures k in Sent(f, row) {
      assert Changed(f, row[k]);
      assert IsListMap(k) ==> Group(k) in UpdatedGroups(f, row);
    }
  }

  /** With an empty cache nothing is deleted, and properties leave only by replacement. */
  lemma EmptyRemovesIff(row: map<Key, Column>, k: Key)
    requires k !in row
    ensures Removed(map[], row, k) <==> HasField(row.Keys, k)
  {
    AllSent(row);
    if a :| a in row.Keys && SameProperty(a, k) {
      ListMapIsField(a);
      assert a in Sent(map[], row);
    }
  }

  lemma OwnProperty(keys: set<Key>, k: Key)
    requires k in keys && IsListMap(k)
    ensures HasField(keys, k)
  {
    assert SameProperty(k, k);
  }

  lemma EmptyClearedIff(f: Fields, c: Config, row: map<Key, Column>, truth: Truth)
    requires Synced(f, c, truth)
    ensures Cleared(map[], c, row) <==> StillThere(f, row)
  {
    forall k | k in c && k !in row ensures Removed(map[], row, k) <==> HasField(row.Keys, k) {
      EmptyRemovesIff(row, k);
    }
    forall k | k in c && k in row && IsListMap(k) ensures HasField(row.Keys, k) {
      OwnProperty(row.Keys, k);
    }
    assert forall k {:trigger HasField(row.Keys, k)} :: HasField(row.Keys, k) ==> IsListMap(k);
  }

  /**
   * A draft row makes the cache forget what the consumer has. The next usable row has the result of replaying it
   * exactly if it still has everything that was cached before the draft.
   */
  lemma AfterDraftIff(s: Sync, draft: Read, next: Read, truth: Truth)
    requires InSync(s, truth) && Draft(draft.cols) && Usable(next.cols)
    ensures AllAccepted(Row(next.cols, next.names), next.names)
    ensures After(s, [draft, next]).config == Snapshot(Row(next.cols, next.names), next.names) <==>
      StillThere(s.fields, Row(next.cols, next.names))
  {
    var row := Row(next.cols, next.names);
    RowAccepted(next.cols, next.names);
    TwoRows(s, draft, next);
    assert Dirty(map[]) == map[];
    OutcomeIsSnapshotIff(map[], s.config, row, next.names);
    AllSent(row);
    EmptyClearedIff(s.fields, s.config, row, truth);
  }

  lemma TwoRows(s: Sync, a: Read, b: Read)
    ensures After(s, [a, b]) == Process(Process(s, a.cols, a.names, a.known), b.cols, b.names, b.known)
  {
    assert [a, b][..1] == [a] && [a][..0] == [];
    assert After(s, [a]) == Process(After(s, [a][..0]), a.cols, a.names, a.known);
  }

  /** In particular what the row has nothing of stays with the consumer. */
  lemma DraftLeaves(s: Sync, draft: Read, next: Read, k: Key)
    requires Draft(draft.cols) && Usable(next.cols) && k in s.config
    requires k !in Row(next.cols, next.names) && !HasField(Row(next.cols, next.names).Keys, k)
    ensures k in After(s, [draft, next]).config
  {
    var row := Row(next.cols, next.names);
    RowAccepted(next.cols, next.names);
    TwoRows(s, draft, next);
    assert Dirty(map[]) == map[];
    EmptyRemovesIff(row, k);
    NotInRow(map[], s.config, row, next.names, k);
  }

  // ---- An unusable row and a usable one ----

  /** The cache that a row finds after an unusable row. */
  function Unpushed(f: Fields, row: map<Key, Column>): Fields {
    Dirty(Stored(Dirty(f), row))
  }

  /** What the unusable row had and the next row does not send is with the consumer already. */
  ghost predicate NothingLost(s: Sync, bad: map<Key, Column>, row: map<Key, Column>, names: Names)
    requires AllAccepted(row, names)
  {
    forall k {:trigger row[k]} :: k in bad && k in row && IsField(k) && k !in Sent(Unpushed(s.fields, bad), row) ==>
      k in s.config && s.config[k] == PayloadOf(row[k], names)
  }

  lemma ReachedUnpushedIff(s: Sync, bad: map<Key, Column>, row: map<Key, Column>, names: Names, truth: Truth)
    requires InSync(s, truth) && TrueRow(row, names, truth)
    ensures Reached(Unpushed(s.fields, bad), s.config, row, names) <==> NothingLost(s, bad, row, names)
  {
    var f := Unpushed(s.fields, bad);
    forall k | k in row && k !in bad && IsField(k) && k !in Sent(f, row)
      ensures k in s.config && s.config[k] == PayloadOf(row[k], names)
    {
      UnsentIsCached(f, row, k);
      assert k in s.fields && s.fields[k].ts == row[k].ts;
    }
  }

  /**
   * A row without type or name of an object that is not known by name is cached and not pushed. The next usable row
   * has the result of replaying it exactly if no lost property looks non-empty, and what the unusable row had and
   * the next row does not send was with the consumer already.
   */
  lemma AfterUnusableIff(s: Sync, bad: Read, next: Read, truth: Truth)
    requires InSync(s, truth) && TrueRow(Row(next.cols, next.names), next.names, truth)
    requires !Draft(bad.cols) && !Usable(bad.cols) && !bad.known && Usable(next.cols)
    ensures After(s, [bad, next]).config == Snapshot(Row(next.cols, next.names), next.names) <==>
      && NoClash(s.fields.Keys, Row(next.cols, next.names))
      && NothingLost(s, Row(bad.cols, bad.names), Row(next.cols, next.names), next.names)
  {
    var row, lost := Row(next.cols, next.names), Row(bad.cols, bad.names);
    var f := Unpushed(s.fields, lost);
    TwoRows(s, bad, next);
    OutcomeIsSnapshotIff(f, s.config, row, next.names);
    ReachedUnpushedIff(s, lost, row, next.names, truth);
    ClearedIff(f, s.config, row);
    SameClash(s.fields, s.config, row, truth);
  }

  /** In particular a single field that was new in the unusable row is lost if its timestamp stays. */
  lemma LostField(s: Sync, bad: Read, next: Read, k: Key)
    requires !Draft(bad.cols) && !Usable(bad.cols) && !bad.known && Usable(next.cols)
    requires k in Row(bad.cols, bad.names) && k in Row(next.cols, next.names) && k !in s.config
    requires IsField(k) && !IsListMap(k)
    requires Row(bad.cols, bad.names)[k].ts == Row(next.cols, next.names)[k].ts != 0
    ensures AllAccepted(Row(next.cols, next.names), next.names)
    ensures k in Snapshot(Row(next.cols, next.names), next.names) && k !in After(s, [bad, next]).config
  {
    var row, lost := Row(next.cols, next.names), Row(bad.cols, bad.names);
    RowFacts(next.cols, next.names);
    TwoRows(s, bad, next);
    var f := Unpushed(s.fields, lost);
    assert f[k].ts == row[k].ts && !Changed(f, row[k]);
    InRow(f, s.config, row, next.names, k);
  }

  // ---- Concrete rows ----

  lemma PropKey(k: Key, name: string)
    requires k == "prop:" + name
    ensures TypeField(k) == "prop:" && k[FirstColon(k) + 1..] == name && IsField(k) && !IsListMap(k) && !IsLink(k)
    ensures IsSkipped(k) <==> name == "perms2" || name == "draft_mode_state"
  {
    assert k == "prop" + ":" + name;
    FirstColonAt("prop", name);
  }

  lemma ListKey(k: Key, name: string, index: string)
    requires k == "propl:" + name + ":" + index && ':' !in index
    ensures IsListMap(k) && Group(k) == ListPrefix(name) && PropName(k) == name && IsField(k) && !IsLink(k)
    ensures !IsSkipped(k)
  {
    assert k == "propl" + ":" + (name + ":" + index);
    FirstColonAt("propl", name + ":" + index);
    assert k == ListPrefix(name) + ":" + index;
    LastColonAt(ListPrefix(name), index);
    assert k[..6] == "propl:";
    ListMapIsField(k);
  }

  predicate Are(cols: seq<Column>, n: Column, c: Column, t: Column) {
    |cols| == 3 && cols[0] == n && cols[1] == c && cols[2] == t
  }

  predicate Identifies(n: Column, t: Column) {
    n == Column("fq_name", "[]", 5) && t == Column("type", "x", 5)
  }

  lemma IdentityKeys(n: Column, t: Column)
    requires Identifies(n, t)
    ensures !IsSkipped(n.key) && !IsSkipped(t.key) && !IsListMap(n.key) && !IsListMap(t.key)
    ensures !IsField(n.key) && !IsField(t.key)
  {
    PlainKey(n.key);
    PlainKey(t.key);
  }

  lemma PlainKey(k: Key)
    requires k == "fq_name" || k == "type"
    ensures !IsSkipped(k) && !IsListMap(k) && !IsField(k)
  {
    NoColon(k);
  }

  lemma TypeLast(cols: seq<Column>, t: Column)
    requires cols != [] && cols[|cols| - 1] == t && t.key == "type" && Unquoted(t.value) != ""
    ensures TypeOf(cols) != ""
  {
  }

  lemma UsableRow(cols: seq<Column>, n: Column, c: Column, t: Column)
    requires Are(cols, n, c, t) && Identifies(n, t) && !IsSkipped(c.key)
    ensures Usable(cols)
  {
    assert Unquoted(t.value) == "x";
    TypeLast(cols, t);
    IdentityKeys(n, t);
    NoDraft(cols, n, c, t);
  }

  lemma NoDraft(cols: seq<Column>, n: Column, c: Column, t: Column)
    requires Are(cols, n, c, t) && !IsSkipped(n.key) && !IsSkipped(c.key) && !IsSkipped(t.key)
    ensures !Draft(cols)
  {
    assert !IsDraft(n) && !IsDraft(c) && !IsDraft(t);
  }

  /** A property that is gone stays with the consumer if another one has a name that starts like it. */
  lemma ClashLeaves(s: Sync, next: Read, k: Key, other: Key)
    requires Usable(next.cols) && k in s.config && IsListMap(k)
    requires var row := Row(next.cols, next.names);
      k !in row && !HasField(row.Keys, k) && other in row && HasPrefix(other, ListPrefix(PropName(k)))
    ensures k in Process(s, next.cols, next.names, next.known).config
  {
    var row := Row(next.cols, next.names);
    RowAccepted(next.cols, next.names);
    assert !PropEmpty(row.Keys, PropName(k));
    NotInRow(Dirty(s.fields), s.config, row, next.names, k);
  }

  /** The first row of an object is cached and reaches the consumer. */
  lemma FirstRow(r: Read, i: nat)
    requires Usable(r.cols) && i < |r.cols| && IsField(r.cols[i].key) && Accepted(r.cols[i], r.names)
    ensures r.cols[i].key in Process(EMPTY, r.cols, r.names, r.known).fields
    ensures r.cols[i].key in Process(EMPTY, r.cols, r.names, r.known).config
  {
    var row := Row(r.cols, r.names);
    RowAccepted(r.cols, r.names);
    RowHas(r.cols, r.names, i);
    AllSent(row);
    assert Dirty(map[]) == map[];
    InRow(map[], map[], row, r.names, r.cols[i].key);
  }

  /** A row has nothing of the property of k if none of its columns is of it. */
  lemma NothingOf(r: Read, n: Column, c: Column, t: Column, k: Key)
    requires Are(r.cols, n, c, t) && n.key != k && c.key != k && t.key != k
    requires !SameProperty(n.key, k) && !SameProperty(c.key, k) && !SameProperty(t.key, k)
    ensures k !in Row(r.cols, r.names) && !HasField(Row(r.cols, r.names).Keys, k)
  {
    RowFacts(r.cols, r.names);
    var row := Row(r.cols, r.names);
    forall a | a in row ensures a != k && !SameProperty(a, k) {
      assert row[a] == n || row[a] == c || row[a] == t;
    }
  }

  lemma ClashOf(s: Sync, r: Read, n: Column, a: Key, ab: Column, t: Column)
    requires Are(r.cols, n, ab, t) && Usable(r.cols) && a in s.config && Accepted(ab, r.names)
    requires IsListMap(a) && !IsListMap(n.key) && !IsListMap(t.key) && Group(a) != Group(ab.key)
    requires HasPrefix(ab.key, ListPrefix(PropName(a)))
    ensures a !in Row(r.cols, r.names) && a in Process(s, r.cols, r.names, r.known).config
  {
    NothingOf(r, n, ab, t, a);
    RowHas(r.cols, r.names, 1);
    ClashLeaves(s, r, a, ab.key);
  }

  /** The first row has lists a and ab and the next has ab only: list a, which was cached, stays with the consumer. */
  lemma ClashExample(first: Read, next: Read, n: Column, a: Column, ab: Column, t: Column)
    requires a == Column("propl:a:0", "1", 5) && ab == Column("propl:ab:0", "2", 5) && Identifies(n, t)
    requires |first.cols| == 4 && Are(first.cols[..3], n, a, ab) && first.cols[3] == t && Are(next.cols, n, ab, t)
    ensures a.key in After(EMPTY, [first]).fields && a.key in After(EMPTY, [first]).config
    ensures a.key !in Row(next.cols, next.names) && a.key in After(EMPTY, [first, next]).config
  {
    assert a.key == FirstOf("a") && ab.key == FirstOf("ab");
    ClashKeys(a, ab, "a", "ab", first.names, next.names);
    UsableRow(next.cols, n, ab, t);
    IdentityKeys(n, t);
    ClashStart(first, n, a, ab, t);
    OneRow(EMPTY, first);
    TwoRows(EMPTY, first, next);
    ClashOf(Process(EMPTY, first.cols, first.names, first.known), next, n, a.key, ab, t);
  }

  lemma ClashStart(first: Read, n: Column, a: Column, ab: Column, t: Column)
    requires Identifies(n, t) && IsListMap(a.key) && Accepted(a, first.names) && !IsSkipped(ab.key)
    requires |first.cols| == 4 && Are(first.cols[..3], n, a, ab) && first.cols[3] == t
    ensures a.key in Process(EMPTY, first.cols, first.names, first.known).fields
    ensures a.key in Process(EMPTY, first.cols, first.names, first.known).config
  {
    IdentityKeys(n, t);
    NoDraft(first.cols[..3], n, a, ab);
    DraftStep(first.cols);
    assert first.cols[..3][0] == n && first.cols[..3][1] == a;
    assert Unquoted(t.value) == "x";
    TypeLast(first.cols, t);
    ListMapIsField(a.key);
    FirstRow(first, 1);
  }

  lemma DraftStep(cols: seq<Column>)
    requires cols != []
    ensures Draft(cols) <==> Draft(cols[..|cols| - 1]) || IsDraft(cols[|cols| - 1])
  {
    var u := cols[..|cols| - 1];
    assert forall i {:trigger u[i]} {:trigger cols[i]} :: 0 <= i < |u| ==> u[i] == cols[i];
  }

  lemma OneRow(s: Sync, a: Read)
    ensures After(s, [a]) == Process(s, a.cols, a.names, a.known)
  {
    assert [a][..0] == [];
  }

  /** The key of the first element of a list. */
  function FirstOf(name: string): Key {
    "propl:" + name + ":0"
  }

  lemma ClashKeys(a: Column, ab: Column, name: string, longer: string, names: Names, others: Names)
    requires a.key == FirstOf(name) && ab.key == FirstOf(longer) && HasPrefix(longer, name) && longer != name
    ensures IsListMap(a.key) && !IsSkipped(ab.key) && Accepted(a, names) && Accepted(ab, others)
    ensures Group(a.key) != Group(ab.key) && HasPrefix(ab.key, ListPrefix(PropName(a.key)))
  {
    ListKey(a.key, name, "0");
    ListKey(ab.key, longer, "0");
    assert longer == name + longer[|name|..];
    assert |ListPrefix(name)| != |ListPrefix(longer)|;
  }

  lemma DraftBetween(first: Read, draft: Read, last: Read, n: Column, a: Column, b: Column, t: Column)
    requires Are(first.cols, n, a, t) && Draft(draft.cols) && Are(last.cols, n, b, t)
    requires Usable(first.cols) && Usable(last.cols) && Accepted(a, first.names)
    requires IsField(a.key) && !IsListMap(a.key) && !IsField(n.key) && a.key != b.key && !IsField(t.key)
    ensures a.key !in Row(last.cols, last.names) && a.key in After(EMPTY, [first, draft, last]).config
  {
    FirstRow(first, 1);
    NothingOf(last, n, b, t, a.key);
    DraftLeaves(Process(EMPTY, first.cols, first.names, first.known), draft, last, a.key);
    ThreeRows(EMPTY, first, draft, last);
  }

  /** A draft between two usable rows: the property that the last row has lost stays with the consumer. */
  lemma DraftExample(first: Read, draft: Read, last: Read, n: Column, a: Column, b: Column, d: Column, t: Column)
    requires a == Column("prop:a", "1", 5) && b == Column("prop:b", "2", 5)
    requires d == Column("prop:draft_mode_state", "x", 5) && Identifies(n, t)
    requires Are(first.cols, n, a, t) && Are(draft.cols, n, d, t) && Are(last.cols, n, b, t)
    ensures a.key !in Row(last.cols, last.names) && a.key in After(EMPTY, [first, draft, last]).config
  {
    DraftKeys(a, b, first.names);
    DraftColumn(draft.cols, d);
    IdentityKeys(n, t);
    UsableRow(first.cols, n, a, t);
    UsableRow(last.cols, n, b, t);
    DraftBetween(first, draft, last, n, a, b, t);
  }

  lemma DraftColumn(cols: seq<Column>, d: Column)
    requires |cols| == 3 && cols[1] == d && d == Column("prop:draft_mode_state", "x", 5)
    ensures Draft(cols)
  {
    PropKey(d.key, "draft_mode_state");
    assert IsDraft(cols[1]);
  }

  lemma DraftKeys(a: Column, b: Column, names: Names)
    requires a.key == "prop:a" && b.key == "prop:b"
    ensures IsField(a.key) && !IsListMap(a.key) && Accepted(a, names) && !IsSkipped(a.key) && !IsSkipped(b.key)
    ensures a.key != b.key
  {
    PropKey(a.key, "a");
    PropKey(b.key, "b");
  }

  lemma ThreeRows(s: Sync, a: Read, b: Read, c: Read)
    ensures After(s, [a, b, c]) == After(Process(s, a.cols, a.names, a.known), [b, c])
  {
    assert [a, b, c][..2] == [a, b];
    TwoRows(s, a, b);
    TwoRows(Process(s, a.cols, a.names, a.known), b, c);
  }

  /** An object read first without its type: the property it came with does not reach the consumer. */
  lemma LostFieldExample(first: Read, next: Read, n: Column, a: Column, t: Column)
    requires a == Column("prop:a", "1", 5) && Identifies(n, t) && first.cols == [a] && !first.known
    requires Are(next.cols, n, a, t)
    ensures a.key in Row(next.cols, next.names) && a.key !in After(EMPTY, [first, next]).config
  {
    PropKey(a.key, "a");
    UsableRow(next.cols, n, a, t);
    assert !Named(first.cols) && !IsDraft(first.cols[0]);
    RowHas(first.cols, first.names, 0);
    RowHas(next.cols, next.names, 1);
    RowFacts(first.cols, first.names);
    RowFacts(next.cols, next.names);
    LostField(EMPTY, first, next, a.key);
  }
}
