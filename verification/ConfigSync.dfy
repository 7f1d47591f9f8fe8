/** What reading a row means: the cached fields, what is pushed, and what the consumer makes of it. */
module ConfigSync {
  import opened Options
  import opened ColumnKeys

  // ---- Columns ----

  datatype Column = Column(key: Key, value: string, ts: nat)

  datatype Payload = Payload(value: string, refName: string)

  /** The name of the object with a uuid, if it has been read. */
  type Names = string -> Option<string>

  /** The part of a key up to its first colon, which tells what kind of column it is. */
  function TypeField(k: Key): string {
    if FirstColon(k) == |k| then "" else k[..FirstColon(k) + 1]
  }

  predicate IsLink(k: Key) {
    TypeField(k) == "ref:" || TypeField(k) == "parent:"
  }

  predicate IsListMap(k: Key) {
    TypeField(k) == "propl:" || TypeField(k) == "propm:"
  }

  /** Properties no one uses. */
  predicate IsSkipped(k: Key) {
    TypeField(k) == "prop:" && (k[FirstColon(k) + 1..] == "perms2" || k[FirstColon(k) + 1..] == "draft_mode_state")
  }

  /** The name of a list or map property. */
  function Group(k: Key): Key {
    k[..LastColon(k)]
  }

  /** The name the consumer knows a list or map property by; a key with one colon is a property of its own. */
  function PropName(k: Key): string {
    var i, j := FirstColon(k), LastColon(k);
    if i >= |k| then "" else if j <= i then k[i + 1..] else k[i + 1..j]
  }

  predicate SameProperty(a: Key, k: Key) {
    IsListMap(a) && IsListMap(k) && Group(a) == Group(k) && PropName(a) == PropName(k)
  }

  /** Some of the keys is of the property of k. */
  predicate HasField(keys: set<Key>, k: Key) {
    exists a {:trigger SameProperty(a, k)} :: a in keys && SameProperty(a, k)
  }

  /** The test of IsListOrMapPropEmpty: no key starts like a list or a map of the name, whatever follows. */
  predicate PropEmpty(keys: set<Key>, name: string) {
    forall a {:trigger a in keys} :: a in keys ==> !HasPrefix(a, MapPrefix(name)) && !HasPrefix(a, ListPrefix(name))
  }

  function ListPrefix(name: string): Key {
    "propl:" + name
  }

  function MapPrefix(name: string): Key {
    "propm:" + name
  }

  /** A cached field keeps its own property from being empty. */
  lemma NotEmpty(keys: set<Key>, k: Key)
    requires IsListMap(k) && k in keys
    ensures !PropEmpty(keys, PropName(k))
  {
    var i, j := FirstColon(k), LastColon(k);
    ColonOrder(k, i);
    var p := TypeField(k) + PropName(k);
    assert p == if j <= i then k else k[..j];
    assert HasPrefix(k, p);
    assert p == ListPrefix(PropName(k)) || p == MapPrefix(PropName(k));
  }

  lemma GroupFacts(k: Key)
    requires IsListMap(k)
    ensures |Group(k)| >= 5 && Group(k)[0] == 'p' && |Group(k)| < |k| && HasPrefix(k, Group(k))
  {
    var i := FirstColon(k);
    ColonOrder(k, i);
    assert k[..i + 1][0] == 'p';
    assert |k[..i + 1]| == 6;
  }

  function LinkUuid(k: Key): string {
    if LastColon(k) == |k| then k else k[LastColon(k) + 1..]
  }

  predicate Accepted(c: Column, names: Names) {
    !IsSkipped(c.key) && (IsLink(c.key) ==> names(LinkUuid(c.key)).Some?)
  }

  function PayloadOf(c: Column, names: Names): Payload
    requires Accepted(c, names)
  {
    Payload(c.value, if TypeField(c.key) == "ref:" then names(LinkUuid(c.key)).value else "")
  }

  predicate DistinctKeys(cols: seq<Column>) {
    forall i, j {:trigger cols[i], cols[j]} :: 0 <= i < j < |cols| ==> cols[i].key != cols[j].key
  }

  /** The accepted columns by key. */
  function Row(cols: seq<Column>, names: Names): map<Key, Column> {
    if cols == [] then map[]
    else
      var r := Row(cols[..|cols| - 1], names);
      var c := cols[|cols| - 1];
      if Accepted(c, names) then r[c.key := c] else r
  }

  lemma {:induction false} RowFacts(cols: seq<Column>, names: Names)
    ensures forall k {:trigger Row(cols, names)[k]} :: k in Row(cols, names) ==>
      Row(cols, names)[k].key == k && Accepted(Row(cols, names)[k], names) && Row(cols, names)[k] in cols
    decreases |cols|
  {
    if cols != [] {
      RowFacts(cols[..|cols| - 1], names);
    }
  }

  lemma {:induction false} RowHas(cols: seq<Column>, names: Names, i: nat)
    requires i < |cols| && Accepted(cols[i], names)
    ensures cols[i].key in Row(cols, names)
    decreases |cols|
  {
    if i < |cols| - 1 {
      RowHas(cols[..|cols| - 1], names, i);
    }
  }

  predicate AllAccepted(row: map<Key, Column>, names: Names) {
    forall k {:trigger row[k]} :: k in row ==> Accepted(row[k], names)
  }

  // ---- The cache ----

  datatype Entry = Entry(ts: nat, refreshed: bool)

  type Fields = map<Key, Entry>

  /** The type and the name of the object identify it; they are sent whatever their timestamps are. */
  predicate IsField(k: Key) {
    k != "type" && k != "fq_name"
  }

  /** The column is to be pushed: it is new, or its timestamp is not the cached one. */
  predicate Changed(f: Fields, c: Column) {
    c.key !in f || !IsField(c.key) || c.ts == 0 || f[c.key].ts != c.ts
  }

  function Dirty(f: Fields): Fields {
    map k | k in f :: Entry(f[k].ts, false)
  }

  lemma DirtyTwice(f: Fields)
    ensures Dirty(Dirty(f)) == Dirty(f)
  {
  }

  /** The fields after the columns of a row have been stored. */
  function Stored(f: Fields, row: map<Key, Column>): Fields {
    map k | k in f.Keys + row.Keys ::
      if k in row then Entry(if k in f && !IsField(k) then f[k].ts else row[k].ts, true) else f[k]
  }

  /** The fields that were seen in the row. */
  function Refreshed(f: Fields): Fields {
    map k | k in f && f[k].refreshed :: f[k]
  }

  // ---- The consumer ----

  type Config = map<Key, Payload>

  function Snapshot(row: map<Key, Column>, names: Names): Config
    requires AllAccepted(row, names)
  {
    map k | k in row && IsField(k) :: PayloadOf(row[k], names)
  }

  /** Adds set single fields, and replace a list or map property as a whole. */
  function AfterAdds(c: Config, adds: Config): Config {
    (map k | k in c && !HasField(adds.Keys, k) :: c[k]) + adds
  }

  predicate DeletedBy(deletes: set<Key>, cached: set<Key>, k: Key) {
    if IsListMap(k) then HasField(deletes, k) && PropEmpty(cached, PropName(k)) else k in deletes
  }

  /** Deletes remove single fields, and a list or map property if the cache says that it is empty. */
  function AfterDeletes(c: Config, deletes: set<Key>, cached: set<Key>): Config {
    map k | k in c && !DeletedBy(deletes, cached, k) :: c[k]
  }

  lemma DeletesOneByOne(c: Config, done: set<Key>, d: Key, cached: set<Key>)
    ensures AfterDeletes(AfterDeletes(c, done, cached), {d}, cached) == AfterDeletes(c, done + {d}, cached)
  {
    forall k ensures HasField(done + {d}, k) <==> HasField(done, k) || HasField({d}, k) {
    }
  }

  /** In the data base a field with another value has another timestamp. */
  type Truth = (Key, nat) -> Payload

  /** The consumer has what the cache stands for. */
  ghost predicate Synced(f: Fields, c: Config, truth: Truth) {
    && (forall k {:trigger k in c} {:trigger k in f} :: k in c <==> k in f && IsField(k))
    && (forall k {:trigger c[k]} :: k in c && f[k].ts != 0 ==> c[k] == truth(k, f[k].ts))
  }

  ghost predicate TrueRow(row: map<Key, Column>, names: Names, truth: Truth) {
    forall k {:trigger row[k]} :: k in row ==>
      && row[k].key == k && Accepted(row[k], names)
      && (IsField(k) && row[k].ts != 0 ==> PayloadOf(row[k], names) == truth(k, row[k].ts))
  }

  // ---- What is collected while the columns are stored ----

  /** The parse context: the list and map properties of the row, and which of them may have to be replaced. */
  datatype Context = Context(
    listMap: Config,
    updated: set<Key>,
    candidates: set<Key>,
    objType: string,
    named: bool,
    draft: bool,
    unknown: bool)

  /** The changed single fields of a row. */
  function SingleKeys(f: Fields, row: map<Key, Column>): set<Key> {
    set k | k in row && !IsListMap(k) && Changed(f, row[k])
  }

  function Restrict(c: Config, keys: set<Key>): Config {
    map k | k in c && k in keys :: c[k]
  }

  function Values(row: map<Key, Column>, names: Names): Config
    requires AllAccepted(row, names)
  {
    map k | k in row :: PayloadOf(row[k], names)
  }

  function Singles(f: Fields, row: map<Key, Column>, names: Names): Config
    requires AllAccepted(row, names)
  {
    Restrict(Values(row, names), SingleKeys(f, row))
  }

  function ListKeys(row: map<Key, Column>): set<Key> {
    set k | k in row && IsListMap(k)
  }

  /** The list and map properties of a row. */
  function Lists(row: map<Key, Column>, names: Names): Config
    requires AllAccepted(row, names)
  {
    Restrict(Values(row, names), ListKeys(row))
  }

  function UpdatedGroups(f: Fields, row: map<Key, Column>): set<Key> {
    set k | k in row && IsListMap(k) && Changed(f, row[k]) :: Group(k)
  }

  function CandidateGroups(f: Fields, row: map<Key, Column>): set<Key> {
    set k | k in row && IsListMap(k) && !Changed(f, row[k]) :: Group(k)
  }

  ghost predicate Collected(f: Fields, row: map<Key, Column>, names: Names, x: Context, pushed: Config) {
    && (forall k {:trigger row[k]} :: k in row ==> row[k].key == k) && AllAccepted(row, names)
    && pushed == Singles(f, row, names) && x.listMap == Lists(row, names)
    && x.updated == UpdatedGroups(f, row) && x.candidates == CandidateGroups(f, row)
  }

  function Unquoted(v: string): string {
    if v == [] then [] else (if v[0] == '"' then [] else [v[0]]) + Unquoted(v[1..])
  }

  function TypeAfter(t: string, c: Column): string {
    if c.key == "type" && t == "" then Unquoted(c.value) else t
  }

  predicate IsDraft(c: Column) {
    IsSkipped(c.key) && c.key[FirstColon(c.key) + 1..] == "draft_mode_state" && c.value != ""
  }

  predicate IsUnknown(c: Column, names: Names) {
    !IsSkipped(c.key) && IsLink(c.key) && names(LinkUuid(c.key)).None?
  }

  /** The flags of the context after the columns of a row. */
  function TypeOf(cols: seq<Column>): string {
    if cols == [] then "" else TypeAfter(TypeOf(cols[..|cols| - 1]), cols[|cols| - 1])
  }

  predicate Named(cols: seq<Column>) {
    exists i {:trigger cols[i]} :: 0 <= i < |cols| && cols[i].key == "fq_name"
  }

  predicate Draft(cols: seq<Column>) {
    exists i {:trigger cols[i]} :: 0 <= i < |cols| && IsDraft(cols[i])
  }

  predicate Unknown(cols: seq<Column>, names: Names) {
    exists i {:trigger cols[i]} :: 0 <= i < |cols| && IsUnknown(cols[i], names)
  }

  /** The entry a column gets in the cache. */
  function EntryFor(f: Fields, c: Column): Entry {
    Entry(if c.key in f && !IsField(c.key) then f[c.key].ts else c.ts, true)
  }

  lemma StoreStep(f: Fields, row: map<Key, Column>, c: Column)
    requires c.key !in row
    ensures Stored(f, row[c.key := c]) == Stored(f, row)[c.key := EntryFor(f, c)]
  {
  }

  lemma SingleKeysGrow(f: Fields, row: map<Key, Column>, c: Column)
    requires c.key !in row
    ensures SingleKeys(f, row[c.key := c]) ==
      if !IsListMap(c.key) && Changed(f, c) then SingleKeys(f, row) + {c.key} else SingleKeys(f, row)
  {
    var r := row[c.key := c];
    assert forall k {:trigger r[k]} :: k in r ==> r[k] == if k == c.key then c else row[k];
  }

  lemma ValuesGrow(row: map<Key, Column>, names: Names, c: Column)
    requires AllAccepted(row, names) && Accepted(c, names)
    ensures AllAccepted(row[c.key := c], names)
    ensures Values(row[c.key := c], names) == Values(row, names)[c.key := PayloadOf(c, names)]
  {
    var r := row[c.key := c];
    assert forall k {:trigger r[k]} :: k in r ==> r[k] == if k == c.key then c else row[k];
  }

  lemma RestrictGrow(m: Config, keys: set<Key>, k: Key, v: Payload)
    requires k !in keys
    ensures Restrict(m[k := v], keys) == Restrict(m, keys)
    ensures Restrict(m[k := v], keys + {k}) == Restrict(m, keys)[k := v]
  {
  }

  lemma SinglesGrow(f: Fields, row: map<Key, Column>, names: Names, c: Column)
    requires AllAccepted(row, names) && c.key !in row && Accepted(c, names)
    ensures AllAccepted(row[c.key := c], names)
    ensures Singles(f, row[c.key := c], names) ==
      if !IsListMap(c.key) && Changed(f, c) then Singles(f, row, names)[c.key := PayloadOf(c, names)]
      else Singles(f, row, names)
  {
    SingleKeysGrow(f, row, c);
    ValuesGrow(row, names, c);
    RestrictGrow(Values(row, names), SingleKeys(f, row), c.key, PayloadOf(c, names));
  }

  lemma ListsGrow(row: map<Key, Column>, names: Names, c: Column)
    requires AllAccepted(row, names) && c.key !in row && Accepted(c, names)
    ensures AllAccepted(row[c.key := c], names)
    ensures Lists(row[c.key := c], names) ==
      if IsListMap(c.key) then Lists(row, names)[c.key := PayloadOf(c, names)] else Lists(row, names)
  {
    ListKeysGrow(row, c);
    ValuesGrow(row, names, c);
    RestrictGrow(Values(row, names), ListKeys(row), c.key, PayloadOf(c, names));
  }

  lemma ListKeysGrow(row: map<Key, Column>, c: Column)
    requires c.key !in row
    ensures ListKeys(row[c.key := c]) == if IsListMap(c.key) then ListKeys(row) + {c.key} else ListKeys(row)
  {
  }

  /** The context after an accepted column. */
  function Collect(f: Fields, x: Context, c: Column, names: Names): Context
    requires Accepted(c, names)
  {
    if !IsListMap(c.key) then x
    else x.(
      listMap := x.listMap[c.key := PayloadOf(c, names)],
      updated := if Changed(f, c) then x.updated + {Group(c.key)} else x.updated,
      candidates := if Changed(f, c) then x.candidates else x.candidates + {Group(c.key)})
  }

  lemma CollectStep(f: Fields, row: map<Key, Column>, names: Names, x: Context, pushed: Config, c: Column)
    requires Collected(f, row, names, x, pushed) && c.key !in row && Accepted(c, names)
    ensures Collected(f, row[c.key := c], names, Collect(f, x, c, names),
      if !IsListMap(c.key) && Changed(f, c) then pushed[c.key := PayloadOf(c, names)] else pushed)
  {
    SinglesGrow(f, row, names, c);
    ListsGrow(row, names, c);
    GroupsGrow(f, row, c);
  }

  lemma GroupsGrow(f: Fields, row: map<Key, Column>, c: Column)
    requires c.key !in row
    ensures UpdatedGroups(f, row[c.key := c]) ==
      if IsListMap(c.key) && Changed(f, c) then UpdatedGroups(f, row) + {Group(c.key)} else UpdatedGroups(f, row)
    ensures CandidateGroups(f, row[c.key := c]) ==
      if IsListMap(c.key) && !Changed(f, c) then CandidateGroups(f, row) + {Group(c.key)} else CandidateGroups(f, row)
  {
    UpdatedGrow(f, row, c);
    CandidatesGrow(f, row, c);
  }

  lemma UpdatedGrow(f: Fields, row: map<Key, Column>, c: Column)
    requires c.key !in row
    ensures UpdatedGroups(f, row[c.key := c]) ==
      if IsListMap(c.key) && Changed(f, c) then UpdatedGroups(f, row) + {Group(c.key)} else UpdatedGroups(f, row)
  {
    var r := row[c.key := c];
    forall g | g in UpdatedGroups(f, row) ensures g in UpdatedGroups(f, r) {
      var k :| k in row && IsListMap(k) && Changed(f, row[k]) && Group(k) == g;
      assert r[k] == row[k];
    }
    assert r[c.key] == c;
  }

  lemma CandidatesGrow(f: Fields, row: map<Key, Column>, c: Column)
    requires c.key !in row
    ensures CandidateGroups(f, row[c.key := c]) ==
      if IsListMap(c.key) && !Changed(f, c) then CandidateGroups(f, row) + {Group(c.key)} else CandidateGroups(f, row)
  {
    var r := row[c.key := c];
    forall g | g in CandidateGroups(f, row) ensures g in CandidateGroups(f, r) {
      var k :| k in row && IsListMap(k) && !Changed(f, row[k]) && Group(k) == g;
      assert r[k] == row[k];
    }
    assert r[c.key] == c;
  }

  // ---- What is pushed ----

  /** Single fields that changed, and all fields of the list and map properties to be replaced. */
  function AddKeys(f: Fields, row: map<Key, Column>, replaced: set<Key>): set<Key> {
    set k | k in row && IsField(k) && (if IsListMap(k) then Group(k) in replaced else Changed(f, row[k]))
  }

  function Adds(f: Fields, row: map<Key, Column>, names: Names, replaced: set<Key>): Config
    requires AllAccepted(row, names)
  {
    Restrict(Values(row, names), AddKeys(f, row, replaced))
  }

  /** The keys that the scan for a property looks at: from its name on, as long as all but its last character agree. */
  predicate Near(g: Key, s: Key) {
    |g| > 0 && LessEq(g, s) && HasPrefix(s, g[..|g| - 1])
  }

  predicate StaleNear(f: Fields, row: map<Key, Column>, g: Key) {
    exists s {:trigger Near(g, s)} :: s in f && s !in row && Near(g, s)
  }

  /** The properties that are replaced: those with a changed field, and those whose scan finds a stale field. */
  function Replaced(f: Fields, row: map<Key, Column>): set<Key> {
    UpdatedGroups(f, row) + Scanned(f, row, CandidateGroups(f, row))
  }

  function Scanned(f: Fields, row: map<Key, Column>, candidates: set<Key>): set<Key> {
    set g | g in candidates && StaleNear(f, row, g)
  }

  lemma ScannedGrows(f: Fields, row: map<Key, Column>, done: set<Key>, g: Key)
    ensures Scanned(f, row, done + {g}) == Scanned(f, row, done) + if StaleNear(f, row, g) then {g} else {}
  {
  }

  /** A property of the row that lost a field is replaced. */
  lemma StaleIsReplaced(f: Fields, row: map<Key, Column>, a: Key, k: Key)
    requires a in row && k in f && k !in row && SameProperty(a, k)
    ensures Group(a) in Replaced(f, row)
  {
    GroupFacts(k);
    var g := Group(k);
    PrefixLess(g, k);
    assert k[..|g| - 1] == k[..|g|][..|g| - 1];
    assert Near(g, k);
    assert g in UpdatedGroups(f, row) || g in CandidateGroups(f, row);
  }

  /** Stale fields: cached and not in the row. */
  function Stale(f: Fields, row: map<Key, Column>): set<Key> {
    set k | k in f && k !in row && IsField(k)
  }

  lemma ListMapIsField(k: Key)
    requires IsListMap(k)
    ensures IsField(k)
  {
    if !IsField(k) {
      NoColon(k);
    }
  }

  lemma NoColon(k: Key)
    requires ':' !in k
    ensures FirstColon(k) == |k|
  {
  }

  /** What is pushed for a row: the changed single fields and the replaced properties. */
  function Pushed(singles: Config, lists: Config, replaced: set<Key>): Config {
    (map k | k in singles && IsField(k) :: singles[k]) + (map k | k in lists && Group(k) in replaced :: lists[k])
  }

  function PushedKeys(singles: set<Key>, lists: set<Key>, replaced: set<Key>): set<Key> {
    (set k | k in singles && IsField(k)) + (set k | k in lists && Group(k) in replaced)
  }

  lemma PushedRestricted(m: Config, singles: set<Key>, lists: set<Key>, replaced: set<Key>)
    ensures Pushed(Restrict(m, singles), Restrict(m, lists), replaced) ==
      Restrict(m, PushedKeys(singles, lists, replaced))
  {
  }

  lemma PushedIsAdds(f: Fields, row: map<Key, Column>, names: Names, replaced: set<Key>)
    requires AllAccepted(row, names)
    ensures Pushed(Singles(f, row, names), Lists(row, names), replaced) == Adds(f, row, names, replaced)
  {
    PushedRestricted(Values(row, names), SingleKeys(f, row), ListKeys(row), replaced);
    var a, b := PushedKeys(SingleKeys(f, row), ListKeys(row), replaced), AddKeys(f, row, replaced);
    forall k | k in row ensures k in a <==> k in b {
      PushedAt(f, row, replaced, k);
    }
    assert a == b;
  }

  lemma PushedAt(f: Fields, row: map<Key, Column>, replaced: set<Key>, k: Key)
    requires k in row
    ensures k in PushedKeys(SingleKeys(f, row), ListKeys(row), replaced) <==> k in AddKeys(f, row, replaced)
  {
    if IsListMap(k) {
      ListMapIsField(k);
    }
  }
}
