/** Allocators on top of bit sets: label blocks, index allocators and index maps. */
module Allocators {
  import opened Options
  import opened BitSets

  /** All positions from one through another are in use. */
  ghost predicate Full(x: set<nat>, from: nat, max: int) {
    forall p: nat {:trigger p in x} :: from <= p <= max ==> p in x
  }

  function After(prev: Option<nat>): nat {
    if prev.None? then 0 else prev.value + 1
  }

  /** The first free position after prev, up to max, or else the first free position; None if all are in use. */
  ghost predicate NextFit(x: set<nat>, prev: Option<nat>, max: int, r: Option<nat>) {
    match r
    case None => Full(x, 0, max)
    case Some(m) =>
      && m <= max && m !in x
      && ((m >= After(prev) && Full(x, After(prev), m - 1)) || (Full(x, After(prev), max) && Full(x, 0, m - 1)))
  }

  /** Next fit finds a position exactly when there is a free one. */
  lemma NextFitIsComplete(x: set<nat>, prev: Option<nat>, max: int, r: Option<nat>)
    requires NextFit(x, prev, max, r)
    ensures r.Some? <==> exists p: nat :: p <= max && p !in x
  {
  }

  class LabelBlock {
    const first: nat
    const last: nat
    var prev: Option<nat>
    const used: BitSet

    constructor (first: nat, last: nat)
      ensures Ok() && used.View() == {} && this.first == first && this.last == last && fresh(used)
    {
      this.first, this.last, prev := first, last, None;
      used := new BitSet();
    }

    ghost predicate Ok()
      reads this, used
    {
      Canonical(used.blocks) && forall p {:trigger p in used.View()} :: p in used.View() ==> first + p <= last
    }

    /** 0 if no label is free. A label is in use if its distance from the first one is a member of the bit set. */
    method AllocateLabel() returns (value: nat)
      requires Ok()
      modifies this`prev, used
      ensures Ok() && NextFit(old(used.View()), old(prev), last - first, prev)
      ensures prev.Some? <==> exists p: nat :: p <= last - first && p !in old(used.View())
      ensures prev.Some? ==> value == first + prev.value && used.View() == old(used.View()) + {prev.value}
      ensures prev.None? ==> value == 0 && used.View() == old(used.View())
    {
      ghost var x := used.View();
      var idx := 0;
      while idx < 2
        invariant 0 <= idx <= 2 && used.View() == x && Ok()
        invariant prev == if idx == 0 then old(prev) else None
        invariant idx == 1 ==> Full(x, After(old(prev)), last - first)
        invariant idx == 2 ==> Full(x, 0, last - first)
      {
        var pos: nat;
        if prev.None? {
          pos := used.FindFirstClear();
        } else {
          pos := used.FindNextClear(prev.value);
        }
        if first + pos <= last {
          used.Add(pos);
          prev := Some(pos);
          NextFitIsComplete(x, old(prev), last - first, prev);
          return first + pos;
        }
        prev := None;
        idx := idx + 1;
      }
      NextFitIsComplete(x, old(prev), last - first, prev);
      return 0;
    }

    method ReleaseLabel(value: nat)
      requires Ok() && first <= value <= last
      modifies used
      ensures Ok() && used.View() == old(used.View()) - {value - first}
    {
      used.Remove(value - first);
    }
  }

  class IndexAllocator {
    const max: nat
    var prev: Option<nat>
    const used: BitSet

    constructor (max: nat)
      ensures Ok() && used.View() == {} && this.max == max && fresh(used)
    {
      this.max, prev := max, None;
      used := new BitSet();
    }

    ghost predicate Ok()
      reads this, used
    {
      Canonical(used.blocks) && forall p {:trigger p in used.View()} :: p in used.View() ==> p <= max
    }

    method AllocIndex() returns (index: Option<nat>)
      requires Ok()
      modifies this`prev, used
      ensures Ok() && prev == index
      ensures NextFit(old(used.View()), old(prev), max, index)
      ensures index.Some? <==> exists p: nat :: p <= max && p !in old(used.View())
      ensures used.View() == old(used.View()) + if index.Some? then {index.value} else {}
    {
      var pos: nat;
      if prev.None? {
        pos := used.FindFirstClear();
      } else {
        pos := used.FindNextClear(prev.value);
        if pos > max {
          pos := used.FindFirstClear();
        }
      }
      if pos > max {
        index := None;
      } else {
        index := Some(pos);
        used.Add(pos);
      }
      NextFitIsComplete(old(used.View()), prev, max, index);
      prev := index;
    }

    method FreeIndex(index: nat)
      requires Ok() && index <= max
      modifies used
      ensures Ok() && used.View() == old(used.View()) - {index}
    {
      used.Remove(index);
    }
  }

  // ---- Index maps ----

  /** Keys and used slots correspond one to one: slot takes a key to its index and owner goes back. */
  ghost predicate Paired<K, V>(values: seq<Option<V>>, entries: map<K, V>, slot: map<K, nat>, owner: map<nat, K>) {
    && slot.Keys == entries.Keys
    && (forall k {:trigger slot[k]} :: k in slot ==>
          slot[k] < |values| && values[slot[k]] == Some(entries[k]) && slot[k] in owner && owner[slot[k]] == k)
    && (forall i {:trigger owner[i]} :: i in owner ==> owner[i] in slot && slot[owner[i]] == i)
    && (forall i: nat {:trigger values[i]} :: i < |values| && values[i].Some? ==> i in owner)
  }

  /** No value is stored under two keys. */
  ghost predicate Distinct<K, V>(entries: map<K, V>) {
    forall k, l {:trigger entries[k], entries[l]} :: k in entries && l in entries && k != l ==> entries[k] != entries[l]
  }

  /** With distinct values the slot of a value is the slot of its key. */
  lemma OwnSlot<K, V>(
      values: seq<Option<V>>, entries: map<K, V>, slot: map<K, nat>, owner: map<nat, K>, index: nat, key: K)
    requires Paired(values, entries, slot, owner) && Distinct(entries)
    requires key in entries && index < |values| && values[index] == Some(entries[key])
    ensures slot[key] == index
  {
    var l := owner[index];
    assert entries[l] == entries[key];
  }

  /** A position is set exactly when its slot is in use, and the last slot is. */
  ghost predicate Slotted<V>(x: set<nat>, values: seq<Option<V>>) {
    InSlots(x, values) && (values != [] ==> values[|values| - 1].Some?)
  }

  ghost predicate InSlots<V>(x: set<nat>, values: seq<Option<V>>) {
    forall i: nat {:trigger i in x} :: i in x <==> i < |values| && values[i].Some?
  }

  lemma PopInSlots<V>(x: set<nat>, values: seq<Option<V>>)
    requires InSlots(x, values) && values != [] && values[|values| - 1].None?
    ensures InSlots(x, values[..|values| - 1])
  {
  }

  /** The slot of a new value. */
  function Put<V>(values: seq<Option<V>>, bit: nat, value: V): seq<Option<V>>
    requires bit <= |values|
  {
    if bit == |values| then values + [Some(value)] else values[bit := Some(value)]
  }

  lemma PutPaired<K, V>(
      values: seq<Option<V>>, entries: map<K, V>, slot: map<K, nat>, owner: map<nat, K>, bit: nat, key: K, value: V)
    requires Paired(values, entries, slot, owner) && key !in entries
    requires bit <= |values| && (bit < |values| ==> values[bit].None?)
    ensures Paired(Put(values, bit, value), entries[key := value], slot[key := bit], owner[bit := key])
  {
  }

  /** The first free position is a slot that is not in use, or the next one. */
  lemma PutSlotted<V>(x: set<nat>, values: seq<Option<V>>, bit: nat, value: V)
    requires Slotted(x, values) && LeastClear(x, 0, bit)
    ensures bit <= |values| && (bit < |values| ==> values[bit].None?)
    ensures Slotted(x + {bit}, Put(values, bit, value))
  {
    assert |values| !in x;
  }

  lemma DropPaired<K, V>(
      values: seq<Option<V>>, entries: map<K, V>, slot: map<K, nat>, owner: map<nat, K>, index: nat, key: K)
    requires Paired(values, entries, slot, owner) && key in slot && slot[key] == index < |values|
    ensures Paired(values[index := None], entries - {key}, slot - {key}, owner - {index})
  {
  }

  /** Two keys with the same value can change slots. */
  lemma SwapPaired<K, V>(
      values: seq<Option<V>>, entries: map<K, V>, slot: map<K, nat>, owner: map<nat, K>, k: K, l: K)
    requires Paired(values, entries, slot, owner) && k in slot && l in slot && entries[k] == entries[l]
    ensures Paired(values, entries, slot[k := slot[l]][l := slot[k]], owner[slot[l] := k][slot[k] := l])
  {
  }

  /** The correspondence without a key; the other keys keep their slots exactly if the slot is that of the key. */
  lemma RemovePaired<K, V>(
      values: seq<Option<V>>, entries: map<K, V>, slot: map<K, nat>, owner: map<nat, K>, index: nat, key: K)
    returns (s: map<K, nat>, o: map<nat, K>)
    requires Paired(values, entries, slot, owner)
    requires key in entries && index < |values| && values[index] == Some(entries[key])
    ensures Paired(values[index := None], entries - {key}, s, o)
    ensures s == slot - {key} <==> index == slot[key]
  {
    var l := owner[index];
    SwapPaired(values, entries, slot, owner, key, l);
    s, o := slot[key := slot[l]][l := slot[key]], owner[slot[l] := key][slot[key] := l];
    DropPaired(values, entries, s, o, index, key);
    s, o := s - {key}, o - {index};
    if l != key {
      assert s[l] == slot[key] && (slot - {key})[l] == index;
    }
  }

  lemma PopPaired<K, V>(values: seq<Option<V>>, entries: map<K, V>, slot: map<K, nat>, owner: map<nat, K>)
    requires Paired(values, entries, slot, owner) && values != [] && values[|values| - 1].None?
    ensures Paired(values[..|values| - 1], entries, slot, owner)
  {
  }

  /** K are the keys, V the addresses of the values. */
  class IndexMap<K(==), V(==)> {
    const bits: BitSet
    var values: seq<Option<V>>
    var entries: map<K, V>
    ghost var slot: map<K, nat>
    ghost var owner: map<nat, K>

    constructor ()
      ensures Ok() && entries == map[] && fresh(bits)
    {
      values, entries, slot, owner := [], map[], map[], map[];
      bits := new BitSet();
    }

    /** Bits, slots and keys correspond one to one; slot is the index of a key. */
    ghost predicate Ok()
      reads this, bits
    {
      && Canonical(bits.blocks) && Slotted(bits.View(), values)
      && Paired(values, entries, slot, owner)
    }

    /** None when the key is there already; else the first free index. */
    method Insert(key: K, value: V) returns (index: Option<nat>)
      requires Ok()
      modifies this, bits
      ensures Ok()
      ensures index.None? <==> key in old(entries)
      ensures index.None? ==> entries == old(entries) && values == old(values) && slot == old(slot)
      ensures index.Some? ==> entries == old(entries)[key := value] && LeastClear(old(bits.View()), 0, index.value)
      ensures index.Some? ==> bits.View() == old(bits.View()) + {index.value} && slot == old(slot)[key := index.value]
      ensures index.Some? ==> index.value <= |old(values)| && values == Put(old(values), index.value, value)
    {
      if key in entries {
        return None;
      }
      var bit := bits.FindFirstClear();
      PutSlotted(bits.View(), values, bit, value);
      PutPaired(values, entries, slot, owner, bit, key, value);
      entries, slot, owner := entries[key := value], slot[key := bit], owner[bit := key];
      if bit >= |values| {
        assert bit == |values|;
        values := values + [Some(value)];
      } else {
        values := values[bit := Some(value)];
      }
      bits.Add(bit);
      index := Some(bit);
    }

    /**
     * The correspondence is kept in any case. The indices of the other keys are kept exactly if the index is that of
     * the key; a value stored under two keys lets the index of the other key pass, which then gets that of the key.
     */
    method Remove(key: K, index: nat)
      requires Ok() && key in entries && index < |values| && values[index] == Some(entries[key])
      modifies this, bits
      ensures Ok() && entries == old(entries) - {key} && bits.View() == old(bits.View()) - {index}
      ensures |values| <= |old(values)| && values == old(values)[index := None][..|values|]
      ensures slot == old(slot) - {key} <==> index == old(slot[key])
      ensures Distinct(old(entries)) ==> index == old(slot[key])
    {
      if Distinct(entries) {
        OwnSlot(values, entries, slot, owner, index, key);
      }
      ghost var s, o := RemovePaired(values, entries, slot, owner, index, key);
      entries, slot, owner := entries - {key}, s, o;
      ResetBit(index);
    }

    /** Frees a slot, and the empty slots at the end. */
    method ResetBit(index: nat)
      requires Canonical(bits.blocks) && Slotted(bits.View(), values) && index < |values|
      requires Paired(values[index := None], entries, slot, owner)
      modifies this`values, bits
      ensures Ok() && bits.View() == old(bits.View()) - {index}
      ensures |values| <= |old(values)| && values == old(values)[index := None][..|values|]
    {
      bits.Remove(index);
      values := values[index := None];
      Trim();
    }

    /** Pops the empty slots at the end. */
    method Trim()
      requires Canonical(bits.blocks) && InSlots(bits.View(), values)
      requires Paired(values, entries, slot, owner)
      modifies this`values
      ensures Ok() && |values| <= |old(values)| && values == old(values)[..|values|]
    {
      assert values == values[..|values|];
      var i := |values| - 1;
      while i >= 0
        invariant i == |values| - 1 && |values| <= |old(values)| && values == old(values)[..|values|]
        invariant InSlots(bits.View(), values) && Paired(values, entries, slot, owner)
        invariant i < 0 ==> values == []
      {
        if values[i].Some? {
          break;
        }
        PopPaired(values, entries, slot, owner);
        PopInSlots(bits.View(), values);
        assert values[..i] == old(values)[..i];
        values := values[..i];
        i := i - 1;
      }
    }

    /** The value of a key; a new one is inserted if there is none. */
    method Locate(key: K, added: V) returns (value: V)
      requires Ok()
      modifies this, bits
      ensures Ok() && key in entries && entries[key] == value
      ensures entries == if key in old(entries) then old(entries) else old(entries)[key := added]
    {
      if key in entries {
        return entries[key];
      }
      var index := Insert(key, added);
      return added;
    }
  }

  method TwoKeys<K(==), V(==)>(k: K, l: K, value: V) returns (m: IndexMap<K, V>)
    requires k != l
    ensures fresh(m) && fresh(m.bits) && m.Ok()
    ensures m.entries == map[k := value, l := value] && m.values == [Some(value), Some(value)]
    ensures m.slot == map[k := 0, l := 1]
  {
    m := OneKey(k, value);
    var second := m.Insert(l, value);
    assert second == Some(1);
  }

  method OneKey<K(==), V(==)>(k: K, value: V) returns (m: IndexMap<K, V>)
    ensures fresh(m) && fresh(m.bits) && m.Ok() && m.bits.View() == {0}
    ensures m.entries == map[k := value] && m.values == [Some(value)] && m.slot == map[k := 0]
  {
    m := new IndexMap();
    var first := m.Insert(k, value);
    assert first == Some(0);
  }

  /** One value under two keys: removing the first with the index of the second moves the second. */
  method SharedValue<K(==), V(==)>(k: K, l: K, value: V) returns (m: IndexMap<K, V>)
    requires k != l
    ensures m.Ok() && m.entries == map[l := value] && m.slot == map[l := 0]
  {
    m := TwoKeys(k, l, value);
    m.Remove(k, 1);
    assert m.entries == map[l := value];
    OnlyFirst(m.values, m.entries, m.slot, m.owner, l, value);
  }

  /** After the second slot was freed the only key left has the first one. */
  lemma OnlyFirst<K, V>(
      values: seq<Option<V>>, entries: map<K, V>, slot: map<K, nat>, owner: map<nat, K>, l: K, value: V)
    requires Paired(values, entries, slot, owner) && entries == map[l := value]
    requires |values| <= 2 && (|values| == 2 ==> values[1].None?)
    ensures slot == map[l := 0]
  {
    assert l in slot && slot[l] < |values|;
  }
}
