/** The bucket's data structure in itself: a value-to-keys map and a key-to-value map kept in step. */
module PairedMaps {
  datatype Entry<V, T> = Entry(value: V, item: T)

  type Slots<V, T> = map<V, map<string, T>>

  ghost predicate InSlot<V, T>(slots: Slots<V, T>, v: V, k: string) {
    v in slots && k in slots[v]
  }

  ghost predicate NoEmptySlot<V, T>(slots: Slots<V, T>) {
    forall v | v in slots :: exists k :: k in slots[v]
  }

  /** byValue and byKey describe `index`, and byValue holds no empty slot. */
  ghost predicate Represents<V(!new), T>(byValue: Slots<V, T>, byKey: map<string, V>, index: map<string, Entry<V, T>>) {
    (forall k :: k in byKey <==> k in index) &&
    (forall k | k in index :: byKey[k] == index[k].value) &&
    (forall v, k :: InSlot(byValue, v, k) <==> k in index && index[k].value == v) &&
    (forall v, k | InSlot(byValue, v, k) :: byValue[v][k] == index[k].item) &&
    NoEmptySlot(byValue)
  }

  /** insertLocked on byValue. */
  function SlotInsert<V(==), T>(slots: Slots<V, T>, value: V, key: string, item: T): Slots<V, T> {
    var slot := if value in slots then slots[value] else map[];
    slots[value := slot[key := item]]
  }

  /** removeFromSlotLocked. */
  function SlotRemove<V(==), T>(slots: Slots<V, T>, value: V, key: string): Slots<V, T> {
    if value !in slots then slots
    else
      var slot := slots[value] - {key};
      if slot.Keys == {} then slots - {value} else slots[value := slot]
  }

  lemma SlotInsertMembers<V(!new), T>(slots: Slots<V, T>, value: V, key: string, item: T)
    requires NoEmptySlot(slots)
    ensures var after := SlotInsert(slots, value, key, item);
            NoEmptySlot(after) && InSlot(after, value, key) && after[value][key] == item &&
            forall v, k | v != value || k != key ::
              (InSlot(after, v, k) <==> InSlot(slots, v, k)) && (InSlot(slots, v, k) ==> after[v][k] == slots[v][k])
  {
    var after := SlotInsert(slots, value, key, item);
    assert key in after[value];
  }

  lemma SlotRemoveMembers<V(!new), T>(slots: Slots<V, T>, value: V, key: string)
    requires NoEmptySlot(slots)
    ensures var after := SlotRemove(slots, value, key);
            NoEmptySlot(after) && !InSlot(after, value, key) &&
            forall v, k | v != value || k != key ::
              (InSlot(after, v, k) <==> InSlot(slots, v, k)) && (InSlot(slots, v, k) ==> after[v][k] == slots[v][k])
  {
    if value in slots {
      var slot := slots[value] - {key};
      if slot.Keys == {} {
        forall k | k in slots[value] ensures k == key {
          assert k == key || k in slot.Keys;
        }
      } else {
        var k :| k in slot.Keys;
        assert k in slot;
      }
    }
  }

  lemma InsertRepresents<V(!new), T>(
      byValue: Slots<V, T>, byKey: map<string, V>, index: map<string, Entry<V, T>>, key: string, value: V, item: T)
    requires Represents(byValue, byKey, index)
    requires key in index ==> index[key].value == value
    ensures Represents(SlotInsert(byValue, value, key, item), byKey[key := value], index[key := Entry(value, item)])
  {
    SlotInsertMembers(byValue, value, key, item);
  }

  lemma RemoveRepresents<V(!new), T>(
      byValue: Slots<V, T>, byKey: map<string, V>, index: map<string, Entry<V, T>>, key: string)
    requires Represents(byValue, byKey, index) && key in index
    ensures Represents(SlotRemove(byValue, byKey[key], key), byKey - {key}, index - {key})
  {
    SlotRemoveMembers(byValue, byKey[key], key);
  }
}
