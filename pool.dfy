/**
 * The slot pool of `cache` (jni/src/resolver.rs): the process-wide free list
 * `SLOTS` of `Slot`s, leased by `get_or_alloc_slot`, returned by `put_slot`,
 * and `find_member`, which leases a slot, runs one lookup on it and returns
 * it. Each compare-and-swap retry loop is one atomic step here: the model is
 * sequential.
 */
module Pool {
  import opened Wrappers
  import opened Lru

  /** `cache::Slot`: one LRU cache plus the free-list link. */
  class Slot {
    var entries: seq<Entry>
    var next: Slot?

    /** A fresh slot: `LRUCache::new()` and a null link. */
    constructor ()
      ensures entries == [] && next == null
    {
      entries := [];
      next := null;
    }

    /**
     * The closure `find_member` hands to `use_a_slot`: look the key up
     * among this slot's entries and, on a miss, ask the host and cache what
     * it found.
     */
    method Resolve<M>(key: Key, same: SameObject, probe: Probe<M>) returns (r: Result<M, Throwable>)
      requires |entries| <= MaxMemberCachePerSlot
      modifies this`entries
      ensures |old(entries)| <= MaxMemberCachePerSlot
      ensures r == Lookup(old(entries), key, same, probe).result
      ensures entries == Lookup(old(entries), key, same, probe).entries
      ensures |entries| <= MaxMemberCachePerSlot
    {
      var cached := FirstMatch(entries, key, same);
      match cached {
        case Some(k) =>
          var e := entries[k];
          entries := Touch(entries, k);
          var found := probe(Some(e.member));
          r := if found.Ok? then Ok(found.value.0) else Err(found.error);
        case None =>
          var found := probe(None);
          if found.Err? {
            r := Err(found.error);
          } else {
            var (member, raw) := found.value;
            entries := Insert(entries, NewEntry(key, raw));
            r := Ok(member);
          }
      }
    }
  }

  /** `SLOTS`: the free list, a stack of slots linked through `next`. */
  class SlotPool {
    var head: Slot?
    /** The free slots, from the head down. */
    ghost var Slots: seq<Slot>

    ghost predicate Valid()
      reads this, Slots
    {
      && (head == null <==> Slots == [])
      && (Slots != [] ==> head == Slots[0] && Slots[|Slots| - 1].next == null)
      && (forall i :: 0 <= i < |Slots| - 1 ==> Slots[i].next == Slots[i + 1])
      && (forall i, j :: 0 <= i < j < |Slots| ==> Slots[i] != Slots[j])
      && (forall i :: 0 <= i < |Slots| ==> |Slots[i].entries| <= MaxMemberCachePerSlot)
    }

    /** The initial, empty free list (`AtomicPtr::new(null_mut())`). */
    constructor ()
      ensures Valid() && Slots == []
    {
      head := null;
      Slots := [];
    }

    /**
     * `get_or_alloc_slot`: pop the head and clear its link, or, when the
     * pool is empty, allocate a new empty slot and leave the pool as it is.
     */
    method Lease() returns (s: Slot)
      requires Valid()
      modifies this, head
      ensures Valid()
      ensures s !in Slots && s.next == null && |s.entries| <= MaxMemberCachePerSlot
      ensures old(Slots) == [] ==> fresh(s) && s.entries == [] && Slots == []
      ensures old(Slots) != [] ==>
        s == old(Slots[0]) && Slots == old(Slots[1..]) && s.entries == old(s.entries)
    {
      if head == null {
        s := new Slot();
      } else {
        s := head;
        assert |Slots| > 1 ==> s.next == Slots[1];
        head := s.next;
        s.next := null;
        Slots := Slots[1..];
      }
    }

    /** `put_slot`: push the slot back as the new head; nothing else changes. */
    method Release(s: Slot)
      requires Valid() && s !in Slots && |s.entries| <= MaxMemberCachePerSlot
      modifies this, s`next
      ensures Valid()
      ensures head == s && s.next == old(head) && Slots == [s] + old(Slots)
    {
      s.next := head;
      head := s;
      Slots := [s] + Slots;
    }

    /**
     * `find_member`, with `use_a_slot` inlined: lease a slot, run the lookup
     * on it, and release it whatever the lookup returned. The pool gains a
     * slot only when it was empty; otherwise it ends as it began, its head
     * slot holding the lookup's new entries.
     */
    method FindMember<M>(key: Key, same: SameObject, probe: Probe<M>) returns (r: Result<M, Throwable>)
      requires Valid()
      modifies this, head
      ensures Valid() && Slots != []
      ensures old(Slots) == [] ==>
        && |Slots| == 1 && fresh(Slots[0])
        && r == Lookup([], key, same, probe).result
        && Slots[0].entries == Lookup([], key, same, probe).entries
      ensures old(Slots) != [] ==>
        && Slots == old(Slots)
        && |old(Slots[0].entries)| <= MaxMemberCachePerSlot
        && r == Lookup(old(Slots[0].entries), key, same, probe).result
        && Slots[0].entries == Lookup(old(Slots[0].entries), key, same, probe).entries
        && forall i :: 0 < i < |Slots| ==> Slots[i].entries == old(Slots[i].entries)
    {
      var slot := Lease();
      r := slot.Resolve(key, same, probe);
      Release(slot);
    }
  }
}
