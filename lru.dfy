/**
 * The cache entries of one slot and the per-slot lookup step of
 * `cache::find_member` (jni/src/resolver.rs), stated on values.
 *
 * The slot's `uluru::LRUCache<Entry, 128>` is a sequence, most recently used
 * first: `find` returns the first match and moves it to the front, `insert`
 * puts the new entry at the front and drops the last one when the slot is
 * full.
 */
module Lru {
  import opened Wrappers

  /** `MAX_MEMBER_CACHE_PER_SLOT`. */
  const MaxMemberCachePerSlot: nat := 128

  /** The identity of a managed object (a class reference). */
  type ObjRef = int

  /** A raw member handle (`*const ()`), a method or field ID of the host. */
  type Handle = int

  /** A pending exception raised by the host (`LocalObject<Throwable>`). */
  datatype Throwable = Throwable(exception: int)

  /** A weak reference produced by `downgrade_weak`; it never owns its referent. */
  datatype Weak = Weak(referent: ObjRef)

  /** `downgrade_weak`: a weak reference to the given live object. Never fails. */
  function Downgrade(owner: ObjRef): Weak
  {
    Weak(owner)
  }

  /**
   * `ctx.is_same_object(Some(weak), Some(class))`. Its answer lives in the
   * managed runtime (a collected referent compares unequal to everything),
   * so the model takes it as a parameter.
   */
  type SameObject = (Weak, ObjRef) -> bool

  /**
   * A member name: a `&'static str`, compared by the address of its first
   * byte (`as_ptr`), never by its text.
   */
  datatype Name = Name(addr: nat, text: string)

  /** `cache::Entry`. */
  datatype Entry = Entry(owner: Weak, typesId: nat, name: Name, member: Handle)

  /** What a call to `find_member` looks for: the class, the call-site token and the name. */
  datatype Key = Key(owner: ObjRef, typesId: nat, name: Name)

  /** The three conditions of the `find` predicate, all required. */
  predicate Matches(e: Entry, key: Key, same: SameObject)
  {
    e.typesId == key.typesId && e.name.addr == key.name.addr && same(e.owner, key.owner)
  }

  /** The index `uluru::LRUCache::find` hits: the most recent matching entry. */
  function FirstMatch(entries: seq<Entry>, key: Key, same: SameObject): (k: Option<nat>)
    ensures k.Some? ==> k.value < |entries| && Matches(entries[k.value], key, same)
    ensures k.Some? ==> forall j :: 0 <= j < k.value ==> !Matches(entries[j], key, same)
    ensures k.None? <==> forall j :: 0 <= j < |entries| ==> !Matches(entries[j], key, same)
  {
    if entries == [] then None
    else if Matches(entries[0], key, same) then Some(0)
    else
      match FirstMatch(entries[1..], key, same)
      case None => None
      case Some(k) => Some(k + 1)
  }

  /** Moves entry `k` to the front (the hit becomes the most recently used). */
  function Touch(entries: seq<Entry>, k: nat): (r: seq<Entry>)
    requires k < |entries|
    ensures |r| == |entries| && r[0] == entries[k]
    ensures multiset(r) == multiset(entries)
    ensures r[1..] == entries[..k] + entries[k + 1..]
  {
    assert entries == entries[..k] + [entries[k]] + entries[k + 1..];
    [entries[k]] + entries[..k] + entries[k + 1..]
  }

  /** `LRUCache::insert`: `e` becomes the most recent; a full slot loses its least recent entry. */
  function Insert(entries: seq<Entry>, e: Entry): (r: seq<Entry>)
    requires |entries| <= MaxMemberCachePerSlot
    ensures 0 < |r| <= MaxMemberCachePerSlot && r[0] == e
    ensures |entries| < MaxMemberCachePerSlot ==> r == [e] + entries
    ensures |entries| == MaxMemberCachePerSlot ==> r == [e] + entries[..MaxMemberCachePerSlot - 1]
  {
    if |entries| < MaxMemberCachePerSlot then [e] + entries
    else [e] + entries[..MaxMemberCachePerSlot - 1]
  }

  /**
   * The host lookup closure handed to `find_member`: given the cached raw
   * handle, or none, it yields the typed member and its raw handle, or the
   * pending exception.
   */
  type Probe<M> = Option<Handle> -> Result<(M, Handle), Throwable>

  /** The new entry a successful miss caches. */
  function NewEntry(key: Key, raw: Handle): Entry
  {
    Entry(Downgrade(key.owner), key.typesId, key.name, raw)
  }

  /** One lookup in one slot: which handle the probe got, the result, the slot's new entries. */
  datatype Step<M> = Step(probedWith: Option<Handle>, result: Result<M, Throwable>, entries: seq<Entry>)

  /**
   * The body of the closure that `find_member` runs on its leased slot. The
   * slot stays within capacity and grows by at most one entry, and the
   * result is the typed member of the probe's answer to whatever the probe
   * was given (a cached handle or none), or its error.
   */
  function Lookup<M>(entries: seq<Entry>, key: Key, same: SameObject, probe: Probe<M>): (step: Step<M>)
    requires |entries| <= MaxMemberCachePerSlot
    ensures |step.entries| <= MaxMemberCachePerSlot
    ensures |step.entries| == |entries| || |step.entries| == |entries| + 1
    ensures var found := probe(step.probedWith);
      step.result == if found.Ok? then Ok(found.value.0) else Err(found.error)
  {
    match FirstMatch(entries, key, same)
    case Some(k) =>
      var found := probe(Some(entries[k].member));
      Step(Some(entries[k].member),
           if found.Ok? then Ok(found.value.0) else Err(found.error),
           Touch(entries, k))
    case None =>
      var found := probe(None);
      if found.Ok? then
        Step(None, Ok(found.value.0),
             Insert(entries, NewEntry(key, found.value.1)))
      else
        Step(None, Err(found.error), entries)
  }

  /** The cache is consulted exactly when some entry meets all three conditions. */
  lemma LookupHitIff<M>(entries: seq<Entry>, key: Key, same: SameObject, probe: Probe<M>)
    requires |entries| <= MaxMemberCachePerSlot
    ensures Lookup(entries, key, same, probe).probedWith.Some? <==>
            exists k :: 0 <= k < |entries| && Matches(entries[k], key, same)
  {
  }

  /**
   * A hit hands the probe the member of a matching entry, returns what the
   * probe returns (its error too) and inserts nothing: the slot keeps the
   * same entries, the hit one moved to the front.
   */
  lemma LookupHit<M>(entries: seq<Entry>, key: Key, same: SameObject, probe: Probe<M>)
    requires |entries| <= MaxMemberCachePerSlot
    requires Lookup(entries, key, same, probe).probedWith.Some?
    ensures var step := Lookup(entries, key, same, probe);
      exists k :: 0 <= k < |entries| && Matches(entries[k], key, same) &&
        step.probedWith == Some(entries[k].member) && step.entries[0] == entries[k]
    ensures var step := Lookup(entries, key, same, probe);
      var found := probe(step.probedWith);
      step.result == (if found.Ok? then Ok(found.value.0) else Err(found.error))
    ensures multiset(Lookup(entries, key, same, probe).entries) == multiset(entries)
  {
    var k := FirstMatch(entries, key, same).value;
    assert Matches(entries[k], key, same);
  }

  /** A miss whose host lookup fails propagates the error and leaves the slot as it was. */
  lemma LookupMissFailure<M>(entries: seq<Entry>, key: Key, same: SameObject, probe: Probe<M>)
    requires |entries| <= MaxMemberCachePerSlot
    requires forall j :: 0 <= j < |entries| ==> !Matches(entries[j], key, same)
    requires probe(None).Err?
    ensures Lookup(entries, key, same, probe) == Step(None, Err(probe(None).error), entries)
  {
  }

  /**
   * A miss whose host lookup succeeds returns the typed member and caches
   * exactly one new entry, (downgraded class, token, name, raw handle), as
   * the most recent one; everything else stays, except the least recent
   * entry of a full slot.
   */
  lemma LookupMissSuccess<M>(entries: seq<Entry>, key: Key, same: SameObject, probe: Probe<M>)
    requires |entries| <= MaxMemberCachePerSlot
    requires forall j :: 0 <= j < |entries| ==> !Matches(entries[j], key, same)
    requires probe(None).Ok?
    ensures var step := Lookup(entries, key, same, probe);
      var raw := probe(None).value.1;
      && step.probedWith == None
      && step.result == Ok(probe(None).value.0)
      && step.entries[0] == NewEntry(key, raw)
      && step.entries[1..] == (if |entries| < MaxMemberCachePerSlot then entries
                               else entries[..MaxMemberCachePerSlot - 1])
  {
  }

  /**
   * A lookup caches nothing but the entry of its own successful host lookup:
   * every entry it leaves in the slot was there before or is that new entry.
   */
  lemma LookupAddsOnlyNewEntry<M>(entries: seq<Entry>, key: Key, same: SameObject, probe: Probe<M>)
    requires |entries| <= MaxMemberCachePerSlot
    ensures var step := Lookup(entries, key, same, probe);
      forall j :: 0 <= j < |step.entries| ==>
        step.entries[j] in entries || (probe(None).Ok? && step.entries[j] == NewEntry(key, probe(None).value.1))
  {
    var step := Lookup(entries, key, same, probe);
    match FirstMatch(entries, key, same)
    case Some(k) =>
      forall j | 0 <= j < |step.entries|
        ensures step.entries[j] in entries
      {
        assert step.entries[j] in multiset(entries);
      }
    case None =>
      if probe(None).Ok? {
        forall j | 0 < j < |step.entries|
          ensures step.entries[j] in entries
        {
          assert step.entries[j] == entries[j - 1];
        }
      }
  }

  /**
   * A class the runtime no longer reports as the same object as any weak
   * reference (collected, or a different live class) is never served from
   * the cache: the probe is asked for a fresh host lookup.
   */
  lemma UnmatchedClassMisses<M>(entries: seq<Entry>, key: Key, same: SameObject, probe: Probe<M>)
    requires |entries| <= MaxMemberCachePerSlot
    requires forall j :: 0 <= j < |entries| ==> !same(entries[j].owner, key.owner)
    ensures Lookup(entries, key, same, probe).probedWith == None
  {
    assert forall j :: 0 <= j < |entries| ==> !Matches(entries[j], key, same);
  }

  /**
   * After a successful miss, the same lookup on the same live class hits the
   * entry just cached and hands its raw handle to the probe, which then
   * needs no host lookup.
   */
  lemma {:induction false} RepeatLookupHits<M>(entries: seq<Entry>, key: Key, same: SameObject, probe: Probe<M>, again: Probe<M>)
    requires |entries| <= MaxMemberCachePerSlot
    requires Lookup(entries, key, same, probe).probedWith == None
    requires probe(None).Ok?
    requires same(Downgrade(key.owner), key.owner)
    ensures var first := Lookup(entries, key, same, probe);
      Lookup(first.entries, key, same, again).probedWith == Some(probe(None).value.1)
  {
    var first := Lookup(entries, key, same, probe);
    assert first.entries[0] == NewEntry(key, probe(None).value.1);
    assert Matches(first.entries[0], key, same);
    assert FirstMatch(first.entries, key, same) == Some(0);
  }

  /**
   * Filling a slot to capacity and then inserting once more evicts exactly
   * the least recently used entry, which no longer matches anything that
   * only it matched, so resolving it again is a miss.
   */
  lemma {:induction false} EvictedEntryMisses<M>(entries: seq<Entry>, e: Entry, key: Key, same: SameObject, probe: Probe<M>)
    requires |entries| == MaxMemberCachePerSlot
    requires Matches(entries[MaxMemberCachePerSlot - 1], key, same)
    requires forall j :: 0 <= j < MaxMemberCachePerSlot - 1 ==> !Matches(entries[j], key, same)
    requires !Matches(e, key, same)
    ensures Lookup(Insert(entries, e), key, same, probe).probedWith == None
  {
    var r := Insert(entries, e);
    forall j | 0 <= j < |r|
      ensures !Matches(r[j], key, same)
    {
      if j > 0 {
        assert r[j] == entries[j - 1];
      }
    }
  }
}
