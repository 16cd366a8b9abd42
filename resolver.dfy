/**
 * `find_method` and `find_field` (jni/src/resolver.rs): build the query for
 * the host's member lookup and either go through the member cache (the
 * `cache` feature) or ask the host directly.
 */
module Resolver {
  import opened Wrappers
  import opened Descriptor
  import opened Lru
  import opened Pool

  /** Method or field, static or not: which host lookup a call site uses. */
  datatype MemberKind = MethodMember(isStatic: bool) | FieldMember(isStatic: bool)

  /** What a call site resolves: its kind and the descriptor it passes to the host. */
  datatype Site = Site(kind: MemberKind, descriptor: string)

  /** One host lookup: `ctx.find_method` or `ctx.find_field` on a class, a name, a descriptor. */
  datatype HostQuery = HostQuery(site: Site, owner: ObjRef, name: string)

  /**
   * The host runtime's member lookup, which fails with a pending exception
   * (`NoSuchMethodError`, `NoSuchFieldError`) when the member is missing.
   * The member IDs of a loaded class do not change, so the lookup is a
   * function of its query.
   */
  type Host = HostQuery -> Result<Handle, Throwable>

  /**
   * The closure `find_method` and `find_field` pass to `find_member`: a
   * cached handle is taken as it is (`from_raw`), otherwise the host is
   * asked and its handle both returned and kept for the cache (`into_raw`).
   */
  function MemberProbe(host: Host, q: HostQuery, cached: Option<Handle>): (r: Result<(Handle, Handle), Throwable>)
    ensures r.Ok? ==> r.value.0 == r.value.1
    ensures cached.Some? ==> r == Ok((cached.value, cached.value))
    ensures cached.None? ==> (r.Ok? <==> host(q).Ok?)
    ensures cached.None? && r.Ok? ==> r.value.0 == host(q).value
    ensures cached.None? && r.Err? ==> r.error == host(q).error
  {
    match cached
    case Some(ptr) => Ok((ptr, ptr))
    case None =>
      match host(q)
      case Ok(m) => Ok((m, m))
      case Err(e) => Err(e)
  }

  function ProbeOf(host: Host, site: Site, owner: ObjRef, name: Name): Probe<Handle>
  {
    cached => MemberProbe(host, HostQuery(site, owner, name.text), cached)
  }

  /** The lookup the host answers when the cache is not used. */
  function Direct(host: Host, site: Site, owner: ObjRef, name: Name): Result<Handle, Throwable>
  {
    host(HostQuery(site, owner, name.text))
  }

  /** `is_same_object` never confuses two objects (and a collected one matches nothing). */
  ghost predicate SameObjectSound(same: SameObject)
  {
    forall w: Weak, c: ObjRef :: same(w, c) ==> w.referent == c
  }

  /**
   * An entry is sound when the host would answer its query with its
   * handle. `sites` gives the one call site (member kind and descriptor)
   * each token stands for: no two call sites with different kinds or
   * descriptors share a `types_id`.
   */
  ghost predicate EntrySound(e: Entry, host: Host, sites: nat -> Site)
  {
    host(HostQuery(sites(e.typesId), e.owner.referent, e.name.text)) == Ok(e.member)
  }

  ghost predicate EntriesSound(entries: seq<Entry>, host: Host, sites: nat -> Site)
  {
    forall j :: 0 <= j < |entries| ==> EntrySound(entries[j], host, sites)
  }

  /**
   * Names are interned: the same address never holds two different names.
   * This is what comparing names by `as_ptr` relies on.
   */
  ghost predicate Interned(entries: seq<Entry>, name: Name)
  {
    forall j :: 0 <= j < |entries| && entries[j].name.addr == name.addr ==> entries[j].name.text == name.text
  }

  /**
   * `names` gives the text stored at each address. A `&'static str` lives in
   * immutable memory for the whole process, so one map serves every call.
   */
  ghost predicate Named(name: Name, names: nat -> string)
  {
    name.text == names(name.addr)
  }

  ghost predicate EntriesNamed(entries: seq<Entry>, names: nat -> string)
  {
    forall j :: 0 <= j < |entries| ==> Named(entries[j].name, names)
  }

  /** Names read through one address map are interned. */
  lemma NamedIsInterned(entries: seq<Entry>, name: Name, names: nat -> string)
    requires EntriesNamed(entries, names) && Named(name, names)
    ensures Interned(entries, name)
  {
    forall j | 0 <= j < |entries| && entries[j].name.addr == name.addr
      ensures entries[j].name.text == name.text
    {
      assert Named(entries[j].name, names);
    }
  }

  /** A lookup for a name read through the address map caches only such names. */
  lemma LookupKeepsNames<M>(entries: seq<Entry>, key: Key, same: SameObject, probe: Probe<M>, names: nat -> string)
    requires |entries| <= MaxMemberCachePerSlot
    requires EntriesNamed(entries, names) && Named(key.name, names)
    ensures EntriesNamed(Lookup(entries, key, same, probe).entries, names)
  {
    var step := Lookup(entries, key, same, probe);
    LookupAddsOnlyNewEntry(entries, key, same, probe);
    forall j | 0 <= j < |step.entries|
      ensures Named(step.entries[j].name, names)
    {
      if step.entries[j] in entries {
        var i :| 0 <= i < |entries| && entries[i] == step.entries[j];
        assert Named(entries[i].name, names);
      }
    }
  }

  /** On a hit, `find_method` and `find_field` return the cached handle and never fail. */
  lemma HitNeverFails(entries: seq<Entry>, key: Key, same: SameObject, host: Host, site: Site)
    requires |entries| <= MaxMemberCachePerSlot
    requires Lookup(entries, key, same, ProbeOf(host, site, key.owner, key.name)).probedWith.Some?
    ensures var step := Lookup(entries, key, same, ProbeOf(host, site, key.owner, key.name));
      step.result == Ok(step.probedWith.value)
  {
    LookupHit(entries, key, same, ProbeOf(host, site, key.owner, key.name));
  }

  /**
   * The cache is invisible: from sound entries, a lookup through the cache
   * returns exactly what the host would return, and the entries stay sound,
   * provided `is_same_object` is sound and names are interned.
   */
  lemma CacheIsTransparent(entries: seq<Entry>, key: Key, same: SameObject, host: Host, sites: nat -> Site)
    requires |entries| <= MaxMemberCachePerSlot
    requires SameObjectSound(same)
    requires EntriesSound(entries, host, sites)
    requires Interned(entries, key.name)
    ensures var step := Lookup(entries, key, same, ProbeOf(host, sites(key.typesId), key.owner, key.name));
      && step.result == Direct(host, sites(key.typesId), key.owner, key.name)
      && EntriesSound(step.entries, host, sites)
  {
    var probe := ProbeOf(host, sites(key.typesId), key.owner, key.name);
    var step := Lookup(entries, key, same, probe);
    if FirstMatch(entries, key, same).Some? {
      var e := entries[FirstMatch(entries, key, same).value];
      assert e.owner.referent == key.owner;
      assert e.name.text == key.name.text;
      assert EntrySound(e, host, sites);
    }
    LookupAddsOnlyNewEntry(entries, key, same, probe);
    forall j | 0 <= j < |step.entries|
      ensures EntrySound(step.entries[j], host, sites)
    {
      if step.entries[j] in entries {
        var i :| 0 <= i < |entries| && entries[i] == step.entries[j];
        assert EntrySound(entries[i], host, sites);
      }
    }
  }

  /** Every entry in every free slot is sound. */
  ghost predicate PoolSound(pool: SlotPool, host: Host, sites: nat -> Site)
    reads pool, pool.Slots
  {
    forall i :: 0 <= i < |pool.Slots| ==> EntriesSound(pool.Slots[i].entries, host, sites)
  }

  /** Every cached name in every free slot is the text at its address. */
  ghost predicate PoolNamed(pool: SlotPool, names: nat -> string)
    reads pool, pool.Slots
  {
    forall i :: 0 <= i < |pool.Slots| ==> EntriesNamed(pool.Slots[i].entries, names)
  }

  /**
   * The `cache` feature's block of `find_method` and `find_field`:
   * `find_member` over the pool with the host probe. The soundness of the
   * cached entries and the naming of their names are invariants of it.
   */
  method ResolveCached(pool: SlotPool, host: Host, same: SameObject, site: Site,
                       owner: ObjRef, name: Name, typesId: nat, ghost sites: nat -> Site, ghost names: nat -> string)
    returns (r: Result<Handle, Throwable>)
    requires pool.Valid()
    requires sites(typesId) == site
    modifies pool, pool.head
    ensures pool.Valid()
    ensures old(pool.Slots) == [] ==>
      var step := Lookup([], Key(owner, typesId, name), same, ProbeOf(host, site, owner, name));
      && |pool.Slots| == 1 && fresh(pool.Slots[0])
      && r == step.result && pool.Slots[0].entries == step.entries
    ensures old(pool.Slots) != [] ==>
      && pool.Slots == old(pool.Slots)
      && |old(pool.Slots[0].entries)| <= MaxMemberCachePerSlot
      && var step := Lookup(old(pool.Slots[0].entries), Key(owner, typesId, name), same, ProbeOf(host, site, owner, name));
      && r == step.result && pool.Slots[0].entries == step.entries
    ensures SameObjectSound(same) && old(PoolSound(pool, host, sites)) && old(PoolNamed(pool, names)) && Named(name, names) ==>
      r == Direct(host, site, owner, name) && PoolSound(pool, host, sites)
    ensures old(PoolNamed(pool, names)) && Named(name, names) ==> PoolNamed(pool, names)
  {
    ghost var before := pool.Slots;
    ghost var entries := if before == [] then [] else before[0].entries;
    ghost var named := PoolNamed(pool, names) && Named(name, names);
    ghost var sound := SameObjectSound(same) && PoolSound(pool, host, sites) && named;
    var key := Key(owner, typesId, name);
    var probe := ProbeOf(host, site, owner, name);
    r := pool.FindMember(key, same, probe);
    if named {
      LookupKeepsNames(entries, key, same, probe, names);
      assert forall i :: 0 < i < |pool.Slots| ==> EntriesNamed(pool.Slots[i].entries, names);
    }
    if sound {
      NamedIsInterned(entries, name, names);
      CacheIsTransparent(entries, key, same, host, sites);
      assert forall i :: 0 < i < |pool.Slots| ==> EntriesSound(pool.Slots[i].entries, host, sites);
    }
  }

  /**
   * The dispatch shared by `find_method` and `find_field`: with the cache
   * feature, `find_member` over the pool; without it, the host directly and
   * the pool untouched.
   */
  method Resolve(pool: SlotPool, cache: bool, host: Host, same: SameObject, site: Site,
                 owner: ObjRef, name: Name, typesId: nat, ghost sites: nat -> Site, ghost names: nat -> string)
    returns (r: Result<Handle, Throwable>)
    requires pool.Valid()
    requires sites(typesId) == site
    modifies pool, pool.head
    ensures pool.Valid()
    ensures !cache ==> r == Direct(host, site, owner, name) && unchanged(pool) && unchanged(pool.Slots)
    ensures cache && old(pool.Slots) == [] ==>
      var step := Lookup([], Key(owner, typesId, name), same, ProbeOf(host, site, owner, name));
      && |pool.Slots| == 1 && fresh(pool.Slots[0])
      && r == step.result && pool.Slots[0].entries == step.entries
    ensures cache && old(pool.Slots) != [] ==>
      && pool.Slots == old(pool.Slots)
      && |old(pool.Slots[0].entries)| <= MaxMemberCachePerSlot
      && var step := Lookup(old(pool.Slots[0].entries), Key(owner, typesId, name), same, ProbeOf(host, site, owner, name));
      && r == step.result && pool.Slots[0].entries == step.entries
    ensures SameObjectSound(same) && old(PoolSound(pool, host, sites)) && old(PoolNamed(pool, names)) && Named(name, names) ==>
      r == Direct(host, site, owner, name) && PoolSound(pool, host, sites)
    ensures old(PoolNamed(pool, names)) && Named(name, names) ==> PoolNamed(pool, names)
  {
    if cache {
      r := ResolveCached(pool, host, same, site, owner, name, typesId, sites, names);
    } else {
      r := host(HostQuery(site, owner, name.text));
    }
  }

  /** The call site of a `find_method`: its kind and `method_signature_of(args, ret)`. */
  function MethodSite(isStatic: bool, args: seq<string>, ret: string): Site
  {
    Site(MethodMember(isStatic), MethodDescriptor(args, ret))
  }

  /**
   * `find_method`: the descriptor is `method_signature_of` of the argument
   * and return descriptors.
   */
  method FindMethod(pool: SlotPool, cache: bool, host: Host, same: SameObject, isStatic: bool,
                    owner: ObjRef, name: Name, typesId: nat, args: seq<string>, ret: string,
                    ghost sites: nat -> Site, ghost names: nat -> string)
    returns (r: Result<Handle, Throwable>)
    requires pool.Valid()
    requires sites(typesId) == MethodSite(isStatic, args, ret)
    modifies pool, pool.head
    ensures pool.Valid()
    ensures !cache ==> (unchanged(pool) && unchanged(pool.Slots) &&
                        r == host(HostQuery(MethodSite(isStatic, args, ret), owner, name.text)))
    ensures cache && old(pool.Slots) == [] ==>
      var step := Lookup([], Key(owner, typesId, name), same, ProbeOf(host, MethodSite(isStatic, args, ret), owner, name));
      && |pool.Slots| == 1 && fresh(pool.Slots[0])
      && r == step.result && pool.Slots[0].entries == step.entries
    ensures cache && old(pool.Slots) != [] ==>
      && pool.Slots == old(pool.Slots)
      && |old(pool.Slots[0].entries)| <= MaxMemberCachePerSlot
      && var step := Lookup(old(pool.Slots[0].entries), Key(owner, typesId, name), same,
                            ProbeOf(host, MethodSite(isStatic, args, ret), owner, name));
      && r == step.result && pool.Slots[0].entries == step.entries
    ensures SameObjectSound(same) && old(PoolSound(pool, host, sites)) && old(PoolNamed(pool, names)) && Named(name, names) ==>
      (PoolSound(pool, host, sites) &&
       r == host(HostQuery(MethodSite(isStatic, args, ret), owner, name.text)))
    ensures old(PoolNamed(pool, names)) && Named(name, names) ==> PoolNamed(pool, names)
  {
    var descriptor := MethodSignatureOf(args, ret);
    r := Resolve(pool, cache, host, same, Site(MethodMember(isStatic), descriptor), owner, name, typesId, sites, names);
  }

  /** `find_field`: the descriptor is the field type's own signature. */
  method FindField(pool: SlotPool, cache: bool, host: Host, same: SameObject, isStatic: bool,
                   owner: ObjRef, name: Name, typesId: nat, fieldType: string,
                   ghost sites: nat -> Site, ghost names: nat -> string)
    returns (r: Result<Handle, Throwable>)
    requires pool.Valid()
    requires sites(typesId) == Site(FieldMember(isStatic), fieldType)
    modifies pool, pool.head
    ensures pool.Valid()
    ensures !cache ==> (unchanged(pool) && unchanged(pool.Slots) &&
                        r == host(HostQuery(Site(FieldMember(isStatic), fieldType), owner, name.text)))
    ensures cache && old(pool.Slots) == [] ==>
      var step := Lookup([], Key(owner, typesId, name), same, ProbeOf(host, Site(FieldMember(isStatic), fieldType), owner, name));
      && |pool.Slots| == 1 && fresh(pool.Slots[0])
      && r == step.result && pool.Slots[0].entries == step.entries
    ensures cache && old(pool.Slots) != [] ==>
      && pool.Slots == old(pool.Slots)
      && |old(pool.Slots[0].entries)| <= MaxMemberCachePerSlot
      && var step := Lookup(old(pool.Slots[0].entries), Key(owner, typesId, name), same,
                            ProbeOf(host, Site(FieldMember(isStatic), fieldType), owner, name));
      && r == step.result && pool.Slots[0].entries == step.entries
    ensures SameObjectSound(same) && old(PoolSound(pool, host, sites)) && old(PoolNamed(pool, names)) && Named(name, names) ==>
      (PoolSound(pool, host, sites) &&
       r == host(HostQuery(Site(FieldMember(isStatic), fieldType), owner, name.text)))
    ensures old(PoolNamed(pool, names)) && Named(name, names) ==> PoolNamed(pool, names)
  {
    r := Resolve(pool, cache, host, same, Site(FieldMember(isStatic), fieldType), owner, name, typesId, sites, names);
  }

  /**
   * Resolutions chain: two cached `find_method` calls for the same class,
   * name and call site, one after the other on the same pool, both return
   * the host's answer, so they agree, and the pool stays sound and named.
   */
  method FindMethodTwice(pool: SlotPool, host: Host, same: SameObject, isStatic: bool,
                         owner: ObjRef, name: Name, typesId: nat, args: seq<string>, ret: string,
                         ghost sites: nat -> Site, ghost names: nat -> string)
    returns (r1: Result<Handle, Throwable>, r2: Result<Handle, Throwable>)
    requires pool.Valid()
    requires sites(typesId) == MethodSite(isStatic, args, ret)
    requires SameObjectSound(same) && PoolSound(pool, host, sites) && PoolNamed(pool, names) && Named(name, names)
    modifies pool, pool.head
    ensures pool.Valid() && PoolSound(pool, host, sites) && PoolNamed(pool, names)
    ensures r1 == r2 == host(HostQuery(MethodSite(isStatic, args, ret), owner, name.text))
  {
    r1 := FindMethod(pool, true, host, same, isStatic, owner, name, typesId, args, ret, sites, names);
    r2 := FindMethod(pool, true, host, same, isStatic, owner, name, typesId, args, ret, sites, names);
  }
}
