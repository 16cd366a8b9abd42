# typed-jni member resolver, modelled in Dafny

This project models the member-resolution core of typed-jni (`jni/src/resolver.rs`). Native code resolves methods and fields of Java classes through it, and the method/field IDs it resolves are cached in a lock-free pool of LRU cache slots. The model has three parts:

- **Signature builder** (`descriptor.dfy`, module `Descriptor`). `method_signature_of` renders the JNI method descriptor `"(" + args[0] + … + args[n-1] + ")" + ret`, following section 4.3.3 of the Java Virtual Machine Specification ("Method Descriptors") and chapter 3 of the JNI Specification ("Type Signatures"). It is modelled as the `Display` loop it is: a method with a `for` loop, proved equal to the specification function `MethodDescriptor`. The module also holds a reference parser for the descriptor grammar of JVMS sections 4.3.2 and 4.3.3. With it the model proves that rendering and parsing are inverse to each other. Parsing a descriptor built from well-formed parts gives those parts back, in order, so two different signatures never share a descriptor. In the other direction, whatever the parser accepts is the rendering of well-formed parts.
- **Cache slots** (`lru.dfy`, module `Lru`; `pool.dfy`, module `Pool`).
  - An `Entry` stores four things: a weak reference to the owning class, the call-site token `types_id`, the name, and the raw member handle.
  - A slot's `uluru::LRUCache<Entry, 128>` is a sequence, most recently used first. `find` returns the first entry that matches and moves it to the front. `insert` puts the new entry at the front and drops the last one when the slot already holds 128.
  - The lookup run on a leased slot is the pure function `Lookup`. The lemmas beside it state the hit path, both miss paths and the capacity bound.
  - `Slot` and `SlotPool` are classes. The pool's `head` field is the static `SLOTS`, and a ghost sequence `Slots` lists the free slots from the head down. `Lease` (`get_or_alloc_slot`), `Release` (`put_slot`) and `FindMember` (`find_member`, with `use_a_slot` inlined) are methods with `modifies` clauses, and their postconditions state the pool's new state.
- **Resolver** (`resolver.dfy`, module `Resolver`).
  - The host's `find_method`/`find_field` is a function `Host` from a query to a handle or a pending exception.
  - `MemberProbe` is the closure that `find_method` and `find_field` hand to `find_member`.
  - `FindMethod` and `FindField` compute the descriptor. Their parameter `cache` stands for the `cache` cargo feature: when it is on they go through the pool, when it is off they call the host directly.
  - `Resolve`, `FindMethod` and `FindField` state the pool's whole new state on the cache path, as `FindMember` does. Calls therefore chain: `FindMethodTwice` resolves the same member twice on one pool.
  - The main theorem is `CacheIsTransparent`, lifted to the pool by `ResolveCached`. It assumes four things:
    - every cached entry is one the host would give again (`PoolSound`),
    - `is_same_object` never calls two different objects the same (`SameObjectSound`),
    - a name's address identifies its text. A ghost map `names` from address to text stands for the immutable static memory behind `&'static str`, and every cached name is read through it (`PoolNamed`),
    - each token `types_id` stands for one call site. One map `sites` serves every call, and each call requires `sites(typesId)` to be its own site.
  - Under those assumptions, a lookup through the cache returns exactly what a direct host lookup returns. The first and third assumptions are preserved by every call, so they hold for any sequence of resolutions.

Abstractions:
- `is_same_object` is a parameter (`SameObject`): the runtime and the garbage collector decide its answer.
- `downgrade_weak` yields `Weak(referent)`.
- Object identities, raw handles and name addresses are integers.
- The token `types_id` (the address of a monomorphised `find_member`) is a `nat` supplied by the caller. A ghost map `sites` from token to call site gives the one call site (member kind and descriptor) each token stands for: no two call sites with different kinds or descriptors share a `types_id`.

## Model

| member | source | states |
|---|---|---|
| `Descriptor.MethodSignatureOf` | jni/src/resolver.rs:121-135 | the loop writes the argument descriptors in declaration order between parentheses, then the return descriptor: the result is `MethodDescriptor(args, ret)`, and `"()" + ret` for no arguments; the loop invariant says that what is written, followed by the rest rendered, is the whole descriptor |
| `Descriptor.ParseMethodDescriptorRoundTrip` | jni/src/resolver.rs:121-135 | from well-formed argument descriptors (JVMS 4.3.2) and a well-formed return descriptor (JVMS 4.3.3), the rendered method descriptor parses back to exactly those arguments, in order, and that return descriptor |
| `Descriptor.ParseMethodDescriptorSound` | jni/src/resolver.rs:121-135 | the converse of the round trip: whatever the parser accepts is well-formed argument descriptors and a well-formed return descriptor whose rendering is the parsed string itself |
| `Descriptor.MethodDescriptorInjective` | jni/src/resolver.rs:121-135 | two well-formed signatures that render to the same descriptor are the same signature |
| `Descriptor.DescriptorExamples` | jni/src/resolver.rs:121-135 | `(["I","F","Ljava/lang/String;"], "V")` renders as `(IFLjava/lang/String;)V`, and `([], "I")` as `()I` |
| `Lru.Matches` | jni/src/resolver.rs:100 | the `find` predicate: the entry has the same `types_id`, a name at the same address (`as_ptr`, not the text), and `is_same_object` says its weak class is the queried class; it is a definition, characterised by `FirstMatch`'s contract |
| `Lru.FirstMatch` | jni/src/resolver.rs:99-101 | the found entry meets all three conditions (token equal, name address equal, `is_same_object` true) and no earlier entry does; there is no result exactly when no entry meets them |
| `Lru.Touch` | jni/src/resolver.rs:99-101 | a hit moves the found entry to the front and keeps the same entries (same multiset, same length) |
| `Lru.Insert` | jni/src/resolver.rs:107-112 | the new entry becomes the most recent; below capacity every old entry stays; at capacity 128 exactly the least recent one is dropped; the result never exceeds 128 |
| `Lru.Lookup` | jni/src/resolver.rs:96-117 | the body of the closure `find_member` runs on its leased slot: `find` with the three conditions, then on a hit move to the front and hand the cached handle to the probe, on a miss ask the probe with `None` and insert what it returns; the slot never exceeds `MAX_MEMBER_CACHE_PER_SLOT` = 128 entries (lines 20-30) and grows by at most one; the result is the typed member of the probe's answer to what it was given, or the probe's error |
| `Lru.LookupHitIff` | jni/src/resolver.rs:99-103 | the probe is given a cached handle if and only if some entry meets all three match conditions |
| `Lru.LookupHit` | jni/src/resolver.rs:102-103 | on a hit the probe gets the member of a matching entry; its result or error is returned unchanged; no entry is added (the slot's multiset of entries is the same) |
| `Lru.LookupMissFailure` | jni/src/resolver.rs:104-105 | on a miss the probe is called with `None`; when it fails, its error is returned and the slot's entries are unchanged |
| `Lru.LookupMissSuccess` | jni/src/resolver.rs:104-115 | on a miss whose probe succeeds, the typed member is returned and exactly one entry (downgraded class, token, name, raw handle) is added as most recent; the rest are the old entries, less the last one of a full slot |
| `Lru.LookupAddsOnlyNewEntry` | jni/src/resolver.rs:96-117 | every entry a lookup leaves in the slot was there before, or is the entry (downgraded class, token, name, raw handle) of its own successful host lookup |
| `Lru.UnmatchedClassMisses` | jni/src/resolver.rs:99-101 | when `is_same_object` holds for no stored weak reference (the class was collected or is another object), the lookup is a miss |
| `Lru.RepeatLookupHits` | jni/src/resolver.rs:96-117 | after a successful miss, the same lookup on a class still the same object is a hit that hands the just-cached raw handle to the probe |
| `Lru.EvictedEntryMisses` | jni/src/resolver.rs:107-112 | once the only matching entry of a full slot is evicted by an insert, resolving it again is a miss |
| `Resolver.MemberProbe` | jni/src/resolver.rs:149-160 | the closure `find_method` (and, at lines 180-191, `find_field`) passes to `find_member`: the typed member and the raw handle kept for the cache are always the same handle; given a cached handle it returns that handle and never fails; given none, it succeeds exactly when the host lookup does, with the host's handle, and otherwise returns the host's pending exception |
| `Pool.Slot.constructor` | jni/src/resolver.rs:41-44 | a new slot has no entries and a null link |
| `Pool.Slot.Resolve` | jni/src/resolver.rs:96-117 | the closure of `find_member`: result and new entries are those of `Lookup` on the old entries; the slot stays within 128 entries |
| `Pool.SlotPool.constructor` | jni/src/resolver.rs:34 | the free list starts empty |
| `Pool.SlotPool.Lease` | jni/src/resolver.rs:36-57 | from a non-empty pool: the former head, its entries kept, the pool left as the old tail, the returned link null; from an empty pool: a fresh slot with no entries and a null link, the pool left empty; the leased slot is never in the pool |
| `Pool.SlotPool.Release` | jni/src/resolver.rs:59-70 | the slot becomes the head with its link at the previous head; the pool is the slot followed by the old pool |
| `Pool.SlotPool.FindMember` | jni/src/resolver.rs:72-118 | the leased slot is always released: a non-empty pool ends as it began, its head slot carrying the lookup's new entries; an empty pool ends with one fresh slot; the result is that of `Lookup` on the leased slot's entries; no other slot's entries change |
| `Resolver.HitNeverFails` | jni/src/resolver.rs:149-150 | on a cache hit the probe of `find_method`/`find_field` returns the cached handle and cannot fail |
| `Resolver.CacheIsTransparent` | jni/src/resolver.rs:137-200 | from sound entries, with a sound `is_same_object`, interned names and the token's one call site given by `sites`, a cached lookup returns exactly the direct host lookup's result (handle or pending exception), and every entry left in the slot is sound |
| `Resolver.NamedIsInterned` | jni/src/resolver.rs:99-101 | entries whose names are all read through one address map are interned for any name read through it, so comparing `as_ptr` identifies the text |
| `Resolver.LookupKeepsNames` | jni/src/resolver.rs:107-112 | a lookup whose name is read through the address map leaves only such names in the slot |
| `Resolver.ResolveCached` | jni/src/resolver.rs:145-161 | `find_member` over the pool with the host probe: the pool's new state is that of `FindMember` (one fresh slot from an empty pool; otherwise the same slots, the head slot's entries replaced by the lookup's); under the four assumptions the result is the direct host answer and the pool stays sound; naming is preserved |
| `Resolver.Resolve` | jni/src/resolver.rs:145-168 | the feature-off path calls the host and leaves the pool untouched; the feature-on path has exactly the new pool state and result of `ResolveCached`, returns the host's answer under the four assumptions, and preserves soundness and naming |
| `Resolver.FindMethod` | jni/src/resolver.rs:137-169 | the host is queried with the method kind and `method_signature_of(args, ret)`; without the cache the pool is untouched; with it the new pool state is stated as for `Resolve`; either way the result is that query's answer, under the four assumptions when cached, and soundness and naming are preserved |
| `Resolver.FindField` | jni/src/resolver.rs:171-200 | the host is queried with the field kind and the field type's descriptor; without the cache the pool is untouched; with it the new pool state is stated as for `Resolve`; either way the result is that query's answer, under the four assumptions when cached, and soundness and naming are preserved |
| `Resolver.FindMethodTwice` | jni/src/resolver.rs:137-169 | two cached `find_method` calls for the same class, name and call site on one pool both return the host's answer, so they agree, and the pool stays sound and named |

## Left out

- Atomics and concurrency: `SLOTS` is a plain field and each compare-and-swap retry loop in `get_or_alloc_slot` and `put_slot` is one step. Lock-freedom and exclusivity between threads are not modelled. In the sequential model, a leased slot is simply not in the free list.
- `use_a_slot` takes a closure that mutates the slot. Dafny functions cannot mutate, so it is inlined into `Pool.SlotPool.FindMember`: lease, `Slot.Resolve`, release.
- `Box::leak`: fresh slots are allocated objects that are never freed. Memory is not modelled.
- JNI host calls (`ctx.find_method`, `ctx.find_field`) are the function parameter `Host`. It is taken to answer a query the same way every time.
- `Method::from_raw`, `Field::from_raw` and `into_raw` are the identity on handles. The `STATIC` const generic is the `isStatic` flag of the member kind.
- `downgrade_weak` and `is_same_object` (garbage collection, liveness): the first is `Weak(referent)`, the second the function parameter `SameObject`.
- Pointer identity of the `&'static str` names and of the function address `types_id`: both are integers. `name.as_ptr()` compares start addresses only. The transparency theorem therefore assumes that every name is the text at its address in one address map (`names`), so the same address never holds two names. Two literals that a linker merges so that one starts where the other starts, with different lengths, would break this assumption; the model does not cover that case.
- Distinct call sites sharing a `types_id`. The token is `find_member::<C, M, F> as *const () as usize` (jni/src/resolver.rs:97), and Rust does not promise that distinct functions have distinct addresses. Overloads are the case that matters: the same class and name literal with different descriptors. If two such sites shared a token, a hit could return the other overload's handle. The transparency results assume this never happens, through the single `sites` map. Stability of a token for one site is not needed, because an unstable token only causes misses.
- `CString::new(..).unwrap()`, which panics on an interior NUL, is not modelled. Names and descriptors go to the host as they are. The panic would unwind out of `use_a_slot` before `put_slot` runs, so the leased slot would be lost to the pool. `Pool.SlotPool.FindMember` promises that the slot is always released only because this panic is not modelled.
- The internals of `uluru::LRUCache` are not part of this model. Capacity 128, insert at the front and eviction of the last entry are modelled. "`find` moves the hit to the front" is an assumption about that library.
- `crate::Signature` and the `Args`/`Type` traits are not part of this model. Descriptors are strings. Only the reference parser checks them against the grammar, which is simplified: a class name must be non-empty and free of `;`, and the 255-dimension array limit is not checked.
- `Resolver.FindMethod` computes the descriptor before the lookup, while the source computes it only on a cache miss. The descriptor is a pure value, so the only difference is cost.
- Formatter errors in `ArgsSignature::fmt`: writing into a `String` cannot fail, so this path does not exist in the model.
- `example/src/lib.rs`: JNI exports, `println!` and `attach_vm` are foreign-function and I/O glue with no resolver logic.
