# Platform pool allocator and virtual NVRAM, in Dafny

This project models two coupled pieces of the CYW55572 platform layer, with proofs about each.

The first is the fixed-size-class pool allocator of `platform_mem.c`:
- A table of four classes, `{32,2},{80,2},{284,2},{572,1}`, is carved out of one arena.
- Every block starts with a 4-byte `p_next` header.
- Each class keeps a free list: its head `p_first` and a count `free_num`.
- A use map holds one bit per block.
- `platform_mem_init` checks that the class sizes strictly ascend. It then sizes and acquires the use map and the arena, zeroes both, and threads each class's free list in address order.
- `platform_mem_allocate` pops the head of the first class that is large enough and not empty, sets that block's bit and zeroes its payload.
- `platform_mem_free` finds a pointer's class and slot by address arithmetic and is meant to push the block back at the head of its list. As written, its guard lets only a block that is already free through (see Findings).

The second is the virtual NVRAM catalogue of `platform.c`:
- It is a head-inserted list of `{vs_id, data_length, data[]}` records. Each record lives in a pool block.
- It offers `wiced_platform_nvram_read`, `wiced_platform_nvram_write` and `wiced_platform_nvram_delete`.
- Write and delete notify the host through `wiced_transport_send_data`.
- The inbound WICED HCI rx handler decodes a 4-byte header and routes "push NVRAM data" frames to a handler that writes a `(vs_id, bytes)` pair into the catalogue.

Each imperative operation is written twice, and the two are proved to agree:
- as a method on a class with the source's state (`PlatformMem.Pool`, `Nvram.VirtualNvram`);
- as a function on a value of that state (`PoolSpec.PoolView`, `NvramSpec.Store`).

The properties are proved as lemmas about the functions. The source's behaviour is modelled as follows:
- Pointers are byte offsets from `p_memory_min`; NULL is -1.
- The use map is an `array<bv8>`; the arena is an `array<bv8>`.
- The `p_next` header words are a map from block offset to the next block's offset.
- `STREAM_TO_UINT16` is taken to be little-endian, low byte first, as on the target.
- Record sizes use a 32-bit layout: `sizeof(platform_virtual_nvram_t)` is 12, so a record asks the pool for `11 + data_length` bytes.
- The vendor heap and transport calls become parameters or a log:
  - The outcomes of `wiced_bt_create_heap` and of the two `wiced_bt_get_buffer_from_heap` calls are boolean parameters of `Pool.Init`.
  - Host notifications are appended to a ghost event log.

Files:
- `pool_config.dfy` — the class table and the address arithmetic.
- `use_map.dfy` — the bitmap.
- `pool_spec.dfy` and `pool.dfy` — the allocator.
- `nvram_spec.dfy` and `nvram.dfy` — the catalogue.
- `transport.dfy` — the rx and push handlers.
- `wrappers.dfy` — `Option`.

## Model

| member | source | states |
|---|---|---|
| PoolConfig.PlatformMemCfgFacts | COMPONENT_55572A1/platforms/platform_mem.c:79-86 | the shipped table is well formed and strictly ascending; it needs a 1392-byte arena, 7 blocks and a 1-byte use map |
| PoolConfig.Locate | COMPONENT_55572A1/platforms/platform_mem.c:263-300 | the class-and-slot search of free: the first class whose byte range holds the pointer, then a hit exactly when the offset's remainder by the stride is the header size; a hit always names a class whose byte range holds the pointer |
| PoolConfig.LocatePayload | COMPONENT_55572A1/platforms/platform_mem.c:263-300 | the free-side search maps the payload pointer of every block back to exactly that class and slot |
| PoolConfig.LocateSound | COMPONENT_55572A1/platforms/platform_mem.c:286-300 | whenever the search accepts a pointer, it names a real slot, and the pointer is that slot's payload offset |
| PoolConfig.PayloadInjective | COMPONENT_55572A1/platforms/platform_mem.c:234 | distinct slots have distinct payload pointers |
| PoolConfig.GlobalIndexBound | COMPONENT_55572A1/platforms/platform_mem.c:229-231 | the bit index (blocks in earlier classes plus the slot) is below the total block count, so it falls inside the use map |
| PoolConfig.GlobalIndexInjective | COMPONENT_55572A1/platforms/platform_mem.c:229-231 | distinct slots own distinct bits |
| PoolConfig.BlockInArena | COMPONENT_55572A1/platforms/platform_mem.c:133-139 | every block with its header lies inside the arena that init sizes |
| PoolConfig.CatBaseMono | COMPONENT_55572A1/platforms/platform_mem.c:203-213 | class base offsets never decrease along the table |
| UseMap.SetUsedSpec | COMPONENT_55572A1/platforms/platform_mem.c:232 | `\|= (1 << (shift % 8))` on byte `shift / 8` sets exactly bit `shift` and keeps every other bit |
| UseMap.ClearUsedSpec | COMPONENT_55572A1/platforms/platform_mem.c:309 | `&= ~(1 << (shift % 8))` clears exactly bit `shift` and keeps every other bit |
| UseMap.ClearSetUsed | COMPONENT_55572A1/platforms/platform_mem.c:309 | clearing a bit that was just set restores the use map |
| UseMap.ZeroUnused | COMPONENT_55572A1/platforms/platform_mem.c:167 | in a zeroed use map no block is marked |
| PoolSpec.InitView | COMPONENT_55572A1/platforms/platform_mem.c:166-184 | the pool init leaves: one free list per class, class i holding `num` blocks (in the address order `PoolSpec.InitFree` states), and a use map of the computed size with every byte zero |
| PoolSpec.InitFree | COMPONENT_55572A1/platforms/platform_mem.c:169-184 | after init, class i's free list is its slots 0 .. num-1 in address order |
| PoolSpec.InitConsistent | COMPONENT_55572A1/platforms/platform_mem.c:166-184 | the state after init is consistent: a slot is on its free list exactly when its bit is clear, and each list holds num entries |
| PoolSpec.FirstFit | COMPONENT_55572A1/platforms/platform_mem.c:200-214 | the chosen class is the first with `size >= request` and a non-empty list; no earlier class qualifies |
| PoolSpec.Allocate | COMPONENT_55572A1/platforms/platform_mem.c:189-248 | allocate on the pool state: NULL with nothing changed exactly when the scan finds no class; otherwise the payload of the head of the first fitting class, that list losing exactly its head, and every other list unchanged |
| PoolSpec.AllocateOutcome | COMPONENT_55572A1/platforms/platform_mem.c:200-236 | allocate returns NULL with no state change exactly when no class qualifies; otherwise it returns the payload of the head block of the first fitting class, which was free and is now marked, and that list loses exactly its head |
| PoolSpec.AllocateMarksOnlyItsBlock | COMPONENT_55572A1/platforms/platform_mem.c:229-231 | allocate changes no block's allocation state other than its own |
| PoolSpec.AllocateConsistent | COMPONENT_55572A1/platforms/platform_mem.c:221-231 | allocate preserves consistency between the lists and the use map |
| PoolSpec.AllocateTooLarge | COMPONENT_55572A1/platforms/platform_mem.c:216-219 | a request larger than the largest class returns NULL and changes nothing; nothing is split or borrowed |
| PoolSpec.AscendingUpTo | COMPONENT_55572A1/platforms/platform_mem.c:124-130 | in a strictly ascending table, a later class is never smaller |
| PoolSpec.Free | COMPONENT_55572A1/platforms/platform_mem.c:250-320 | free with the guard corrected to the comment at :302: the pool changes only for the payload pointer of a block whose bit is set, and then that block goes to the head of its list |
| PoolSpec.FreeAsWritten | COMPONENT_55572A1/platforms/platform_mem.c:250-320 | free as written: the pool changes only for the payload pointer of a block whose bit is clear, and then that block is pushed at the head of its list again; it gives the count and head a control record is left with |
| PoolSpec.FreePushes | COMPONENT_55572A1/platforms/platform_mem.c:311-314 | freeing an allocated block puts it at the head of its own class's list (LIFO) and leaves the other lists alone |
| PoolSpec.FreeClearsOnlyItsBit | COMPONENT_55572A1/platforms/platform_mem.c:308-309 | after freeing a block, exactly that block is no longer allocated, and all others keep their state (both directions) |
| PoolSpec.FreeForeign | COMPONENT_55572A1/platforms/platform_mem.c:263-300 | freeing a pointer that is no block's payload (outside every class, or off a payload offset) changes nothing |
| PoolSpec.FreeConsistent | COMPONENT_55572A1/platforms/platform_mem.c:302-314 | free preserves consistency |
| PoolSpec.AllocateFreeRoundTrip | COMPONENT_55572A1/platforms/platform_mem.c:189-320 | freeing the block that allocate just returned gives back the pool state before the allocation |
| PoolSpec.DoubleFreeIsNoOp | COMPONENT_55572A1/platforms/platform_mem.c:302-306 | with the corrected guard, freeing a pointer twice is the same as freeing it once |
| PoolSpec.FreeThenAllocate | COMPONENT_55572A1/platforms/platform_mem.c:311-314 | when no earlier class fits, the next allocation after a free hands the same block out again |
| PoolSpec.PushedFirst | COMPONENT_55572A1/platforms/platform_mem.c:221-226 | a block pushed at the head of the first fitting class is the one allocate pops next |
| PoolSpec.FirstFitIs | COMPONENT_55572A1/platforms/platform_mem.c:200-214 | a class that fits, with no earlier class fitting, is the one the search selects |
| PoolSpec.FreeAsWrittenLeaks | COMPONENT_55572A1/platforms/platform_mem.c:302-306 | with the guard as written, freeing the block that allocate just returned does nothing, so the block never returns to the pool |
| PoolSpec.FreeAsWrittenDuplicates | COMPONENT_55572A1/platforms/platform_mem.c:302-314 | with the guard as written, freeing a block that is already free pushes it a second time; its list grows by one and consistency is lost |
| PlatformMem.ThreadedPop | COMPONENT_55572A1/platforms/platform_mem.c:221-226 | popping a list head (`p_first = p_next`, `free_num--`) keeps the header chain threaded through the remaining free blocks |
| PlatformMem.ThreadedPush | COMPONENT_55572A1/platforms/platform_mem.c:311-314 | pushing a block that is on no list (`p_next = p_first`, `p_first = block`, `free_num++`) keeps every chain threaded |
| PlatformMem.LinkStep | COMPONENT_55572A1/platforms/platform_mem.c:176-181 | each inner-loop step of init links the current block's header to the block that follows it |
| PlatformMem.LinkFinish | COMPONENT_55572A1/platforms/platform_mem.c:183 | ending a class with NULL leaves its chain in ascending address order, ending in NULL |
| PlatformMem.KeepLinks | COMPONENT_55572A1/platforms/platform_mem.c:169-184 | threading one class keeps the links already written for earlier classes |
| PlatformMem.ThreadedInit | COMPONENT_55572A1/platforms/platform_mem.c:169-184 | the headers written by init thread every free list from `p_first` through all the class's blocks, in address order, to NULL |
| PlatformMem.SelfLinkPops | COMPONENT_55572A1/platforms/platform_mem.c:221-226 | when a block's `p_next` names the block itself, every pop from that head takes the same block again |
| PlatformMem.FreeAsWrittenAfterInit | COMPONENT_55572A1/platforms/platform_mem.c:302-314 | on the shipped table, right after init, freeing the first 32-byte block as written sets class 0's `free_num` to 3 of 2 blocks and leaves block 0 as the head; block 0's `p_next` then names block 0, so the next three pops all take block 0 (payload 4) and block 1 is no longer reachable |
| PlatformMem.Memset | COMPONENT_55572A1/platforms/platform_mem.c:236 | zeroes exactly the given range of bytes and keeps all others |
| PlatformMem.Pool.constructor | COMPONENT_55572A1/platforms/platform_mem.c:88-94 | the zero-initialised `platform_mem_info`: counts 0, heads NULL, no buffers |
| PlatformMem.Pool.Init | COMPONENT_55572A1/platforms/platform_mem.c:106-186 | succeeds exactly when the heap exists, the sizes strictly ascend and both buffers are obtained; it fails before acquiring buffers when the sizes do not ascend; on success the buffers have the computed sizes and are zero, `free_num[i] == num[i]`, `p_first[i]` is class i's base, and the pool is in its initial consistent state |
| PlatformMem.Pool.CheckAscending | COMPONENT_55572A1/platforms/platform_mem.c:123-130 | returns true exactly when every class is strictly larger than the one before |
| PlatformMem.Pool.CountClasses | COMPONENT_55572A1/platforms/platform_mem.c:132-139 | computes the arena size as the sum of `num * (header + size)` and the block count as the sum of `num`, and sets every `free_num` to its class's `num` |
| PlatformMem.Pool.Build | COMPONENT_55572A1/platforms/platform_mem.c:166-184 | zeroes both buffers and threads the lists, reaching the initial consistent state |
| PlatformMem.Pool.ThreadFreeLists | COMPONENT_55572A1/platforms/platform_mem.c:169-184 | sets every list head to its class's base, and links every class's blocks in address order, ending in NULL |
| PlatformMem.Pool.ThreadStep | COMPONENT_55572A1/platforms/platform_mem.c:171-183 | one outer-loop step: sets head i, links class i, advances the running offset to the next class's base, and keeps earlier classes' links |
| PlatformMem.Pool.ThreadClass | COMPONENT_55572A1/platforms/platform_mem.c:176-183 | the inner loop: links class i's blocks in order, ends the chain in NULL, and leaves every earlier header untouched |
| PlatformMem.Pool.Allocate | COMPONENT_55572A1/platforms/platform_mem.c:189-248 | the new pool state and the returned pointer are `PoolSpec.Allocate` of the old state; on NULL the arena is unchanged, and otherwise exactly the chosen class's `size` payload bytes are zeroed |
| PlatformMem.Pool.TakeBlock | COMPONENT_55572A1/platforms/platform_mem.c:220-237 | pops the head, marks its bit and zeroes exactly its payload, in agreement with `PoolSpec.Allocate` |
| PlatformMem.Pool.LocateBlock | COMPONENT_55572A1/platforms/platform_mem.c:263-300 | finds a block exactly when `Locate` does, and then returns its class, slot, bit index and block offset |
| PlatformMem.Pool.Free | COMPONENT_55572A1/platforms/platform_mem.c:250-320 | the corrected free: the new pool state is `PoolSpec.Free` of the old one, and the pool stays valid |
| PlatformMem.Pool.PushBlock | COMPONENT_55572A1/platforms/platform_mem.c:308-314 | clears the block's bit and pushes the block at its list head, in agreement with `PoolSpec.Free` |
| PlatformMem.Pool.LinkBlock | COMPONENT_55572A1/platforms/platform_mem.c:311-314 | writes the block's `p_next` to the old head, makes it the head and increments `free_num`, keeping the chain threaded |
| PlatformMem.Pool.HeaderFresh | COMPONENT_55572A1/platforms/platform_mem.c:311-313 | an allocated block's header is no free block's header, so overwriting it breaks no chain |
| PlatformMem.Pool.FreeAsWritten | COMPONENT_55572A1/platforms/platform_mem.c:250-320 | free exactly as written: the use map, every `free_num` and every `p_first` become those of `PoolSpec.FreeAsWritten` of the old state; when that changes nothing, no header is written and the pool stays valid and unchanged; otherwise the block's `p_next` is set to the old head of its class |
| NvramSpec.Find | COMPONENT_55572A1/platforms/platform.c:264-281 | the walk stops at the first record with the key, and finds none exactly when no record has it |
| NvramSpec.RemoveAt | COMPONENT_55572A1/platforms/platform.c:433-441 | unlinking record i keeps the records before and after it, in order |
| NvramSpec.ReadSpec | COMPONENT_55572A1/platforms/platform.c:245-291 | read on the record list: the count equals the number of bytes copied and never exceeds the capacity; no status pointer gives no status; anything but SUCCESS copies nothing; SUCCESS copies exactly the bytes of the first record with the key |
| NvramSpec.DeleteSpec | COMPONENT_55572A1/platforms/platform.c:409-451 | delete on the catalogue state: with a status pointer the status is always BADARG; a present key loses exactly one record and is announced once; without a status pointer nothing changes |
| NvramSpec.WriteSpec | COMPONENT_55572A1/platforms/platform.c:306-398 | write on the catalogue state, including the delete-and-rewrite recursion: no status pointer gives no status; BADARG exactly for an empty or missing buffer; SUCCESS returns the length, every other outcome 0 |
| NvramSpec.FindUnique | COMPONENT_55572A1/platforms/platform.c:325-369 | with unique keys, the walk for a record's key stops at that record |
| NvramSpec.LookupCons | COMPONENT_55572A1/platforms/platform.c:384-386 | a record linked at the head is found for its key; every other key finds what it found before |
| NvramSpec.LookupRemoveAt | COMPONENT_55572A1/platforms/platform.c:433-441 | unlinking a record changes no other key's lookup |
| NvramSpec.LookupUpdate | COMPONENT_55572A1/platforms/platform.c:352-353 | overwriting a record's bytes changes the lookup of its own key only |
| NvramSpec.RemoveAtKeepsOrder | COMPONENT_55572A1/platforms/platform.c:433-441 | unlinking keeps keys unique and drops exactly the one record (as a multiset) |
| NvramSpec.ConsKeepsDistinct | COMPONENT_55572A1/platforms/platform.c:384-386 | linking a record whose key and block are new keeps keys and blocks unique |
| NvramSpec.RecordSlot | COMPONENT_55572A1/platforms/platform.c:371-377 | a valid record's pointer is the payload of an allocated pool block |
| NvramSpec.RecordBlockLeaks | COMPONENT_55572A1/platforms/platform.c:443 | handing a record's block to `platform_mem_free` as written leaves the pool exactly as it was, while the corrected free would have changed it |
| NvramSpec.EmptyInv | COMPONENT_55572A1/platforms/platform.c:61-70 | the empty catalogue over a consistent pool satisfies the catalogue invariant |
| NvramSpec.DeletePreservesInv | COMPONENT_55572A1/platforms/platform.c:409-451 | delete keeps the invariant (consistent pool, unique keys, each record in its own allocated block), and afterwards the key is absent |
| NvramSpec.WritePreservesInv | COMPONENT_55572A1/platforms/platform.c:306-398 | every write, including the length-changing delete-and-rewrite recursion, keeps the invariant |
| NvramSpec.UpdatePreservesInv | COMPONENT_55572A1/platforms/platform.c:352-365 | an in-place overwrite with the same length keeps the invariant |
| NvramSpec.FreeBlockIsNoRecord | COMPONENT_55572A1/platforms/platform.c:371-377 | a block the pool hands out is not the block of any listed record |
| NvramSpec.InsertPreservesInv | COMPONENT_55572A1/platforms/platform.c:371-397 | linking a new record for an absent key, in a freshly allocated block, keeps the invariant |
| NvramSpec.ReadOutcome | COMPONENT_55572A1/platforms/platform.c:255-290 | read succeeds exactly for a non-zero capacity, a present key and a record no longer than the capacity, and then copies exactly the record's bytes and returns their count; otherwise it returns 0, copies nothing and reports BADARG, also with a NULL buffer |
| NvramSpec.ReadTooSmall | COMPONENT_55572A1/platforms/platform.c:267-273 | a capacity below the record's length returns 0, copies nothing and leaves BADARG |
| NvramSpec.NoStatusPointer | COMPONENT_55572A1/platforms/platform.c:250-253 | with a NULL status pointer, read, write and delete return 0 and touch nothing |
| NvramSpec.WriteSameBytes | COMPONENT_55572A1/platforms/platform.c:343-350 | rewriting a key with the bytes it holds returns SUCCESS and the length, with no change and no notification |
| NvramSpec.WriteInPlace | COMPONENT_55572A1/platforms/platform.c:352-365 | same length, other bytes: the record is overwritten in place in the same block; exactly one notification carries the key and new bytes; SUCCESS; other keys unchanged |
| NvramSpec.WriteAbsent | COMPONENT_55572A1/platforms/platform.c:371-397 | an absent key: on allocation failure, 0 and NO_MEMORY with nothing changed, which happens exactly when no class fits; otherwise the record goes at the head in a block that was free, with one notification and SUCCESS |
| NvramSpec.WriteResize | COMPONENT_55572A1/platforms/platform.c:334-341 | a length change deletes and announces the old record, whose block stays allocated (the pool is unchanged), then writes afresh; the result is NO_MEMORY exactly when no class fits the new record in that unchanged pool; after SUCCESS exactly one record, the head, holds the key with the new bytes; after NO_MEMORY the key is gone |
| NvramSpec.ResizeStarves | COMPONENT_55572A1/platforms/platform.c:334-341 | a length change that no class can serve in the current pool deletes and announces the old record, then ends in NO_MEMORY with the key gone |
| NvramSpec.FreshWriteTakesLargestBlock | COMPONENT_55572A1/platforms/platform.c:371-397 | on the shipped table, from a fresh pool, a 500-byte record (511 pool bytes) takes the only 572-byte block, after which no class can serve 512 bytes |
| NvramSpec.LeakedBlockStarvesResize | COMPONENT_55572A1/platforms/platform.c:334-341 | on the shipped table, from a fresh pool, for any bytes: a 500-byte write of key 1 succeeds and takes the only 572-byte block; a 501-byte write of key 1 then deletes the record without getting the block back, and ends in NO_MEMORY with key 1 gone |
| NvramSpec.WriteThenRead | COMPONENT_55572A1/platforms/platform.c:306-398 | after a write that reports SUCCESS, reading the key with enough room returns exactly the written bytes; after a failed write the key reads as absent |
| NvramSpec.InsertKeepsOthers | COMPONENT_55572A1/platforms/platform.c:384-386 | inserting a new key leaves every other key's lookup as it was |
| NvramSpec.WriteKeepsOthers | COMPONENT_55572A1/platforms/platform.c:306-398 | a write of one key leaves every other key's read result unchanged |
| NvramSpec.DeleteOutcome | COMPONENT_55572A1/platforms/platform.c:420-450 | delete of a present key unlinks exactly the first record with it, keeps the rest in order, sends one notification, and leaves the pool unchanged: the record's block stays allocated and no remaining record owns it; an absent key changes nothing; the status is BADARG in both cases |
| NvramSpec.DeleteThenRead | COMPONENT_55572A1/platforms/platform.c:409-451 | after a delete the key reads as absent |
| NvramSpec.DeleteKeepsOthers | COMPONENT_55572A1/platforms/platform.c:433-441 | a delete of one key leaves the lookup of every other key as it was |
| NvramSpec.DeleteIdempotent | COMPONENT_55572A1/platforms/platform.c:409-451 | a second delete of the same key changes nothing |
| Nvram.VirtualNvram.constructor | COMPONENT_55572A1/platforms/platform.c:61-70 | the zero-initialised `platform_cb`: an empty list over a valid pool |
| Nvram.VirtualNvram.Read | COMPONENT_55572A1/platforms/platform.c:245-291 | the returned length, status and copied bytes are `ReadSpec` of the list |
| Nvram.VirtualNvram.Delete | COMPONENT_55572A1/platforms/platform.c:409-451 | the new catalogue state and status are `DeleteSpec` of the old state, in which the record's block stays allocated; the invariant is kept |
| Nvram.VirtualNvram.Unlink | COMPONENT_55572A1/platforms/platform.c:426-445 | unlinks the found record through `p_pre` or the root, notifies, and hands its block to `platform_mem_free` as written, which leaves the pool unchanged, as `DeleteSpec` says |
| Nvram.VirtualNvram.Search | COMPONENT_55572A1/platforms/platform.c:325-369 | the walk returns the position `Find` names, or the list length when the key is absent; delete walks the list the same way (`platform.c:426-448`), with `p_pre` one record behind |
| Nvram.VirtualNvram.Write | COMPONENT_55572A1/platforms/platform.c:306-398 | the new catalogue state, the returned length and the status are `WriteSpec` of the old state, in which a resized record's old block stays allocated; the invariant is kept |
| Nvram.VirtualNvram.Resize | COMPONENT_55572A1/platforms/platform.c:334-341 | the delete-then-write branch agrees with `WriteSpec`: the old record is unlinked with its block kept allocated, then the key is written afresh |
| Nvram.VirtualNvram.Overwrite | COMPONENT_55572A1/platforms/platform.c:352-365 | the in-place `memcpy` branch agrees with `WriteSpec` |
| Nvram.VirtualNvram.Insert | COMPONENT_55572A1/platforms/platform.c:371-397 | the allocate-and-link branch agrees with `WriteSpec` |
| Transport.U16 | COMPONENT_55572A1/platforms/platform.c:151-152 | a little-endian 16-bit field is below 65536, with the first byte as its low byte and the second as its high byte |
| Transport.U16RoundTrip | COMPONENT_55572A1/platforms/platform.c:151-152 | decoding the two bytes of a 16-bit value gives it back |
| Transport.U16BytesRoundTrip | COMPONENT_55572A1/platforms/platform.c:151-152 | encoding a decoded byte pair gives the pair back |
| Transport.ParseHeader | COMPONENT_55572A1/platforms/platform.c:136-152 | a header is rejected exactly for a NULL buffer or one shorter than 4 bytes; otherwise the opcode and payload length are 16-bit values |
| Transport.ParseEncodedHeader | COMPONENT_55572A1/platforms/platform.c:151-152 | a frame built from a header and any payload decodes to that header |
| Transport.EncodeParsedHeader | COMPONENT_55572A1/platforms/platform.c:151-152 | every accepted buffer starts with the encoding of the header it decodes to |
| Transport.PushLengthAsWritten | COMPONENT_55572A1/platforms/platform.c:117 | the length passed on, as written: `data_len - 2` in 32-bit unsigned arithmetic, narrowed to 16 bits |
| Transport.PushLengthUnderflows | COMPONENT_55572A1/platforms/platform.c:108-117 | a one-byte push body passes the `data_len == 0` guard and, as written, asks the write for 65535 bytes; the corrected handler writes nothing |
| Transport.PushOneByteAsWritten | COMPONENT_55572A1/platforms/platform.c:117 | as written, the 65535-byte write of a one-byte push ends in NO_MEMORY with the pool unchanged; a present key is first deleted and announced by the resize path (`platform.c:334-341`) and is then gone; an absent key leaves everything unchanged |
| Transport.PushLengthAgrees | COMPONENT_55572A1/platforms/platform.c:116-117 | for every body that holds a vs_id, the written length equals the corrected one |
| Transport.PushNvramArgs | COMPONENT_55572A1/platforms/platform.c:101-121 | nothing is written exactly when the body is NULL or shorter than a vs_id; otherwise the body is those two key bytes followed by the value |
| Transport.PushSpec | COMPONENT_55572A1/platforms/platform.c:101-121 | the push handler on the catalogue state, with the corrected guard: a body shorter than a vs_id changes nothing; otherwise it is the write of the little-endian key in the first two bytes and the `dataLen - 2` bytes after them |
| Transport.PushArgsRoundTrip | COMPONENT_55572A1/platforms/platform.c:116-117 | a body built from a key and a value decodes to that key and value |
| Transport.RxSpec | COMPONENT_55572A1/platforms/platform.c:126-173 | the handler reports INVALID_ARGS exactly when the header is rejected, and the store is then unchanged; opcodes other than push leave the store unchanged |
| Transport.PushFrameDecodes | COMPONENT_55572A1/platforms/platform.c:151-157 | a push frame decodes to its opcode, its length, its key and its value |
| Transport.PushFrameWrites | COMPONENT_55572A1/platforms/platform.c:155-157 | receiving a push frame is exactly the catalogue write of its key and value, with SUCCESS |
| Transport.PushFrameThenRead | COMPONENT_55572A1/platforms/platform.c:155-157 | after a push frame whose write succeeds, reading the key returns the pushed bytes; when the pool has no room, the key reads as absent |
| Transport.OtherOpcodeKeepsStore | COMPONENT_55572A1/platforms/platform.c:159-163 | a frame with any other opcode is acknowledged, and the handler itself leaves the catalogue as it was; the callback is not modelled |
| Transport.RxDataHandler | COMPONENT_55572A1/platforms/platform.c:126-173 | the returned status and the new catalogue state are `RxSpec` of the old state and the buffer; the invariant is kept |
| Transport.PushNvramData | COMPONENT_55572A1/platforms/platform.c:101-121 | the corrected push handler: the new catalogue state is `PushSpec` of the old one, and a NULL body changes nothing |

## Left out

- The mutexes: their creation and initialisation in `platform_mem_init` (and the early `FALSE` when that fails), and the lock and unlock in allocate and free. The model is sequential, so every call is atomic. `Pool.Init` therefore covers only the heap, ascending-size and buffer outcomes.
- `wiced_bt_create_heap` and `wiced_bt_get_buffer_from_heap` are foreign. Their success or failure is a boolean parameter of `Pool.Init`, and a successful buffer is a fresh array.
- `wiced_transport_send_data` is foreign and its result is ignored. Each notification is an entry in a ghost event log: key and bytes for a write, key for a delete.
- `wiced_transport_free_buffer` and the `NEW_DYNAMIC_MEMORY_INCLUDED` switch are left out. They release the received buffer and have no effect on the store.
- The application's rx callback in the default branch is an opaque function pointer. It may itself read, write or delete NVRAM records. The model states only that the rx handler itself leaves the catalogue alone, apart from whatever the callback does.
- The transport status handler, the transport initialisation, and the GPIO and configuration files around these two components are not part of this model.
- The `p_next` header words live in a map keyed by block offset, not inside the arena bytes. The 4 header bytes of each block are reserved in the arena but never written.
- Record bytes are kept in the record value, not copied into the pool block. A record's block is allocated, sits in the record's `ptr`, is proved large enough, and on delete is handed to `platform_mem_free` as written, which keeps it allocated. `memcpy` into and out of it is the value itself.
- The catalogue's `p_next` links are the order of a sequence, head first. Aliasing between records cannot happen in the model.
- `Transport.RxDataHandler`: requires that the header's payload length fits in the received buffer. The source does not check this and would read past its buffer.
- `Transport.PushSpec`, `Transport.RxSpec`, `Transport.RxDataHandler` and `Transport.PushNvramData`: a push frame goes through the corrected guard (see Findings). A push whose payload length is 1 therefore writes nothing. As written, the source would ask for 65535 bytes, delete and announce a present key, and end in NO_MEMORY (`Transport.PushOneByteAsWritten`). The as-written length is `Transport.PushLengthAsWritten`.
- `PlatformMem.Pool.TakeBlock`: zeroes the payload before setting the bit. `PlatformMem.Pool.PushBlock` links the block before clearing the bit. The source does these in the other order; the two touch disjoint state.
- `Nvram.VirtualNvram.Write`: requires a key and length below 65536. Both are `uint16_t` parameters in the source.
- The model gives these statuses as the code sets them:
  - Delete never sets `WICED_SUCCESS`; its status stays `WICED_BADARG` whether or not the key was present.
  - Every failed read, absent key, or too-small buffer reports `WICED_BADARG`.
  - A length-changing write whose new allocation fails has already deleted the old record. The key is then absent, and the status is `WICED_NO_MEMORY`.

## Findings

| source | as written | input that shows it | evidently intended | confidence | as-written member | corrected member |
|---|---|---|---|---|---|---|
| COMPONENT_55572A1/platforms/platform_mem.c:302-306 | free jumps to the end when the block's bit is set, so an allocated block is never returned, and a free block is pushed again | after init, free the payload of class 0 slot 0: block 0's `p_next` names block 0, `free_num` becomes 3, block 1 is unreachable, and the next three allocations of at most 32 bytes all return payload 4; or allocate any block and free it: nothing changes | skip the free when the bit is clear (block not allocated); otherwise clear the bit and push | not executed | PlatformMem.FreeAsWrittenAfterInit | PoolSpec.AllocateFreeRoundTrip |
| COMPONENT_55572A1/platforms/platform.c:108-117 | the guard rejects only `data_len == 0`, so `data_len == 1` makes `payload_len = data_len - 2` wrap to 0xFFFFFFFF, and 65535 once narrowed to the write's `uint16_t` | a push frame whose header declares a payload length of 1 | reject bodies shorter than the 2-byte vs_id | not executed | Transport.PushLengthUnderflows | Transport.PushNvramArgs |

Both halves of each finding are in the model:
- The as-written free is `PoolSpec.FreeAsWritten` and `PlatformMem.Pool.FreeAsWritten`. `PoolSpec.FreeAsWrittenLeaks` and `PoolSpec.FreeAsWrittenDuplicates` show both ways it goes wrong, for every state. `PoolSpec.FreeAsWritten` gives the count and the head a control record is left with. The header chain is stated over `p_next` in `PlatformMem.FreeAsWrittenAfterInit`.
- The corrected free is `PoolSpec.Free` and `PlatformMem.Pool.Free`. Its consistency, LIFO and round-trip properties are proved on their own (`FreeConsistent`, `FreePushes`, `AllocateFreeRoundTrip`, `DoubleFreeIsNoOp`).
- The catalogue's delete calls `platform_mem_free` itself (`platform.c:443`), so the catalogue runs on the free as written. A deleted record's block therefore stays allocated (`NvramSpec.RecordBlockLeaks`). `NvramSpec.LeakedBlockStarvesResize` shows the block loss making a later write fail.
- The push handler's as-written length is `Transport.PushLengthAsWritten`. `Transport.PushOneByteAsWritten` follows that length into the write: NO_MEMORY, after a present key has been deleted. The corrected handler `Transport.PushNvramData` follows `Transport.PushNvramArgs`.
