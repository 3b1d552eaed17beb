/**
 * The virtual NVRAM of platform.c: a catalogue rooted at
 * platform_cb.p_virtual_nvram whose records live in pool blocks. Each
 * operation walks the catalogue as the source does and is proved to follow
 * the functions of NvramSpec.
 */
module Nvram {
  import opened Wrappers
  import opened PoolConfig
  import opened PoolSpec
  import opened PlatformMem
  import opened NvramSpec

  class VirtualNvram {
    /** The allocator the records are carved from. */
    const pool: Pool
    /** The records from platform_cb.p_virtual_nvram along p_next. */
    var records: seq<Record>
    /** What wiced_transport_send_data has been handed so far. */
    ghost var events: seq<Event>

    ghost function State(): Store
      reads this, pool, pool.useMap
    {
      Store(records, pool.View(), events)
    }

    ghost predicate Valid()
      reads this, pool, pool.useMap
    {
      pool.Valid() && StoreInv(pool.cfg, State())
    }

    /** platform_cb starts zeroed: an empty catalogue over an initialised pool. */
    constructor (pool: Pool)
      requires pool.Valid()
      ensures this.pool == pool && records == [] && events == []
      ensures Valid()
    {
      this.pool := pool;
      records := [];
      events := [];
      new;
      EmptyInv(pool.cfg, pool.View());
    }

    /** wiced_platform_nvram_read */
    method Read(vsId: nat, dataLength: nat, hasBuffer: bool, hasStatus: bool) returns (n: nat, status: Option<Status>, copied: seq<byte>)
      ensures ReadResult(n, status, copied) == ReadSpec(records, vsId, dataLength, hasBuffer, hasStatus)
    {
      n, copied := 0, [];
      if !hasStatus {
        return 0, None, [];
      }
      status := Some(BadArg);
      if dataLength == 0 || !hasBuffer {
        return;
      }
      var index := 0;
      while index < |records|
        invariant 0 <= index <= |records|
        invariant forall j :: 0 <= j < index ==> records[j].vsId != vsId
      {
        if records[index].vsId == vsId {
          if dataLength < |records[index].data| {
            return;
          }
          copied := records[index].data;
          break;
        }
        index := index + 1;
      }
      if index == |records| {
        return;
      }
      status := Some(Success);
      n := |records[index].data|;
    }

    /**
     * wiced_platform_nvram_delete: unlink the first record with the key and
     * hand its block to platform_mem_free as written, which keeps it allocated.
     */
    method Delete(vsId: nat, hasStatus: bool) returns (status: Option<Status>)
      requires Valid()
      modifies this, pool, pool.useMap
      ensures Valid() && pool.useMap == old(pool.useMap) && pool.arena == old(pool.arena)
      ensures DeleteResult(State(), status) == DeleteSpec(pool.cfg, old(State()), vsId, hasStatus)
    {
      if !hasStatus {
        return None;
      }
      status := Some(BadArg);
      // The walk keeps p_pre one record behind p_index, NULL (-1) at the root.
      var index := Search(vsId);
      if index < |records| {
        Unlink(vsId, index, index - 1);
      }
    }

    /** The found branch of wiced_platform_nvram_delete: notify, unlink record index, pass its block to platform_mem_free. */
    method Unlink(vsId: nat, index: nat, pre: int)
      requires Valid() && Find(records, vsId) == Some(index) && pre == index - 1
      modifies this, pool, pool.useMap
      ensures Valid() && pool.useMap == old(pool.useMap) && pool.arena == old(pool.arena)
      ensures State() == DeleteSpec(pool.cfg, old(State()), vsId, true).store
    {
      DeletePreservesInv(pool.cfg, State(), vsId, true);
      RecordBlockLeaks(pool.cfg, pool.View(), records[index]);
      ghost var expected := DeleteSpec(pool.cfg, State(), vsId, true).store;
      events := events + [DeleteEvent(vsId)];
      var target := records[index].ptr;
      if pre == -1 {
        assert records[1..] == RemoveAt(records, index);
        records := records[1..];
      } else {
        records := records[..pre + 1] + records[index + 1..];
      }
      pool.FreeAsWritten(target);
      assert State() == expected;
    }

    /**
     * wiced_platform_nvram_write. A present key with another length is
     * deleted and written again; the recursion ends because the delete
     * shortens the catalogue.
     */
    method Write(vsId: nat, data: seq<byte>, hasData: bool, hasStatus: bool) returns (n: nat, status: Option<Status>)
      requires Valid() && vsId < UINT16_LIMIT && |data| < UINT16_LIMIT
      modifies this, pool, pool.useMap, pool.arena
      ensures Valid() && pool.useMap == old(pool.useMap) && pool.arena == old(pool.arena)
      ensures WriteResult(State(), n, status) == WriteSpec(pool.cfg, old(State()), vsId, data, hasData, hasStatus)
      decreases |records|, 1
    {
      if !hasStatus {
        return 0, None;
      }
      status := Some(BadArg);
      if |data| == 0 || !hasData {
        return 0, status;
      }
      ghost var s0 := State();
      var index := Search(vsId);
      if index < |records| {
        // The walk stopped at the record with this key.
        if |data| != |records[index].data| {
          n, status := Resize(vsId, data, index);
        } else if data == records[index].data {
          WriteSameBytes(pool.cfg, s0, vsId);
          n, status := |data|, Some(Success);
        } else {
          n, status := Overwrite(vsId, data, index);
        }
      } else {
        n, status := Insert(vsId, data);
      }
    }

    /**
     * The walk of wiced_platform_nvram_write and wiced_platform_nvram_delete:
     * the position of the first record with the key, or the length.
     */
    method Search(vsId: nat) returns (index: nat)
      ensures index <= |records|
      ensures index < |records| ==> Find(records, vsId) == Some(index)
      ensures index == |records| ==> Find(records, vsId) == None
    {
      index := 0;
      while index < |records| && records[index].vsId != vsId
        invariant 0 <= index <= |records|
        invariant forall j :: 0 <= j < index ==> records[j].vsId != vsId
      {
        index := index + 1;
      }
    }

    /** The length-changing branch of wiced_platform_nvram_write: delete the record, then write the key afresh. */
    method Resize(vsId: nat, data: seq<byte>, index: nat) returns (n: nat, status: Option<Status>)
      requires Valid() && vsId < UINT16_LIMIT && 0 < |data| < UINT16_LIMIT
      requires Find(records, vsId) == Some(index) && |data| != |records[index].data|
      modifies this, pool, pool.useMap, pool.arena
      ensures Valid() && pool.useMap == old(pool.useMap) && pool.arena == old(pool.arena)
      ensures WriteResult(State(), n, status) == WriteSpec(pool.cfg, old(State()), vsId, data, true, true)
      decreases |records|, 0
    {
      WriteResize(pool.cfg, State(), vsId, data);
      status := Delete(vsId, true);
      n, status := Write(vsId, data, true, true);
    }

    /** The same-length branch of wiced_platform_nvram_write: copy the new bytes over the record and notify. */
    method Overwrite(vsId: nat, data: seq<byte>, index: nat) returns (n: nat, status: Option<Status>)
      requires Valid() && Find(records, vsId) == Some(index)
      requires |data| == |records[index].data| && data != records[index].data
      modifies this
      ensures Valid()
      ensures WriteResult(State(), n, status) == WriteSpec(pool.cfg, old(State()), vsId, data, true, true)
    {
      UpdatePreservesInv(pool.cfg, State(), index, data);
      records := records[index := records[index].(data := data)];
      events := events + [WriteEvent(vsId, data)];
      return |data|, Some(Success);
    }

    /** The tail of wiced_platform_nvram_write for an absent key: allocate, fill, link at the head, notify. */
    method Insert(vsId: nat, data: seq<byte>) returns (n: nat, status: Option<Status>)
      requires Valid() && vsId < UINT16_LIMIT && 0 < |data| < UINT16_LIMIT && Find(records, vsId).None?
      modifies this, pool, pool.useMap, pool.arena
      ensures Valid() && pool.useMap == old(pool.useMap) && pool.arena == old(pool.arena)
      ensures WriteResult(State(), n, status) == WriteSpec(pool.cfg, old(State()), vsId, data, true, true)
    {
      InsertPreservesInv(pool.cfg, State(), vsId, data);
      WriteAbsent(pool.cfg, State(), vsId, data);
      var p := pool.Allocate(RecordSize(data));
      if p == NULL {
        return 0, Some(NoMemory);
      }
      records := [Record(vsId, data, p)] + records;
      events := events + [WriteEvent(vsId, data)];
      return |data|, Some(Success);
    }
  }
}
