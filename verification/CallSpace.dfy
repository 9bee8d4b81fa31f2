/** space/CallSpace.h: the bounded byte log that clients append frames to and the server drains. */
module CallSpaceModel {
  import opened Bytes

  /** The log's contents after push, as a value: what was accepted and what the log holds. */
  function PushLog(log: seq<Byte>, data: seq<Byte>, maxData: nat, capacity: nat): (r: (bool, seq<Byte>)) {
    if |data| == 0 || |data| > maxData || |log| + |data| > capacity then (false, log)
    else (true, log + data)
  }

  class CallSpace {
    const maxQueue: UInt16
    const maxData: UInt16
    const data: array<Byte>
    var writeIndex: nat

    ghost predicate Valid()
      reads this
    {
      data.Length == Capacity() && writeIndex <= data.Length
    }

    /** DATA_LENGTH. */
    function Capacity(): nat {
      maxData * maxQueue
    }

    /** The bytes pushed since the last clear. */
    function Log(): seq<Byte>
      reads this, data
      requires Valid()
    {
      data[..writeIndex]
    }

    constructor (maxQueue: UInt16, maxData: UInt16)
      ensures Valid() && fresh(data) && Log() == []
      ensures this.maxQueue == maxQueue && this.maxData == maxData
    {
      this.maxQueue := maxQueue;
      this.maxData := maxData;
      this.data := new Byte[maxData * maxQueue](_ => 0);
      this.writeIndex := 0;
    }

    method IsDataAvailable() returns (r: bool)
      requires Valid()
      ensures r <==> Log() != []
    {
      r := writeIndex > 0;
    }

    /** Appends sz bytes of src, or refuses. The write index is a uint32_t: the sum below does
        not wrap for any 16-bit queue and slot size (WriteIndexDoesNotWrap). */
    method Push(src: array?<Byte>, sz: nat) returns (ok: bool)
      requires Valid()
      requires src != null ==> sz <= src.Length && src != data
      requires sz < 0x1_0000_0000
      modifies `writeIndex, data
      ensures Valid()
      ensures src == null ==> !ok && Log() == old(Log())
      ensures src != null ==> (ok, Log()) == PushLog(old(Log()), src[..sz], maxData, Capacity())
    {
      if src == null || sz == 0 {
        return false;
      }
      if sz > maxData {
        return false;
      }
      WriteIndexDoesNotWrap(maxQueue, maxData, writeIndex, sz);
      if Wrap32(writeIndex + sz) > Capacity() {
        return false;
      }
      forall k | 0 <= k < sz {
        data[writeIndex + k] := src[k];
      }
      writeIndex := Wrap32(writeIndex + sz);
      assert data[..writeIndex] == old(data[..writeIndex]) + src[..sz];
      return true;
    }

    /** The size of the log; its bytes are read through data. */
    method Pop() returns (dataSz: nat)
      requires Valid()
      ensures dataSz == |Log()| && data[..dataSz] == Log()
    {
      dataSz := writeIndex;
    }

    method Clear()
      requires Valid()
      modifies `writeIndex
      ensures Valid() && Log() == []
    {
      writeIndex := 0;
    }
  }

  lemma {:induction false} CapacityBound(maxQueue: UInt16, maxData: UInt16)
    ensures maxData * maxQueue <= 0xFFFF * 0xFFFF
  {
    ProductMonotone(maxData, maxQueue, 0xFFFF);
  }

  lemma {:induction false} ProductMonotone(a: nat, b: nat, c: nat)
    requires b <= c
    ensures a * b <= a * c
    decreases c
  {
    if b < c {
      ProductMonotone(a, b, c - 1);
      assert a * c == a * (c - 1) + a;
    }
  }

  /** For all 16-bit template parameters the 32-bit write index holds every sum that push forms
      after its size check. */
  lemma {:induction false} WriteIndexDoesNotWrap(maxQueue: UInt16, maxData: UInt16, writeIndex: nat, sz: nat)
    requires writeIndex <= maxData * maxQueue && sz <= maxData
    ensures Wrap32(writeIndex + sz) == writeIndex + sz
  {
    CapacityBound(maxQueue, maxData);
  }
}
