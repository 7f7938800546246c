/**
 * The foreign-boundary mirrors of `SetupConnection` and
 * `SetupConnection.Error`: every `Str0255` becomes an owned `CVec` buffer.
 * Converting a message into its mirror allocates the buffers, converting a
 * mirror back only reads them, and dropping a mirror frees each of them
 * once with `free_vec`.
 */
module CBridge {
  import opened BinaryCodec
  import opened Protocols
  import opened SetupConnectionMessages

  /** `CSetupConnection`: `SetupConnection` with its five strings held in `CVec` buffers. */
  datatype CSetupConnection = CSetupConnection(
    protocol: Protocol,
    minVersion: uint16,
    maxVersion: uint16,
    flags: bv32,
    endpointHost: CVec,
    endpointPort: uint16,
    vendor: CVec,
    hardwareVersion: CVec,
    firmware: CVec,
    deviceId: CVec)
  {
    /** The five buffers in field order: host, vendor, hardware version, firmware, device id. */
    function Buffers(): (bs: seq<CVec>)
      ensures |bs| == 5
    {
      [endpointHost, vendor, hardwareVersion, firmware, deviceId]
    }

    /** The identities of the five buffers, in field order. */
    function BufferIds(): (ids: seq<nat>)
      ensures |ids| == 5
      ensures forall i :: 0 <= i < 5 ==> ids[i] == Buffers()[i].id
    {
      [endpointHost.id, vendor.id, hardwareVersion.id, firmware.id, deviceId.id]
    }

    /** The identities of the five buffers, as a set. */
    function BufferIdSet(): (ids: set<nat>)
      ensures forall id :: id in ids <==> id in BufferIds()
    {
      {endpointHost.id, vendor.id, hardwareVersion.id, firmware.id, deviceId.id}
    }

    /** Every buffer of the mirror is still allocated. */
    predicate Live(heap: Allocator)
      reads heap
    {
      forall i :: 0 <= i < 5 ==> BufferIds()[i] in heap.live
    }

    /** The mirror owns five distinct live buffers, so each may be freed once. */
    predicate Owns(heap: Allocator)
      reads heap
    {
      && (forall i, j :: 0 <= i < j < 5 ==> BufferIds()[i] != BufferIds()[j])
      && Live(heap)
    }

    /** The mirror carries exactly the message's fields and bytes. */
    predicate Mirrors(v: SetupConnection)
      reads v
    {
      && protocol == v.protocol
      && minVersion == v.minVersion
      && maxVersion == v.maxVersion
      && flags == v.flags
      && endpointHost.bytes == v.endpointHost
      && endpointPort == v.endpointPort
      && vendor.bytes == v.vendor
      && hardwareVersion.bytes == v.hardwareVersion
      && firmware.bytes == v.firmware
      && deviceId.bytes == v.deviceId
    }

    /**
     * `From<SetupConnection> for CSetupConnection`: copies the scalar fields
     * and moves each string into a newly allocated buffer.
     */
    static method FromSetupConnection(v: SetupConnection, heap: Allocator) returns (c: CSetupConnection)
      requires heap.Valid()
      modifies heap
      ensures heap.Valid()
      ensures c.Mirrors(v)
      ensures c.Owns(heap)
      ensures forall i :: 0 <= i < 5 ==> c.BufferIds()[i] !in old(heap.live) && c.BufferIds()[i] !in old(heap.released)
      ensures heap.live == old(heap.live) + c.BufferIdSet()
      ensures heap.released == old(heap.released)
    {
      var endpointHost := heap.Alloc(v.endpointHost);
      var vendor := heap.Alloc(v.vendor);
      var hardwareVersion := heap.Alloc(v.hardwareVersion);
      var firmware := heap.Alloc(v.firmware);
      var deviceId := heap.Alloc(v.deviceId);
      c := CSetupConnection(v.protocol, v.minVersion, v.maxVersion, v.flags,
                            endpointHost, v.endpointPort, vendor, hardwareVersion, firmware, deviceId);
      assert c.BufferIds() == [endpointHost.id, vendor.id, hardwareVersion.id, firmware.id, deviceId.id];
    }

    /**
     * `to_rust_rep_mut`: reads each buffer as a `Str0255` in field order and
     * stops at the first one longer than 255 bytes. Nothing is allocated or freed.
     */
    method ToRustRepMut(heap: Allocator) returns (r: Result<SetupConnection, Error>)
      requires Live(heap)
      ensures r.Ok? <==> forall i :: 0 <= i < 5 ==> |Buffers()[i].bytes| <= STR0255_MAX_SIZE
      ensures r.Ok? ==> fresh(r.value) && Mirrors(r.value)
      ensures r.Err? ==>
                exists i :: 0 <= i < 5
                  && |Buffers()[i].bytes| > STR0255_MAX_SIZE
                  && (forall j :: 0 <= j < i ==> |Buffers()[j].bytes| <= STR0255_MAX_SIZE)
                  && r.error == ValueExceedsMaxSize(STR0255_MAX_SIZE, Buffers()[i].bytes)
    {
      assert Buffers()[0] == this.endpointHost && Buffers()[1] == this.vendor
          && Buffers()[2] == this.hardwareVersion && Buffers()[3] == this.firmware
          && Buffers()[4] == this.deviceId;
      var endpointHost :- Str0255TryFrom(this.endpointHost.bytes);
      var vendor :- Str0255TryFrom(this.vendor.bytes);
      var hardwareVersion :- Str0255TryFrom(this.hardwareVersion.bytes);
      var firmware :- Str0255TryFrom(this.firmware.bytes);
      var deviceId :- Str0255TryFrom(this.deviceId.bytes);
      var v := new SetupConnection(protocol, minVersion, maxVersion, flags,
                                   endpointHost, endpointPort, vendor, hardwareVersion, firmware, deviceId);
      r := Ok(v);
    }

    /** `Drop for CSetupConnection`: frees the five buffers one after another, in field order. */
    method Drop(heap: Allocator)
      requires heap.Valid() && Owns(heap)
      modifies heap
      ensures heap.Valid()
      ensures heap.live == old(heap.live) - BufferIdSet()
      ensures heap.released == old(heap.released) + BufferIds()
      ensures heap.next == old(heap.next)
    {
      ghost var ids := BufferIds();
      assert ids == [endpointHost.id, vendor.id, hardwareVersion.id, firmware.id, deviceId.id];
      assert ids[0] in heap.live && ids[1] in heap.live && ids[2] in heap.live
          && ids[3] in heap.live && ids[4] in heap.live;
      heap.FreeVec(endpointHost);
      heap.FreeVec(vendor);
      heap.FreeVec(hardwareVersion);
      heap.FreeVec(firmware);
      heap.FreeVec(deviceId);
    }
  }

  /** `free_setup_connection`: consumes the mirror by dropping it. */
  method FreeSetupConnection(s: CSetupConnection, heap: Allocator)
    requires heap.Valid() && s.Owns(heap)
    modifies heap
    ensures heap.Valid()
    ensures heap.live == old(heap.live) - s.BufferIdSet()
    ensures heap.released == old(heap.released) + s.BufferIds()
    ensures heap.next == old(heap.next)
  {
    s.Drop(heap);
  }

  /** Once released, a buffer is no longer owned: a second free cannot be requested. */
  lemma {:induction false} ReleasedIsNotOwned(s: CSetupConnection, heap: Allocator, k: nat)
    requires heap.Valid()
    requires k < |heap.released| && heap.released[k] in s.BufferIds()
    ensures !s.Owns(heap)
  {
    var i :| 0 <= i < 5 && s.BufferIds()[i] == heap.released[k];
    assert s.BufferIds()[i] !in heap.live;
  }

  /**
   * A message sent across the boundary and read back: the mirror is built,
   * converted back without error into an equal message, and freed, so no
   * buffer it allocated stays live and each was freed exactly once.
   */
  method RoundTrip(v: SetupConnection, heap: Allocator) returns (w: SetupConnection)
    requires heap.Valid()
    modifies heap
    ensures heap.Valid()
    ensures fresh(w) && w.Equals(v)
    ensures heap.live == old(heap.live)
    ensures |heap.released| == |old(heap.released)| + 5
    ensures forall k :: |old(heap.released)| <= k < |heap.released| ==> heap.released[k] !in old(heap.released)
  {
    var c := CSetupConnection.FromSetupConnection(v, heap);
    var r := c.ToRustRepMut(heap);
    assert forall i :: 0 <= i < 5 ==> |c.Buffers()[i].bytes| <= STR0255_MAX_SIZE;
    w := r.value;
    FreeSetupConnection(c, heap);
  }

  /** `CSetupConnectionError`: `SetupConnection.Error` with its error code held in a `CVec` buffer. */
  datatype CSetupConnectionError = CSetupConnectionError(flags: bv32, errorCode: CVec)
  {
    /**
     * `From<SetupConnectionError> for CSetupConnectionError`: copies the flags
     * and moves the error code into a newly allocated buffer.
     */
    static method FromSetupConnectionError(v: SetupConnectionError, heap: Allocator) returns (c: CSetupConnectionError)
      requires heap.Valid()
      modifies heap
      ensures heap.Valid()
      ensures c.flags == v.flags && c.errorCode.bytes == v.errorCode
      ensures c.errorCode.id !in old(heap.live) && c.errorCode.id !in old(heap.released)
      ensures heap.live == old(heap.live) + {c.errorCode.id}
      ensures heap.released == old(heap.released)
    {
      var errorCode := heap.Alloc(v.errorCode);
      c := CSetupConnectionError(v.flags, errorCode);
    }

    /** `to_rust_rep_mut`: reads the buffer back as a `Str0255`, failing beyond 255 bytes. */
    function ToRustRepMut(heap: Allocator): (r: Result<SetupConnectionError, Error>)
      requires errorCode.id in heap.live
      reads heap
      ensures r.Ok? <==> |errorCode.bytes| <= STR0255_MAX_SIZE
      ensures r.Ok? ==> r.value.flags == flags && r.value.errorCode == errorCode.bytes
      ensures r.Err? ==> r.error == ValueExceedsMaxSize(STR0255_MAX_SIZE, errorCode.bytes)
    {
      var errorCode :- Str0255TryFrom(this.errorCode.bytes);
      Ok(SetupConnectionError(flags, errorCode))
    }

    /** `Drop for CSetupConnectionError`: frees the one buffer. */
    method Drop(heap: Allocator)
      requires heap.Valid() && errorCode.id in heap.live
      modifies heap
      ensures heap.Valid()
      ensures heap.live == old(heap.live) - {errorCode.id}
      ensures heap.released == old(heap.released) + [errorCode.id]
      ensures heap.next == old(heap.next)
    {
      heap.FreeVec(errorCode);
    }
  }

  /** `free_setup_connection_error`: consumes the mirror by dropping it. */
  method FreeSetupConnectionError(s: CSetupConnectionError, heap: Allocator)
    requires heap.Valid() && s.errorCode.id in heap.live
    modifies heap
    ensures heap.Valid()
    ensures heap.live == old(heap.live) - {s.errorCode.id}
    ensures heap.released == old(heap.released) + [s.errorCode.id]
    ensures heap.next == old(heap.next)
  {
    s.Drop(heap);
  }

  /** Reading back the mirror of an error message gives the message itself. */
  lemma ErrorMirrorRoundTrip(v: SetupConnectionError, c: CSetupConnectionError, heap: Allocator)
    requires c.flags == v.flags && c.errorCode.bytes == v.errorCode
    requires c.errorCode.id in heap.live
    ensures c.ToRustRepMut(heap) == Ok(v)
  {
  }
}
