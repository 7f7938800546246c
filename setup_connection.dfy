/**
 * The three handshake messages. `SetupConnection` is a class because its
 * two flag setters change `flags` in place; `SetupConnectionSuccess` and
 * `SetupConnectionError` are plain values.
 */
module SetupConnectionMessages {
  import opened BinaryCodec
  import opened Flags
  import opened Protocols

  /** `v` lies in the inclusive version range `[lo, hi]`. */
  predicate InRange(v: uint16, lo: uint16, hi: uint16) {
    lo <= v <= hi
  }

  function Min(a: uint16, b: uint16): (m: uint16) {
    if a <= b then a else b
  }

  /** SetupConnection (client to server): the first message on a new connection. */
  class SetupConnection {
    var protocol: Protocol
    var minVersion: uint16
    var maxVersion: uint16
    var flags: bv32
    var endpointHost: Str0255
    var endpointPort: uint16
    var vendor: Str0255
    var hardwareVersion: Str0255
    var firmware: Str0255
    var deviceId: Str0255

    constructor (protocol: Protocol, minVersion: uint16, maxVersion: uint16, flags: bv32,
                 endpointHost: Str0255, endpointPort: uint16, vendor: Str0255,
                 hardwareVersion: Str0255, firmware: Str0255, deviceId: Str0255)
      ensures this.protocol == protocol
      ensures this.minVersion == minVersion && this.maxVersion == maxVersion
      ensures this.flags == flags
      ensures this.endpointHost == endpointHost && this.endpointPort == endpointPort
      ensures this.vendor == vendor && this.hardwareVersion == hardwareVersion
      ensures this.firmware == firmware && this.deviceId == deviceId
    {
      this.protocol := protocol;
      this.minVersion := minVersion;
      this.maxVersion := maxVersion;
      this.flags := flags;
      this.endpointHost := endpointHost;
      this.endpointPort := endpointPort;
      this.vendor := vendor;
      this.hardwareVersion := hardwareVersion;
      this.firmware := firmware;
      this.deviceId := deviceId;
    }

    /** The derived `PartialEq`: field-by-field equality. */
    predicate Equals(other: SetupConnection)
      reads this, other
      ensures this == other ==> Equals(other)
    {
      && protocol == other.protocol
      && minVersion == other.minVersion
      && maxVersion == other.maxVersion
      && flags == other.flags
      && endpointHost == other.endpointHost
      && endpointPort == other.endpointPort
      && vendor == other.vendor
      && hardwareVersion == other.hardwareVersion
      && firmware == other.firmware
      && deviceId == other.deviceId
    }

    /** `set_requires_standard_job`: `flags |= 1`; only `flags` may change. */
    method SetRequiresStandardJob()
      modifies this`flags
      ensures flags == WithRequiresStdJob(old(flags))
    {
      flags := flags | 0x1;
    }

    /** `set_async_job_nogotiation`: sets the very same bit as `SetRequiresStandardJob`. */
    method SetAsyncJobNogotiation()
      modifies this`flags
      ensures flags == WithRequiresStdJob(old(flags))
    {
      flags := flags | 0x1;
    }

    /**
     * `check_flags`, defined for the mining protocol only (any other protocol
     * reaches `todo!()`). Both words are bit-reversed; a right shift by 30
     * looks at bits 0-1 of the original word and a shift by 29 at bits 0-2.
     */
    static function CheckFlags(protocol: Protocol, availableFlags: bv32, requiredFlags: bv32): (r: bool)
      requires protocol == MiningProtocol
      ensures r <==> ((availableFlags & 0x3 == 0 || requiredFlags & 0x3 != 0)
                      && (availableFlags & 0x7 == 0 || requiredFlags & 0x7 != 0))
    {
      var available := ReverseBits(availableFlags);
      var required := ReverseBits(requiredFlags);
      var requiresWorkSelectionPassed := (required >> 30) > 0;
      var requiresVersionRollingPassed := (required >> 29) > 0;
      var requiresWorkSelectionSelf := (available >> 30) > 0;
      var requiresVersionRollingSelf := (available >> 29) > 0;
      var workSelection := !requiresWorkSelectionSelf || requiresWorkSelectionPassed;
      var versionRolling := !requiresVersionRollingSelf || requiresVersionRollingPassed;
      workSelection && versionRolling
    }

    /**
     * `get_version`: `None` when one range starts above the end of the other,
     * otherwise the smaller of the two upper bounds.
     */
    function GetVersion(peerMin: uint16, peerMax: uint16): (r: Option<uint16>)
      reads this
      ensures r.None? <==> minVersion > peerMax || peerMin > maxVersion
      ensures r.None? ==> forall v: uint16 :: !(InRange(v, minVersion, maxVersion) && InRange(v, peerMin, peerMax))
      ensures r.Some? ==> r.value <= maxVersion && r.value <= peerMax
      ensures r.Some? ==> r.value == maxVersion || r.value == peerMax
      ensures r.Some? && minVersion <= maxVersion && peerMin <= peerMax ==>
                InRange(r.value, minVersion, maxVersion) && InRange(r.value, peerMin, peerMax)
    {
      if minVersion > peerMax || peerMin > maxVersion then None
      else Some(Min(maxVersion, peerMax))
    }

    /** `requires_standard_job`: bit 0 of `flags`. */
    function RequiresStandardJob(): (r: bool)
      reads this
      ensures r <==> flags & 0x1 != 0
    {
      HasRequiresStdJob(flags)
    }
  }

  /**
   * With well-formed ranges, `get_version` fails exactly when no version lies
   * in both, and otherwise picks the highest version that does.
   */
  lemma {:induction false} GetVersionIsHighestCommon(s: SetupConnection, peerMin: uint16, peerMax: uint16)
    requires s.minVersion <= s.maxVersion && peerMin <= peerMax
    ensures s.GetVersion(peerMin, peerMax).None? <==>
              !exists v: uint16 :: InRange(v, s.minVersion, s.maxVersion) && InRange(v, peerMin, peerMax)
    ensures s.GetVersion(peerMin, peerMax).Some? ==>
              forall v: uint16 :: InRange(v, s.minVersion, s.maxVersion) && InRange(v, peerMin, peerMax) ==>
                v <= s.GetVersion(peerMin, peerMax).value
  {
    var r := s.GetVersion(peerMin, peerMax);
    if r.Some? {
      assert InRange(r.value, s.minVersion, s.maxVersion) && InRange(r.value, peerMin, peerMax);
    }
  }

  /**
   * The versions `get_version` can settle on, over all peers, are exactly
   * the versions the connection supports.
   */
  lemma {:induction false} NegotiableVersionsAreSupported(s: SetupConnection, v: uint16)
    requires s.minVersion <= s.maxVersion
    ensures (exists peerMin: uint16, peerMax: uint16 :: s.GetVersion(peerMin, peerMax) == Some(v))
            <==> InRange(v, s.minVersion, s.maxVersion)
  {
    if InRange(v, s.minVersion, s.maxVersion) {
      assert s.GetVersion(v, v) == Some(v);
    }
  }

  /**
   * The source's test connection (versions [1, 4], no flags): peers (1, 5)
   * and (6, 6), and no standard job required before the flag is set.
   */
  lemma TestConnectionExamples(s: SetupConnection)
    requires s.minVersion == 1 && s.maxVersion == 4 && s.flags == 0
    ensures !s.RequiresStandardJob()
    ensures s.GetVersion(1, 5) == Some(4)
    ensures s.GetVersion(6, 6) == None
    ensures s.GetVersion(4, 4) == Some(4)
  {
  }

  /** An endpoint that requires nothing accepts any peer, as in the source's test (0, 1). */
  lemma CheckFlagsNothingAvailable(requiredFlags: bv32)
    ensures SetupConnection.CheckFlags(MiningProtocol, 0, requiredFlags)
  {
  }

  /**
   * What `check_flags` compares, in terms of the accessors: the first test
   * covers the standard-job and version-rolling bits together, the second
   * adds the work-selection bit.
   */
  lemma CheckFlagsByAccessors(availableFlags: bv32, requiredFlags: bv32)
    ensures SetupConnection.CheckFlags(MiningProtocol, availableFlags, requiredFlags) <==>
              && ((HasRequiresStdJob(availableFlags) || HasVersionRolling(availableFlags)) ==>
                    (HasRequiresStdJob(requiredFlags) || HasVersionRolling(requiredFlags)))
              && ((HasRequiresStdJob(availableFlags) || HasVersionRolling(availableFlags) || HasWorkSelection(availableFlags)) ==>
                    (HasRequiresStdJob(requiredFlags) || HasVersionRolling(requiredFlags) || HasWorkSelection(requiredFlags)))
  {
  }

  /**
   * An endpoint accepts every peer's required flags exactly when none of
   * bits 0-2 of its own available flags is set.
   */
  lemma {:induction false} CheckFlagsAcceptsEveryPeer(availableFlags: bv32)
    ensures (forall requiredFlags: bv32 :: SetupConnection.CheckFlags(MiningProtocol, availableFlags, requiredFlags))
            <==> availableFlags & 0x7 == 0
  {
    if availableFlags & 0x7 != 0 {
      assert !SetupConnection.CheckFlags(MiningProtocol, availableFlags, 0);
    }
  }

  /** SetupConnection.Success (server to client). */
  datatype SetupConnectionSuccess = SetupConnectionSuccess(usedVersion: uint16, flags: bv32)

  /** SetupConnection.Error (server to client). */
  datatype SetupConnectionError = SetupConnectionError(flags: bv32, errorCode: Str0255)
}
