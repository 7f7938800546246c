# Stratum V2 SetupConnection handshake — Dafny model

This project models the common-messages handshake of Stratum V2. A client opens a
connection with `SetupConnection`. The server answers with `SetupConnection.Success`
or `SetupConnection.Error`. Along the way the handshake involves:

- the one-byte `Protocol` identity that names the sub-protocol;
- the 32-bit feature `flags` word and its accessors and setters;
- feature-flag compatibility (`check_flags`);
- version negotiation (`get_version`);
- the foreign-boundary mirrors `CSetupConnection` and `CSetupConnectionError`. They hold
  their strings in `CVec` buffers that are allocated on conversion and released by
  `free_vec` on drop.

Files and modules:

| file | module | contents |
|---|---|---|
| `binary_codec.dfy` | `BinaryCodec` | what the handshake needs from the `binary_sv2` codec: integer widths, `Option`/`Result` (with `:-` playing Rust's `?`), the error kinds, `Str0255` (bytes of length at most 255) and its checked conversion from raw bytes, decoded primitive fields, and `CVec` handles issued and freed by the `Allocator` class |
| `flags.dfy` | `Flags` | `u32::reverse_bits` with its bit-level specification, and the three accessors `has_requires_std_job`, `has_version_rolling`, `has_work_selection` |
| `protocol.dfy` | `Protocols` | `Protocol`, its discriminants, encoding, `TryFrom<u8>`, `from_decoded_fields`, `get_size` |
| `setup_connection.dfy` | `SetupConnectionMessages` | the `SetupConnection` class and its operations; `SetupConnectionSuccess` and `SetupConnectionError` as values |
| `c_bridge.dfy` | `CBridge` | `CSetupConnection` and `CSetupConnectionError` with `From`, `to_rust_rep_mut`, `Drop`, `free_setup_connection`, `free_setup_connection_error` |

`SetupConnection` is a class because its two flag setters update `flags` in place. The
other messages are values. The buffer heap is an `Allocator` object with these fields:

- `live`: the set of allocated buffer identities;
- `next`: a counter for fresh identities;
- `released`: a ghost log of every `free_vec` call in order.

`Allocator.Valid()` states that identities are never reused and no buffer is released
twice. Every method that converts or drops a mirror keeps that invariant. Each such
method also states exactly which identities it adds to `live`, removes from `live`, or
appends to `released`.

Two things in the source are modelled exactly as written:

- **The accessors and `check_flags` read the flag bits differently.** The accessors read
  one bit each: bit 0, bit 1 and bit 2. The two tests in `check_flags` shift the
  reversed word right by 30 and by 29, then compare with zero. So they look at bits 0–1
  and at bits 0–2 of the original word, not at single bits. `CheckFlagsByAccessors`
  restates that result with the three accessors.
- **`set_async_job_nogotiation` is identical to `set_requires_standard_job`.** Both set
  bit 0.

## Model

| member | source | states |
|---|---|---|
| BinaryCodec.Str0255TryFrom | protocols/v2/subprotocols/common-messages/src/setup_connection.rs:145-149 | converting a byte slice into `Str0255` succeeds exactly when it holds at most 255 bytes, keeps the bytes unchanged, and otherwise reports the maximum size and the offending bytes |
| BinaryCodec.U8TryFrom | protocols/v2/subprotocols/common-messages/src/setup_connection.rs:320 | a decoded field converts to a byte exactly when it is a one-byte field, giving that byte; any other field gives `PrimitiveConversionError` |
| BinaryCodec.Allocator.Alloc | protocols/v2/subprotocols/common-messages/src/setup_connection.rs:191-196 | moving a string into a `CVec` yields a buffer with the same bytes and an identity never used before; only that identity joins the live set; the allocator invariant is kept |
| BinaryCodec.Allocator.FreeVec | protocols/v2/subprotocols/common-messages/src/setup_connection.rs:175-179 | `free_vec` needs a live buffer, removes exactly it from the live set, and logs its release; the invariant (no double release) is kept |
| Flags.ReverseBits | protocols/v2/subprotocols/common-messages/src/setup_connection.rs:106-107 | bit `i` of the reversed word is bit `31 - i` of the input, for every `i` |
| Flags.ReverseBitsInvolutive | protocols/v2/subprotocols/common-messages/src/setup_connection.rs:106-122 | reversing twice gives back the original word |
| Flags.HasRequiresStdJob | protocols/v2/subprotocols/common-messages/src/setup_connection.rs:106-110 | reversing and shifting by 31 is true exactly when bit 0 is set |
| Flags.HasVersionRolling | protocols/v2/subprotocols/common-messages/src/setup_connection.rs:111-116 | reversing, shifting left by 1 then right by 31 is true exactly when bit 1 is set |
| Flags.HasWorkSelection | protocols/v2/subprotocols/common-messages/src/setup_connection.rs:117-122 | reversing, shifting left by 2 then right by 31 is true exactly when bit 2 is set |
| Flags.WithRequiresStdJob | protocols/v2/subprotocols/common-messages/src/setup_connection.rs:56-58 | ORing in `1` sets the standard-job bit read by `has_requires_std_job` and leaves every other bit as it was |
| Flags.WithRequiresStdJobIdempotent | protocols/v2/subprotocols/common-messages/src/setup_connection.rs:56-62 | setting the bit is idempotent, and a word that already has it is unchanged |
| Flags.AccessorExamples | protocols/v2/subprotocols/common-messages/src/setup_connection.rs:403-425 | the unit-test cases: `0x1` has the standard-job bit and `0x2` does not; `0x2` has version rolling and `0x1` does not; `0x4` has work selection and `0x1` does not |
| Protocols.Discriminant | protocols/v2/subprotocols/common-messages/src/setup_connection.rs:293-298 | each variant has its own discriminant constant, and each constant belongs to exactly one variant |
| Protocols.Encode | protocols/v2/subprotocols/common-messages/src/setup_connection.rs:300-306 | a protocol is encoded as a single one-byte field whose byte decodes back to that protocol |
| Protocols.IntoU8 | protocols/v2/subprotocols/common-messages/src/setup_connection.rs:346-356 | the explicit `From<Protocol> for u8` agrees with the enum's discriminant |
| Protocols.TryFromU8 | protocols/v2/subprotocols/common-messages/src/setup_connection.rs:326-338 | a successful decode returns a variant whose discriminant is the byte; a failed decode means no variant has that discriminant |
| Protocols.FromDecodedFields | protocols/v2/subprotocols/common-messages/src/setup_connection.rs:316-323 | looks at the last field only: an empty list gives `NoDecodableFieldPassed`; a non-byte field gives a conversion error; a byte that is not a discriminant gives `ValueIsNotAValidProtocol` with that byte; on success the last field is the protocol's encoding |
| Protocols.GetSize | protocols/v2/subprotocols/common-messages/src/setup_connection.rs:340-344 | a protocol always takes one byte |
| Protocols.TryFromDiscriminant | protocols/v2/subprotocols/common-messages/src/setup_connection.rs:326-356 | decoding the discriminant (or the `u8` conversion) of any protocol gives that protocol back |
| Protocols.TryFromAcceptsExactlyDiscriminants | protocols/v2/subprotocols/common-messages/src/setup_connection.rs:326-338 | a byte decodes if and only if some protocol has it as its discriminant |
| Protocols.FromDecodedFieldsOfEncode | protocols/v2/subprotocols/common-messages/src/setup_connection.rs:300-323 | decoding a field list that ends with a protocol's encoding gives that protocol, whatever precedes it |
| SetupConnectionMessages.SetupConnection.constructor | protocols/v2/subprotocols/common-messages/src/setup_connection.rs:28-53 | a message holds exactly the given protocol, versions, flags, endpoint and device strings |
| SetupConnectionMessages.SetupConnection.Equals | protocols/v2/subprotocols/common-messages/src/setup_connection.rs:28 | the derived `PartialEq`: compares all ten fields, so every message equals itself |
| SetupConnectionMessages.SetupConnection.SetRequiresStandardJob | protocols/v2/subprotocols/common-messages/src/setup_connection.rs:56-58 | the new `flags` is the old word with the standard-job bit ORed in (`WithRequiresStdJob`), so a standard job is then required and no other bit changes; no field other than `flags` may change |
| SetupConnectionMessages.SetupConnection.SetAsyncJobNogotiation | protocols/v2/subprotocols/common-messages/src/setup_connection.rs:60-62 | exactly the same new state as `SetRequiresStandardJob`: bit 0 set, nothing else changed |
| SetupConnectionMessages.SetupConnection.CheckFlags | protocols/v2/subprotocols/common-messages/src/setup_connection.rs:65-90 | for the mining protocol only: true exactly when (available bits 0–1 are clear or some required bit 0–1 is set) and (available bits 0–2 are clear or some required bit 0–2 is set) |
| SetupConnectionMessages.SetupConnection.GetVersion | protocols/v2/subprotocols/common-messages/src/setup_connection.rs:92-99 | `None` exactly when one range starts above the other's end, and then no version is in both; otherwise the smaller maximum, which lies in both ranges when they are well-formed |
| SetupConnectionMessages.SetupConnection.RequiresStandardJob | protocols/v2/subprotocols/common-messages/src/setup_connection.rs:101-103 | true exactly when bit 0 of the message's flags is set |
| SetupConnectionMessages.GetVersionIsHighestCommon | protocols/v2/subprotocols/common-messages/src/setup_connection.rs:92-99 | for well-formed ranges: `None` if and only if the ranges share no version; otherwise the result is the highest shared version |
| SetupConnectionMessages.NegotiableVersionsAreSupported | protocols/v2/subprotocols/common-messages/src/setup_connection.rs:92-99 | for a well-formed own range, a version can result from `get_version` for some peer range if and only if the connection itself supports it |
| SetupConnectionMessages.TestConnectionExamples | protocols/v2/subprotocols/common-messages/src/setup_connection.rs:427-456 | the test connection with versions [1, 4] and no flags requires no standard job; against peer (1, 5) gives 4, against (6, 6) gives `None`, against (4, 4) gives 4 |
| SetupConnectionMessages.CheckFlagsNothingAvailable | protocols/v2/subprotocols/common-messages/src/setup_connection.rs:391-401 | with no available flags, any required flags are accepted (the test case uses required flags 1) |
| SetupConnectionMessages.CheckFlagsByAccessors | protocols/v2/subprotocols/common-messages/src/setup_connection.rs:65-122 | `check_flags` restated with the three accessors: the first test covers standard-job plus version-rolling, the second adds work-selection |
| SetupConnectionMessages.CheckFlagsAcceptsEveryPeer | protocols/v2/subprotocols/common-messages/src/setup_connection.rs:65-90 | `check_flags` accepts every required-flags word if and only if bits 0–2 of the available flags are all clear |
| CBridge.CSetupConnection.FromSetupConnection | protocols/v2/subprotocols/common-messages/src/setup_connection.rs:183-199 | the mirror carries the message's scalar fields and string bytes; its five buffers are distinct, fresh and live; exactly they join the live set; nothing is released |
| CBridge.CSetupConnection.ToRustRepMut | protocols/v2/subprotocols/common-messages/src/setup_connection.rs:140-164 | succeeds if and only if all five buffers fit `Str0255`, and then yields a new message with the mirror's contents; otherwise reports the first oversized buffer in field order (host, vendor, hardware version, firmware, device id); the heap is not touched |
| CBridge.CSetupConnection.Drop | protocols/v2/subprotocols/common-messages/src/setup_connection.rs:172-181 | frees the five owned buffers in field order: exactly they leave the live set and are logged once each |
| CBridge.FreeSetupConnection | protocols/v2/subprotocols/common-messages/src/setup_connection.rs:166-170 | consuming the mirror has the effect of dropping it |
| CBridge.ReleasedIsNotOwned | protocols/v2/subprotocols/common-messages/src/setup_connection.rs:172-181 | a mirror with any buffer already released does not own its buffers, so it cannot be freed again |
| CBridge.RoundTrip | protocols/v2/subprotocols/common-messages/src/setup_connection.rs:144-199 | `From`, then `to_rust_rep_mut`, then `free_setup_connection` gives a message equal to the original; the live set ends as it started; five new identities are released exactly once |
| CBridge.CSetupConnectionError.FromSetupConnectionError | protocols/v2/subprotocols/common-messages/src/setup_connection.rs:275-283 | the mirror keeps the flags and the error-code bytes in one fresh live buffer, which is the only one added |
| CBridge.CSetupConnectionError.ToRustRepMut | protocols/v2/subprotocols/common-messages/src/setup_connection.rs:248-260 | succeeds if and only if the error code fits `Str0255`, keeping flags and bytes; otherwise reports the oversized error code |
| CBridge.CSetupConnectionError.Drop | protocols/v2/subprotocols/common-messages/src/setup_connection.rs:268-273 | frees the one buffer: it leaves the live set and is logged once |
| CBridge.FreeSetupConnectionError | protocols/v2/subprotocols/common-messages/src/setup_connection.rs:262-266 | consuming the error mirror has the effect of dropping it |
| CBridge.ErrorMirrorRoundTrip | protocols/v2/subprotocols/common-messages/src/setup_connection.rs:252-283 | reading back the mirror of an error message gives exactly that message |

## Left out

- The `binary_sv2` codec is not part of this model. This covers the `Serialize`/`Deserialize` derives, `EncodableField`, the wire layout from `get_structure` (lines 309-315), and the internals of `Str0255`, `CVec` and `free_vec`. Only the following contracts are kept:
  - the 255-byte bound;
  - allocation of a fresh buffer;
  - freeing a live buffer.
- The error-kind names for the foreign conversions are assumed. `PrimitiveConversionError` stands for the error of a failed field-to-`u8` conversion, and `ValueExceedsMaxSize` for an oversized `Str0255`. Their exact names live in `binary_sv2`.
- `const_sv2` is not part of this model. The four discriminants are taken as the distinct bytes 0, 1, 2 and 3. Every stated property only needs them to be distinct.
- The serde-feature `GetSize` sums for the three messages (lines 358-384) are left out. They add per-type sizes defined in the codec crate.
- The `extern "C"` / `#[no_mangle]` ABI and the `#[repr(C)]` layout are left out because they have no behaviour to check.
- The derived `Clone` on the mirrors (lines 126, 242) is left out. Whether a clone shares buffers depends on `CVec`'s `Clone`, which is not part of this model.
- Rust lifetimes and zero-copy borrowing are not modelled. The `SetupConnection` produced by `to_rust_rep_mut` carries copies of the buffer bytes, so aliasing between it and the mirror is not captured.
- `SetupConnection.CheckFlags`: the `todo!()` arm for protocols other than mining is a panic. It is a precondition here.
- `Str0255` contents are only length-bounded. The ASCII expectation for host names is not checked.
- `Debug` and `Eq` are not tracked as separate operations. `SetupConnection.Equals` models the derived `PartialEq` and is used to state the round trip.
