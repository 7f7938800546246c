/**
 * The parts of the `binary_sv2` codec that the setup handshake relies on,
 * reduced to their contracts: fixed-width integers, the codec's error
 * kinds, the bounded byte string `Str0255`, the decoded-field kinds, and the
 * foreign-safe byte buffer `CVec` together with the allocator that hands
 * such buffers out and takes them back (`free_vec`).
 */
module BinaryCodec {

  newtype uint8 = x: int | 0 <= x < 0x100
  newtype uint16 = x: int | 0 <= x < 0x1_0000

  datatype Option<+T> = None | Some(value: T)

  /** `Result` is failure-compatible, so `:-` models Rust's `?`. */
  datatype Result<+T, +E> = Ok(value: T) | Err(error: E) {
    predicate IsFailure() {
      Err?
    }

    function PropagateFailure<U>(): Result<U, E>
      requires Err?
    {
      Err(error)
    }

    function Extract(): T
      requires Ok?
    {
      value
    }
  }

  /** The error kinds of the codec that the handshake code can produce. */
  datatype Error =
    | NoDecodableFieldPassed
    | ValueIsNotAValidProtocol(val: uint8)
    | PrimitiveConversionError
    | ValueExceedsMaxSize(maxSize: nat, badValue: seq<uint8>)

  /** Largest number of bytes a `Str0255` may hold. */
  const STR0255_MAX_SIZE: nat := 255

  /** A byte string of at most 255 bytes. */
  type Str0255 = s: seq<uint8> | |s| <= STR0255_MAX_SIZE

  /** `Str0255::try_from` on a byte slice: accepts exactly the slices within the bound. */
  function Str0255TryFrom(bytes: seq<uint8>): (r: Result<Str0255, Error>)
    ensures r.Ok? <==> |bytes| <= STR0255_MAX_SIZE
    ensures r.Ok? ==> r.value == bytes
    ensures r.Err? ==> r.error == ValueExceedsMaxSize(STR0255_MAX_SIZE, bytes)
  {
    if |bytes| <= STR0255_MAX_SIZE then Ok(bytes)
    else Err(ValueExceedsMaxSize(STR0255_MAX_SIZE, bytes))
  }

  /** A primitive field as the codec emits it and as a decoder hands it to `from_decoded_fields`. */
  datatype PrimitiveField =
    | U8Field(u8: uint8)
    | U16Field(u16: uint16)
    | U32Field(u32: bv32)
    | BytesField(bytes: seq<uint8>)

  /** `u8::try_from` on a decoded field: only a one-byte field converts. */
  function U8TryFrom(field: PrimitiveField): (r: Result<uint8, Error>)
    ensures r.Ok? <==> field.U8Field?
    ensures r.Ok? ==> r.value == field.u8
    ensures r.Err? ==> r.error == PrimitiveConversionError
  {
    match field
    case U8Field(b) => Ok(b)
    case _ => Err(PrimitiveConversionError)
  }

  /**
   * A foreign-safe buffer handle: the identity of the allocation and the
   * bytes it carries. Whether the handle may still be used is decided by
   * the allocator that issued it.
   */
  datatype CVec = CVec(id: nat, bytes: seq<uint8>)

  /**
   * The foreign heap the buffers live in. `live` holds the identities of the
   * buffers handed out and not yet freed, `next` the next identity to hand
   * out, and `released` the history of `free_vec` calls in order.
   */
  class Allocator {
    var live: set<nat>
    var next: nat
    ghost var released: seq<nat>

    /** Identities are never reused, and no buffer has been freed twice. */
    ghost predicate Valid()
      reads this
    {
      && (forall id :: id in live ==> id < next)
      && (forall i :: 0 <= i < |released| ==> released[i] < next && released[i] !in live)
      && (forall i, j :: 0 <= i < j < |released| ==> released[i] != released[j])
    }

    constructor ()
      ensures Valid()
      ensures live == {} && released == []
    {
      live, next := {}, 0;
      released := [];
    }

    /** Copies `bytes` into a newly allocated buffer (`Str0255` into `CVec`). */
    method Alloc(bytes: seq<uint8>) returns (v: CVec)
      requires Valid()
      modifies this
      ensures Valid()
      ensures v.bytes == bytes
      ensures v.id !in old(live) && v.id !in old(released)
      ensures live == old(live) + {v.id}
      ensures released == old(released)
    {
      v := CVec(next, bytes);
      live := live + {next};
      next := next + 1;
    }

    /** `free_vec`: gives a live buffer back; a buffer can be given back only while live. */
    method FreeVec(v: CVec)
      requires Valid()
      requires v.id in live
      modifies this
      ensures Valid()
      ensures live == old(live) - {v.id}
      ensures released == old(released) + [v.id]
      ensures next == old(next)
    {
      live := live - {v.id};
      released := released + [v.id];
    }
  }
}
