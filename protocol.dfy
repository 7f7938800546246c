/**
 * The protocol identity carried by `SetupConnection`: four variants, each
 * bound to one reserved byte, with the conversions to and from that byte.
 */
module Protocols {
  import opened BinaryCodec

  /** The reserved discriminant bytes of the four sub-protocols. */
  const SV2_MINING_PROTOCOL_DISCRIMINANT: uint8 := 0
  const SV2_JOB_NEG_PROTOCOL_DISCRIMINANT: uint8 := 1
  const SV2_TEMPLATE_DISTR_PROTOCOL_DISCRIMINANT: uint8 := 2
  const SV2_JOB_DISTR_PROTOCOL_DISCRIMINANT: uint8 := 3

  datatype Protocol =
    | MiningProtocol
    | JobDeclarationProtocol
    | TemplateDistributionProtocol
    | JobDistributionProtocol

  /** The `#[repr(u8)]` value of a variant, which is what `v as u8` yields. */
  function Discriminant(p: Protocol): (b: uint8)
    ensures b == SV2_MINING_PROTOCOL_DISCRIMINANT <==> p == MiningProtocol
    ensures b == SV2_JOB_NEG_PROTOCOL_DISCRIMINANT <==> p == JobDeclarationProtocol
    ensures b == SV2_TEMPLATE_DISTR_PROTOCOL_DISCRIMINANT <==> p == TemplateDistributionProtocol
    ensures b == SV2_JOB_DISTR_PROTOCOL_DISCRIMINANT <==> p == JobDistributionProtocol
  {
    match p
    case MiningProtocol => SV2_MINING_PROTOCOL_DISCRIMINANT
    case JobDeclarationProtocol => SV2_JOB_NEG_PROTOCOL_DISCRIMINANT
    case TemplateDistributionProtocol => SV2_TEMPLATE_DISTR_PROTOCOL_DISCRIMINANT
    case JobDistributionProtocol => SV2_JOB_DISTR_PROTOCOL_DISCRIMINANT
  }

  /** The one-field encoding of a protocol (`From<Protocol> for EncodableField`): a byte that decodes back to it. */
  function Encode(p: Protocol): (field: PrimitiveField)
    ensures field.U8Field? && TryFromU8(field.u8) == Ok(p)
  {
    var val := Discriminant(p);
    U8Field(val)
  }

  /** `From<Protocol> for u8`: agrees with the enum's discriminant. */
  function IntoU8(p: Protocol): (b: uint8)
    ensures b == Discriminant(p)
  {
    match p
    case MiningProtocol => SV2_MINING_PROTOCOL_DISCRIMINANT
    case JobDeclarationProtocol => SV2_JOB_NEG_PROTOCOL_DISCRIMINANT
    case TemplateDistributionProtocol => SV2_TEMPLATE_DISTR_PROTOCOL_DISCRIMINANT
    case JobDistributionProtocol => SV2_JOB_DISTR_PROTOCOL_DISCRIMINANT
  }

  /** `Protocol::try_from(u8)`: the variant whose discriminant is `value`, or `Err(())`. */
  function TryFromU8(value: uint8): (r: Result<Protocol, ()>)
    ensures r.Ok? ==> Discriminant(r.value) == value
    ensures r.Err? ==> forall p: Protocol :: Discriminant(p) != value
  {
    if value == SV2_MINING_PROTOCOL_DISCRIMINANT then Ok(MiningProtocol)
    else if value == SV2_JOB_NEG_PROTOCOL_DISCRIMINANT then Ok(JobDeclarationProtocol)
    else if value == SV2_TEMPLATE_DISTR_PROTOCOL_DISCRIMINANT then Ok(TemplateDistributionProtocol)
    else if value == SV2_JOB_DISTR_PROTOCOL_DISCRIMINANT then Ok(JobDistributionProtocol)
    else Err(())
  }

  /**
   * `from_decoded_fields`: takes the LAST field of the list, converts it to a
   * byte, and maps the byte to a protocol.
   */
  function FromDecodedFields(v: seq<PrimitiveField>): (r: Result<Protocol, Error>)
    ensures |v| == 0 ==> r == Err(NoDecodableFieldPassed)
    ensures |v| > 0 && !v[|v| - 1].U8Field? ==> r == Err(PrimitiveConversionError)
    ensures |v| > 0 && v[|v| - 1].U8Field? ==>
              match TryFromU8(v[|v| - 1].u8)
              case Ok(p) => r == Ok(p)
              case Err(_) => r == Err(ValueIsNotAValidProtocol(v[|v| - 1].u8))
    ensures r.Ok? ==> v[|v| - 1] == Encode(r.value)
  {
    if |v| == 0 then Err(NoDecodableFieldPassed)
    else
      var field := v[|v| - 1];
      var val :- U8TryFrom(field);
      match TryFromU8(val)
      case Ok(p) => Ok(p)
      case Err(_) => Err(ValueIsNotAValidProtocol(val))
  }

  /** `GetSize for Protocol`: a protocol always occupies one byte on the wire. */
  function GetSize(p: Protocol): (n: nat)
    ensures n == 1
  {
    1
  }

  /** Decoding a byte undoes encoding a protocol. */
  lemma TryFromDiscriminant(p: Protocol)
    ensures TryFromU8(Discriminant(p)) == Ok(p)
    ensures TryFromU8(IntoU8(p)) == Ok(p)
  {
  }

  /** A byte decodes exactly when it is one of the four discriminants. */
  lemma {:induction false} TryFromAcceptsExactlyDiscriminants(value: uint8)
    ensures TryFromU8(value).Ok? <==> exists p: Protocol :: Discriminant(p) == value
  {
    if TryFromU8(value).Ok? {
      var p := TryFromU8(value).value;
      assert Discriminant(p) == value;
    }
  }

  /** Decoding the one-field encoding of a protocol gives the protocol back. */
  lemma FromDecodedFieldsOfEncode(p: Protocol, prefix: seq<PrimitiveField>)
    ensures FromDecodedFields(prefix + [Encode(p)]) == Ok(p)
  {
  }
}
