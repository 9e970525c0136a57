/**
 * MorphStore's processing styles: the instruction sets an operator can be
 * run with, and the per-style vector parameters the format catalogue reads.
 */
module ProcessingStyles {
  /**
   * The five styles the tools know: scalar<v64<uint64_t>>,
   * sse<v128<uint64_t>>, neon<v128<uint64_t>>, avx2<v256<uint64_t>> and
   * avx512<v512<uint64_t>>.
   */
  datatype ProcessingStyle = Scalar | Vec128 | Vec128Neon | Vec256 | Vec512

  /** The vector parameters of one processing style. */
  datatype PsInfo = PsInfo(vectorElementCount: nat, vectorSizeBit: nat, vectorSizeByte: nat)

  /**
   * The table of vector parameters per processing style. Its entries are not
   * part of this model, so every operation that reads it takes it as an
   * argument.
   */
  type PsInfos = ProcessingStyle -> PsInfo

  /** The styles in the order the short-name table is filled. */
  const ALL_STYLES: seq<ProcessingStyle> := [Scalar, Vec128, Vec128Neon, Vec256, Vec512]
}
