/**
 * The digest codec. The hash functions (SHA-256 and friends), their text
 * encodings and the parser of integrity strings are not part of this
 * model; they are carried as functions the download engine is given.
 */
module Digest {
  import opened Wrappers

  newtype byte = b: int | 0 <= b < 256

  /**
   * - `algoOf`: the algorithm an integrity string "<algo>-<digest>" names, or
   *   None when the string is malformed or the algorithm unsupported
   *   (`getAlgoFromIntegrity`).
   * - `integrityOf`: the integrity string of some bytes under an algorithm, or
   *   None when it cannot be computed (`getIntegrityFromFile`).
   * - `urlHash`: the hex-encoded SHA-256 of a URL, used for staging names.
   */
  datatype Codec = Codec(
    algoOf: string -> Option<string>,
    integrityOf: (string, seq<byte>) -> Option<string>,
    urlHash: string -> string)

  /** `data` hashes, under `algo`, to exactly the string `integrity`. */
  predicate Matches(codec: Codec, algo: string, data: seq<byte>, integrity: string)
  {
    codec.integrityOf(algo, data) == Some(integrity)
  }

  /** Every integrity string the codec computes names the algorithm that computed it. */
  ghost predicate NamesItsAlgorithm(codec: Codec)
  {
    forall algo, data :: codec.integrityOf(algo, data).Some? ==>
      codec.algoOf(codec.integrityOf(algo, data).value) == Some(algo)
  }
}
