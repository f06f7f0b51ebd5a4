/** Shared vocabulary.

  Text and byte strings share one representation, `string`, with one element
  per byte.  SHA-256, HMAC and serde appear as function values that the
  members below receive as parameters, so every result holds for every choice
  of them; a result that needs "no collision" returns the colliding pair
  instead of assuming that there is none.
 */
module Common {
  datatype Option<+T> = None | Some(value: T)

  datatype Result<+T, +E> = Ok(value: T) | Err(error: E) {
    predicate IsFailure() {
      Err?
    }

    function PropagateFailure<U>(): Result<U, E>
      requires Err?
    {
      Err(error)
    }

    function Extract(): T
      requires Ok?
    {
      value
    }
  }

  function Require<E>(condition: bool, error: E): Result<(), E> {
    if condition then Ok(()) else Err(error)
  }

  /** A pair of different inputs with the same digest. */
  ghost predicate Collides(sha: string -> string, pair: (string, string)) {
    pair.0 != pair.1 && sha(pair.0) == sha(pair.1)
  }

  predicate IsAsciiHexDigit(c: char) {
    '0' <= c <= '9' || 'a' <= c <= 'f' || 'A' <= c <= 'F'
  }

  const SHA256_PREFIX: string := "sha256:"

  /** `sha256:` followed by 64 hexadecimal digits. */
  predicate IsSha256Digest(value: string) {
    && |value| == 71
    && value[..7] == SHA256_PREFIX
    && forall i | 7 <= i < 71 :: IsAsciiHexDigit(value[i])
  }

  /** The one fact about SHA-256's text form that framing relies on: every
      digest is `sha256:` and 64 hexadecimal digits. */
  ghost predicate DigestShaped(sha: string -> string) {
    forall x :: IsSha256Digest(sha(x))
  }
}
