/**
 * Shared vocabulary of the model: bytes, optional values, results,
 * and the 5-character player-id budget used on every wire path.
 */
module Common {

  /** An unsigned 8-bit value, as Go's `byte` and a JavaScript Uint8Array element. */
  type byte = b: int | 0 <= b < 256

  /** A Go string or a raw UTF-8 payload: a sequence of bytes. */
  type Bytes = seq<byte>

  /** A value that may be absent (`undefined`/`null` in the client, a nil pointer in the server). */
  datatype Option<T> = None | Some(value: T) {
    function GetOr(default: T): T {
      match this
      case Some(v) => v
      case None => default
    }
  }

  /** The outcome of an operation that can throw (TypeScript) or return an error (Go). */
  datatype Result<T> = Success(value: T) | Failure(error: string) {
    predicate IsFailure() { Failure? }
    function PropagateFailure<U>(): Result<U>
      requires Failure?
    {
      Failure(error)
    }
    function Extract(): T
      requires Success?
    {
      value
    }
  }

  /** A board coordinate (row, col). */
  datatype Pos = Pos(row: int, col: int)

  /** Maximum number of characters of a player identifier on the wire. */
  const PlayerIdBudget: nat := 5

  /**
   * The left-most five elements of an identifier: Go's `truncatePlayerID`
   * (`playerID[:5]` when longer than five bytes, otherwise unchanged).
   */
  function TruncatePlayerId<T>(id: seq<T>): (r: seq<T>)
    ensures |r| == if |id| <= PlayerIdBudget then |id| else PlayerIdBudget
    ensures r <= id
  {
    if |id| > PlayerIdBudget then id[..PlayerIdBudget] else id
  }

  /** Truncation keeps short identifiers, shortens long ones to their first five, and is idempotent. */
  lemma TruncatePlayerIdFacts<T>(id: seq<T>)
    ensures |id| <= PlayerIdBudget ==> TruncatePlayerId(id) == id
    ensures |id| > PlayerIdBudget ==> TruncatePlayerId(id) == id[..PlayerIdBudget]
    ensures TruncatePlayerId(TruncatePlayerId(id)) == TruncatePlayerId(id)
  {
  }

  /** Appending nothing leaves a sequence unchanged. */
  lemma AppendNothing<T>(s: seq<T>)
    ensures s + [] == s
  {
  }

  /** A non-empty sequence is its front followed by its last element. */
  lemma FrontAndLast<T>(s: seq<T>)
    requires s != []
    ensures s[..|s| - 1] + [s[|s| - 1]] == s
  {
  }

  function Min(a: int, b: int): int { if a <= b then a else b }
}
