/**
 * Little-endian building blocks of the hand-rolled binary frames, read the
 * two ways the code base reads them:
 *  - the browser's `DataView`/`Uint8Array`, which throw a RangeError on any
 *    read past the end of the buffer (`Read*` below, returning a Result);
 *  - Go's `bytes.Reader` with `binary.Read`, which never throws: a short
 *    read reports an error, consumes what was there and leaves the target
 *    zero (`GoRead*` below).
 * Readers take the unread suffix of the buffer and return what follows.
 */
module Wire {
  import opened Common

  /** The exception a DataView or typed-array constructor throws past the end of the buffer. */
  const RangeError: string := "RangeError"

  datatype Parsed<T> = Parsed(value: T, rest: Bytes)

  /** A uint16 from its low and high byte. */
  function LE16(lo: byte, hi: byte): (v: int)
    ensures 0 <= v < 65536
  {
    lo + 256 * hi
  }

  /** The two little-endian bytes of a uint16. */
  function U16Bytes(v: int): (r: Bytes)
    requires 0 <= v < 65536
    ensures |r| == 2 && LE16(r[0], r[1]) == v
  {
    [v % 256, v / 256]
  }

  /** Go's `uint16(v)` for an `int`: keeps the low 16 bits (two's complement). */
  function WrapU16(v: int): (r: int)
    ensures 0 <= r < 65536
    ensures 0 <= v < 65536 ==> r == v
  {
    v % 65536
  }

  /** Go's `byte(v)` for an `int`. */
  function WrapU8(v: int): (r: byte)
    ensures 0 <= v < 256 ==> r == v
  {
    v % 256
  }

  /** `(b & mask) != 0` for a single-bit mask. */
  predicate HasBit(b: byte, mask: int)
    requires mask in {1, 2, 4, 8, 16, 32, 64, 128}
  {
    (b / mask) % 2 == 1
  }

  /** A flag byte whose bits 0..3 are set exactly as given. */
  function FlagByte(bit0: bool, bit1: bool, bit2: bool, bit3: bool): (f: byte)
    ensures HasBit(f, 1) == bit0 && HasBit(f, 2) == bit1 && HasBit(f, 4) == bit2 && HasBit(f, 8) == bit3
    ensures f < 16
  {
    (if bit0 then 1 else 0) + (if bit1 then 2 else 0) + (if bit2 then 4 else 0) + (if bit3 then 8 else 0)
  }

  function Zeros(n: nat): (r: Bytes)
    ensures |r| == n && forall i :: 0 <= i < n ==> r[i] == 0
  {
    seq(n, _ => 0)
  }

  // ------------------------------------------------------------ DataView

  function ReadU8(s: Bytes): (r: Result<Parsed<byte>>)
    ensures r.Success? <==> |s| >= 1
    ensures r.Success? ==> r.value == Parsed(s[0], s[1..])
  {
    if |s| >= 1 then Success(Parsed(s[0], s[1..])) else Failure(RangeError)
  }

  /** `getUint16(offset, true)`. */
  function ReadU16(s: Bytes): (r: Result<Parsed<int>>)
    ensures r.Success? <==> |s| >= 2
    ensures r.Success? ==> r.value == Parsed(LE16(s[0], s[1]), s[2..]) && 0 <= r.value.value < 65536
  {
    if |s| >= 2 then Success(Parsed(LE16(s[0], s[1]), s[2..])) else Failure(RangeError)
  }

  /** `new Uint8Array(data, offset, n)` followed by `offset += n`. */
  function ReadBytes(s: Bytes, n: nat): (r: Result<Parsed<Bytes>>)
    ensures r.Success? <==> n <= |s|
    ensures r.Success? ==> r.value == Parsed(s[..n], s[n..])
  {
    if n <= |s| then Success(Parsed(s[..n], s[n..])) else Failure(RangeError)
  }

  /**
   * A player-id slot: a length byte, then five bytes that are always
   * consumed, of which the first `min(length, 5)` form the id.
   */
  function ReadIdSlot(s: Bytes): (r: Result<Parsed<Bytes>>)
    ensures r.Success? <==> |s| >= 6
    ensures r.Success? ==> r.value == Parsed(s[1..6][..Min(s[0], PlayerIdBudget)], s[6..])
  {
    var len :- ReadU8(s);
    var slot :- ReadBytes(len.rest, PlayerIdBudget);
    assert slot.value == s[1..6] && slot.rest == s[6..];
    Success(Parsed(slot.value[..Min(len.value, PlayerIdBudget)], slot.rest))
  }

  /** A length byte followed by that many bytes (none are read for length 0). */
  function ReadShortString(s: Bytes): (r: Result<Parsed<Bytes>>)
    ensures r.Success? <==> |s| >= 1 && 1 + s[0] <= |s|
    ensures r.Success? ==> r.value == Parsed(s[1..1 + s[0]], s[1 + s[0]..])
  {
    var len :- ReadU8(s);
    assert len.value <= |len.rest| ==> len.rest[..len.value] == s[1..1 + s[0]] && len.rest[len.value..] == s[1 + s[0]..];
    if len.value > 0 then ReadBytes(len.rest, len.value)
    else Success(Parsed([], len.rest))
  }

  /** A short string read at offset `k` of a buffer, in terms of the whole buffer. */
  lemma ReadShortStringAt(s: Bytes, k: nat)
    requires k < |s|
    ensures ReadShortString(s[k..]) == if k + 1 + s[k] <= |s| then Success(Parsed(s[k + 1..k + 1 + s[k]], s[k + 1 + s[k]..]))
                                       else Failure(RangeError)
  {
    if k + 1 + s[k] <= |s| {
      assert s[k..][1..1 + s[k]] == s[k + 1..k + 1 + s[k]];
      assert s[k..][1 + s[k]..] == s[k + 1 + s[k]..];
    }
  }

  // ------------------------------------------------------------ DataView, at an offset

  /** A read position inside the buffer together with the value read. */
  datatype At<T> = At(value: T, offset: nat)

  /** The suffix readers, replayed at an absolute offset. */
  predicate Tracks<T(==)>(data: Bytes, r: Result<At<T>>, spec: Result<Parsed<T>>) {
    (r.Success? <==> spec.Success?)
    && (r.Failure? ==> r.error == spec.error)
    && (r.Success? ==> r.value.offset <= |data| && r.value.value == spec.value.value
                       && data[r.value.offset..] == spec.value.rest)
  }

  method GetUint8(data: Bytes, offset: nat) returns (r: Result<At<byte>>)
    requires offset <= |data|
    ensures Tracks(data, r, ReadU8(data[offset..]))
  {
    if offset >= |data| {
      return Failure(RangeError);
    }
    assert data[offset..][1..] == data[offset + 1..];
    return Success(At(data[offset], offset + 1));
  }

  method GetUint16(data: Bytes, offset: nat) returns (r: Result<At<int>>)
    requires offset <= |data|
    ensures Tracks(data, r, ReadU16(data[offset..]))
  {
    if offset + 2 > |data| {
      return Failure(RangeError);
    }
    assert data[offset..][2..] == data[offset + 2..];
    return Success(At(LE16(data[offset], data[offset + 1]), offset + 2));
  }

  method GetBytes(data: Bytes, offset: nat, n: nat) returns (r: Result<At<Bytes>>)
    requires offset <= |data|
    ensures Tracks(data, r, ReadBytes(data[offset..], n))
  {
    if offset + n > |data| {
      return Failure(RangeError);
    }
    assert data[offset..][..n] == data[offset..offset + n];
    assert data[offset..][n..] == data[offset + n..];
    return Success(At(data[offset..offset + n], offset + n));
  }

  /** `pidLen = getUint8(offset)`, the five-byte slot, then `slice(0, pidLen)`. */
  method GetIdSlot(data: Bytes, offset: nat) returns (r: Result<At<Bytes>>)
    requires offset <= |data|
    ensures Tracks(data, r, ReadIdSlot(data[offset..]))
  {
    var pidLen :- GetUint8(data, offset);
    var pidBytes :- GetBytes(data, pidLen.offset, PlayerIdBudget);
    var playerId := if pidLen.value > 0 then pidBytes.value[..Min(pidLen.value, PlayerIdBudget)] else [];
    assert data[offset..][1..6] == pidBytes.value;
    return Success(At(playerId, pidBytes.offset));
  }

  /** A length byte, then the bytes when the length is non-zero. */
  method GetShortString(data: Bytes, offset: nat) returns (r: Result<At<Bytes>>)
    requires offset <= |data|
    ensures Tracks(data, r, ReadShortString(data[offset..]))
  {
    var len :- GetUint8(data, offset);
    if len.value > 0 {
      var bytes :- GetBytes(data, len.offset, len.value);
      assert data[offset..][1..1 + len.value] == bytes.value;
      return Success(bytes);
    }
    return Success(At([], len.offset));
  }

  // ------------------------------------------------------------ encoders

  /** A player id in its slot: length byte, the id, zero padding to five bytes. */
  function IdSlot(id: Bytes): (r: Bytes)
    requires |id| <= PlayerIdBudget
    ensures |r| == 1 + PlayerIdBudget
  {
    [|id|] + id + Zeros(PlayerIdBudget - |id|)
  }

  function ShortString(b: Bytes): (r: Bytes)
    requires |b| < 256
    ensures |r| == 1 + |b|
  {
    [|b|] + b
  }

  /** Concatenation regrouped to the right, as the readers consume it. */
  lemma Regroup(a: Bytes, b: Bytes, c: Bytes)
    ensures a + b + c == a + (b + c)
  {
  }

  lemma ReadU8Encoded(b: byte, rest: Bytes)
    ensures ReadU8([b] + rest) == Success(Parsed(b, rest))
  {
    assert ([b] + rest)[1..] == rest;
  }

  lemma ReadU16Encoded(v: int, rest: Bytes)
    requires 0 <= v < 65536
    ensures ReadU16(U16Bytes(v) + rest) == Success(Parsed(v, rest))
  {
    assert (U16Bytes(v) + rest)[2..] == rest;
  }

  lemma ReadIdSlotEncoded(id: Bytes, rest: Bytes)
    requires |id| <= PlayerIdBudget
    ensures ReadIdSlot(IdSlot(id) + rest) == Success(Parsed(id, rest))
  {
    var s := IdSlot(id) + rest;
    assert s[0] == |id|;
    assert s[1..6][..|id|] == id;
    assert s[6..] == rest;
  }

  lemma ReadShortStringEncoded(b: Bytes, rest: Bytes)
    requires |b| < 256
    ensures ReadShortString(ShortString(b) + rest) == Success(Parsed(b, rest))
  {
    var s := ShortString(b) + rest;
    assert s[0] == |b|;
    assert s[1..1 + |b|] == b;
    assert s[1 + |b|..] == rest;
  }

  // ------------------------------------------------------------ bytes.Reader

  datatype GoRead<T> = GoRead(value: T, rest: Bytes, ok: bool)

  /** `ReadByte`: at the end it yields 0 with an error and consumes nothing. */
  function GoReadByte(s: Bytes): (r: GoRead<byte>)
    ensures r.ok <==> |s| >= 1
    ensures r.ok ==> r.value == s[0] && r.rest == s[1..]
    ensures !r.ok ==> r.value == 0 && r.rest == s
  {
    if |s| >= 1 then GoRead(s[0], s[1..], true) else GoRead(0, s, false)
  }

  /** `binary.Read` of a little-endian uint16: a short read consumes the stray byte and leaves 0. */
  function GoReadU16(s: Bytes): (r: GoRead<int>)
    ensures r.ok <==> |s| >= 2
    ensures r.ok ==> r.value == LE16(s[0], s[1]) && r.rest == s[2..]
    ensures !r.ok ==> r.value == 0 && r.rest == []
  {
    if |s| >= 2 then GoRead(LE16(s[0], s[1]), s[2..], true) else GoRead(0, [], false)
  }

  /**
   * `Read` into a fresh zeroed slice of `n > 0` bytes: copies what is there,
   * zero-fills the rest; reports EOF only when nothing at all was left.
   * `value` is the slice, and `ok` means "no error and all n bytes copied".
   */
  function GoReadFill(s: Bytes, n: nat): (r: GoRead<Bytes>)
    requires n > 0
    ensures |r.value| == n
    ensures r.ok <==> n <= |s|
    ensures r.ok ==> r.value == s[..n] && r.rest == s[n..]
    ensures !r.ok ==> r.rest == [] && r.value == s + Zeros(n - |s|)
  {
    if n <= |s| then GoRead(s[..n], s[n..], true)
    else GoRead(s + Zeros(n - |s|), [], false)
  }

  /** A `bytes.Reader` read replayed at an absolute offset. */
  datatype GoAt<T> = GoAt(value: T, offset: nat, ok: bool)

  predicate GoTracks<T(==)>(data: Bytes, r: GoAt<T>, spec: GoRead<T>) {
    r.offset <= |data| && r.value == spec.value && r.ok == spec.ok && data[r.offset..] == spec.rest
  }

  /** A read that cannot fail, replayed at an absolute offset. */
  predicate Reads<T(==)>(data: Bytes, r: At<T>, spec: Parsed<T>) {
    r.offset <= |data| && r.value == spec.value && data[r.offset..] == spec.rest
  }

  method ReaderReadByte(data: Bytes, offset: nat) returns (r: GoAt<byte>)
    requires offset <= |data|
    ensures GoTracks(data, r, GoReadByte(data[offset..]))
  {
    if offset >= |data| {
      return GoAt(0, offset, false);
    }
    assert data[offset..][1..] == data[offset + 1..];
    return GoAt(data[offset], offset + 1, true);
  }

  method ReaderReadU16(data: Bytes, offset: nat) returns (r: GoAt<int>)
    requires offset <= |data|
    ensures GoTracks(data, r, GoReadU16(data[offset..]))
  {
    if offset + 2 > |data| {
      return GoAt(0, |data|, false);
    }
    assert data[offset..][2..] == data[offset + 2..];
    return GoAt(LE16(data[offset], data[offset + 1]), offset + 2, true);
  }

  /** `buf.Read(make([]byte, n))` */
  method ReaderRead(data: Bytes, offset: nat, n: nat) returns (r: GoAt<Bytes>)
    requires offset <= |data| && n > 0
    ensures GoTracks(data, r, GoReadFill(data[offset..], n))
  {
    if offset + n > |data| {
      return GoAt(data[offset..] + Zeros(n - (|data| - offset)), |data|, false);
    }
    assert data[offset..][..n] == data[offset..offset + n];
    assert data[offset..][n..] == data[offset + n..];
    return GoAt(data[offset..offset + n], offset + n, true);
  }

  lemma GoReadU16AgreesWithDataView(s: Bytes)
    ensures ReadU16(s).Success? <==> GoReadU16(s).ok
    ensures ReadU16(s).Success? ==> ReadU16(s).value.value == GoReadU16(s).value
                                    && ReadU16(s).value.rest == GoReadU16(s).rest
  {
  }
}
