/**
 * The binary field format of the plugin channel: the `java.io.DataOutput`
 * encodings the client writes (`writeUTF`, `writeInt`, `writeBoolean`) and the
 * `java.io.DataInput` decodings it reads with, as pure functions, together with
 * the cursor (`ByteArrayDataInput`) and the growing buffer (`ByteArrayDataOutput`)
 * the Java code drives step by step.
 *
 * A string travels as a 2-byte big-endian unsigned length followed by that many
 * bytes of modified UTF-8. The bytes of the body are kept opaque here: a `Str`
 * is the encoded body of a Java string, not its characters.
 *
 * A decoder takes the unread bytes and returns the value together with the
 * bytes still unread after it, so that `ReadUtf(Utf(x) + rest)` is
 * `Some(Parsed(x, rest))`.
 */
module Wire {

  newtype byte = x: int | 0 <= x < 0x100

  /** Java's `int`. */
  newtype int32 = x: int | -0x8000_0000 <= x < 0x8000_0000

  /** The modified-UTF-8 body of a Java string. */
  type Str = seq<byte>

  /** `writeUTF` refuses a string whose encoded body is longer than this. */
  const MAX_UTF_LENGTH: nat := 0xFFFF

  datatype Option<+T> = None | Some(value: T) {
    predicate IsFailure() { None? }
    function PropagateFailure<U>(): Option<U> requires None? { None }
    function Extract(): T requires Some? { value }
  }

  /** A decoded value together with the bytes left unread after it. */
  datatype Parsed<+T> = Parsed(value: T, rest: seq<byte>)

  /** The value of a decoding result, dropping what is left unread. */
  function ValueOf<T>(r: Option<Parsed<T>>): Option<T> {
    if r.Some? then Some(r.value.value) else None
  }

  /** What is left unread after a decoding of `s`; a failed read leaves all of `s`. */
  function RestOf<T>(r: Option<Parsed<T>>, s: seq<byte>): seq<byte> {
    if r.Some? then r.value.rest else s
  }

  lemma AppendAssoc(a: seq<byte>, b: seq<byte>, c: seq<byte>)
    ensures (a + b) + c == a + (b + c)
  {
  }

  lemma SplitAt(s: seq<byte>, k: nat)
    requires k <= |s|
    ensures s[..k] + s[k..] == s
  {
  }

  // -------------------------------------------------------------------------
  // DataOutput
  // -------------------------------------------------------------------------

  function U16(n: nat): (r: seq<byte>)
    requires n <= 0xFFFF
    ensures |r| == 2
  {
    [(n / 0x100) as byte, (n % 0x100) as byte]
  }

  /** The unsigned 32-bit pattern of a two's-complement `int`. */
  function Unsigned(x: int32): (u: nat)
    ensures u < 0x1_0000_0000
    ensures u % 0x1_0000_0000 == x as int % 0x1_0000_0000
  {
    if x < 0 then x as int + 0x1_0000_0000 else x as int
  }

  /** `writeInt`: four bytes, most significant first. */
  function Int32BE(x: int32): (r: seq<byte>)
    ensures |r| == 4
  {
    var u := Unsigned(x);
    [(u / 0x100_0000) as byte, (u / 0x1_0000 % 0x100) as byte,
     (u / 0x100 % 0x100) as byte, (u % 0x100) as byte]
  }

  /** `writeBoolean`: one byte, 1 for true and 0 for false. */
  function BoolByte(b: bool): (r: seq<byte>)
    ensures |r| == 1
  {
    if b then [1] else [0]
  }

  /** `writeUTF` accepts the string. */
  predicate Fits(s: Str) {
    |s| <= MAX_UTF_LENGTH
  }

  predicate AllFit(xs: seq<Str>) {
    forall i :: 0 <= i < |xs| ==> Fits(xs[i])
  }

  /** `writeUTF`: the 2-byte length, then the body. */
  function Utf(s: Str): (r: seq<byte>)
    requires Fits(s)
    ensures |r| == 2 + |s|
  {
    U16(|s|) + s
  }

  /** One `writeUTF` per element, in order. */
  function UtfList(xs: seq<Str>): (r: seq<byte>)
    requires AllFit(xs)
    ensures |r| >= 2 * |xs|
    ensures r == [] <==> xs == []
  {
    if xs == [] then [] else UtfList(xs[..|xs| - 1]) + Utf(xs[|xs| - 1])
  }

  /** One `writeInt` per element, in order. */
  function Int32List(xs: seq<int32>): (r: seq<byte>)
    ensures |r| == 4 * |xs|
  {
    if xs == [] then [] else Int32List(xs[..|xs| - 1]) + Int32BE(xs[|xs| - 1])
  }

  // -------------------------------------------------------------------------
  // DataInput; None is the exception a short read throws
  // -------------------------------------------------------------------------

  /** `readUnsignedShort`. */
  function ReadU16(s: seq<byte>): (r: Option<Parsed<nat>>)
    ensures r.Some? <==> 2 <= |s|
    ensures r.Some? ==> r.value.value <= 0xFFFF && r.value.rest == s[2..]
  {
    if 2 <= |s| then Some(Parsed(s[0] as int * 0x100 + s[1] as int, s[2..])) else None
  }

  /** `readInt`: four bytes, big-endian, two's complement. */
  function ReadInt32(s: seq<byte>): (r: Option<Parsed<int32>>)
    ensures r.Some? <==> 4 <= |s|
    ensures r.Some? ==> r.value.rest == s[4..]
  {
    if 4 <= |s| then
      var u := s[0] as int * 0x100_0000 + s[1] as int * 0x1_0000 + s[2] as int * 0x100 + s[3] as int;
      Some(Parsed((if u >= 0x8000_0000 then u - 0x1_0000_0000 else u) as int32, s[4..]))
    else None
  }

  /** `readBoolean`: any non-zero byte is true. */
  function ReadBool(s: seq<byte>): (r: Option<Parsed<bool>>)
    ensures r.Some? <==> 1 <= |s|
    ensures r.Some? ==> r.value.value == (s[0] != 0) && r.value.rest == s[1..]
  {
    if 1 <= |s| then Some(Parsed(s[0] != 0, s[1..])) else None
  }

  /** `readUTF`: the length, then exactly that many bytes of body. */
  function ReadUtf(s: seq<byte>): (r: Option<Parsed<Str>>)
    ensures r.Some? ==> Fits(r.value.value) && 2 + |r.value.value| <= |s|
                        && r.value.rest == s[2 + |r.value.value|..]
  {
    var n :- ReadU16(s);
    if n.value <= |n.rest| then Some(Parsed(n.rest[..n.value], n.rest[n.value..])) else None
  }

  /** `n` successive `readUTF` calls. */
  function ReadUtfList(s: seq<byte>, n: nat): (r: Option<Parsed<seq<Str>>>)
    ensures r.Some? ==> |r.value.value| == n && AllFit(r.value.value) && |r.value.rest| <= |s|
  {
    if n == 0 then Some(Parsed([], s))
    else
      var init :- ReadUtfList(s, n - 1);
      var last :- ReadUtf(init.rest);
      Some(Parsed(init.value + [last.value], last.rest))
  }

  /** `n` successive `readInt` calls. */
  function ReadInt32List(s: seq<byte>, n: nat): (r: Option<Parsed<seq<int32>>>)
    ensures r.Some? ==> |r.value.value| == n
  {
    if n == 0 then Some(Parsed([], s))
    else
      var init :- ReadInt32List(s, n - 1);
      var last :- ReadInt32(init.rest);
      Some(Parsed(init.value + [last.value], last.rest))
  }

  // -------------------------------------------------------------------------
  // Decoding what was encoded gives back the value and leaves what follows
  // -------------------------------------------------------------------------

  lemma U16RoundTrip(n: nat, rest: seq<byte>)
    requires n <= 0xFFFF
    ensures ReadU16(U16(n) + rest) == Some(Parsed(n, rest))
  {
    assert (U16(n) + rest)[2..] == rest;
  }

  lemma Int32Bytes(x: int32)
    ensures var r := Int32BE(x);
      r[0] as int * 0x100_0000 + r[1] as int * 0x1_0000 + r[2] as int * 0x100 + r[3] as int
      == Unsigned(x)
  {
    var u := Unsigned(x);
    var a, b, c := u / 0x100, u / 0x1_0000, u / 0x100_0000;
    assert u == a * 0x100 + u % 0x100;
    assert a == b * 0x100 + a % 0x100;
    assert b == c * 0x100 + b % 0x100;
    assert u / 0x1_0000 == b && u / 0x100_0000 == c;
  }

  lemma {:induction false} Int32RoundTrip(x: int32, rest: seq<byte>)
    ensures ReadInt32(Int32BE(x) + rest) == Some(Parsed(x, rest))
  {
    var s := Int32BE(x) + rest;
    assert s[0] == Int32BE(x)[0] && s[1] == Int32BE(x)[1];
    assert s[2] == Int32BE(x)[2] && s[3] == Int32BE(x)[3];
    assert s[4..] == rest;
    Int32Bytes(x);
  }

  lemma BoolRoundTrip(b: bool, rest: seq<byte>)
    ensures ReadBool(BoolByte(b) + rest) == Some(Parsed(b, rest))
  {
    assert (BoolByte(b) + rest)[1..] == rest;
  }

  lemma {:induction false} UtfRoundTrip(x: Str, rest: seq<byte>)
    requires Fits(x)
    ensures ReadUtf(Utf(x) + rest) == Some(Parsed(x, rest))
  {
    AppendAssoc(U16(|x|), x, rest);
    U16RoundTrip(|x|, x + rest);
    assert (x + rest)[..|x|] == x;
    assert (x + rest)[|x|..] == rest;
  }

  lemma {:induction false} UtfListRoundTrip(xs: seq<Str>, rest: seq<byte>)
    requires AllFit(xs)
    ensures ReadUtfList(UtfList(xs) + rest, |xs|) == Some(Parsed(xs, rest))
  {
    if xs == [] {
      assert UtfList(xs) + rest == rest;
    } else {
      var init, last := xs[..|xs| - 1], xs[|xs| - 1];
      assert init + [last] == xs;
      assert AllFit(init) && Fits(last);
      var s := UtfList(xs) + rest;
      assert UtfList(xs) == UtfList(init) + Utf(last);
      AppendAssoc(UtfList(init), Utf(last), rest);
      UtfListRoundTrip(init, Utf(last) + rest);
      assert ReadUtfList(s, |xs| - 1) == Some(Parsed(init, Utf(last) + rest));
      UtfRoundTrip(last, rest);
    }
  }

  lemma {:induction false} Int32ListRoundTrip(xs: seq<int32>, rest: seq<byte>)
    ensures ReadInt32List(Int32List(xs) + rest, |xs|) == Some(Parsed(xs, rest))
  {
    if xs == [] {
      assert Int32List(xs) + rest == rest;
    } else {
      var init, last := xs[..|xs| - 1], xs[|xs| - 1];
      assert init + [last] == xs;
      var s := Int32List(xs) + rest;
      assert Int32List(xs) == Int32List(init) + Int32BE(last);
      AppendAssoc(Int32List(init), Int32BE(last), rest);
      Int32ListRoundTrip(init, Int32BE(last) + rest);
      assert ReadInt32List(s, |xs| - 1) == Some(Parsed(init, Int32BE(last) + rest));
      Int32RoundTrip(last, rest);
    }
  }

  // -------------------------------------------------------------------------
  // What a decoder accepts is exactly an encoding followed by the unread rest
  // -------------------------------------------------------------------------

  /** The four base-256 digits of a number below 2^32. */
  lemma Digits(b0: int, b1: int, b2: int, b3: int)
    requires 0 <= b0 < 0x100 && 0 <= b1 < 0x100 && 0 <= b2 < 0x100 && 0 <= b3 < 0x100
    ensures var u := b0 * 0x100_0000 + b1 * 0x1_0000 + b2 * 0x100 + b3;
      u / 0x100_0000 == b0 && u / 0x1_0000 % 0x100 == b1 && u / 0x100 % 0x100 == b2 && u % 0x100 == b3
  {
    var u := b0 * 0x100_0000 + b1 * 0x1_0000 + b2 * 0x100 + b3;
    assert u / 0x100 == b0 * 0x1_0000 + b1 * 0x100 + b2;
    assert u / 0x1_0000 == b0 * 0x100 + b1;
  }

  /** Every 4-byte window decodes to the one `int` whose encoding it is. */
  lemma {:induction false} Int32Consumed(s: seq<byte>)
    requires ReadInt32(s).Some?
    ensures s == Int32BE(ReadInt32(s).value.value) + ReadInt32(s).value.rest
  {
    var x := ReadInt32(s).value.value;
    var u := s[0] as int * 0x100_0000 + s[1] as int * 0x1_0000 + s[2] as int * 0x100 + s[3] as int;
    assert Unsigned(x) == u;
    Digits(s[0] as int, s[1] as int, s[2] as int, s[3] as int);
    assert Int32BE(x) == s[..4];
    assert s == s[..4] + s[4..];
  }

  /** What `readUTF` returns is exactly the body its bytes encode. */
  lemma {:induction false} UtfConsumed(s: seq<byte>)
    requires ReadUtf(s).Some?
    ensures s == Utf(ReadUtf(s).value.value) + ReadUtf(s).value.rest
  {
    var x := ReadUtf(s).value.value;
    var n := |x|;
    assert s[0] as int * 0x100 + s[1] as int == n;
    assert U16(n) == s[..2];
    assert x == s[2..2 + n];
    assert s == s[..2] + s[2..2 + n] + s[2 + n..];
  }

  lemma {:induction false} UtfListConsumed(s: seq<byte>, n: nat)
    requires ReadUtfList(s, n).Some?
    ensures s == UtfList(ReadUtfList(s, n).value.value) + ReadUtfList(s, n).value.rest
  {
    var r := ReadUtfList(s, n).value;
    if n == 0 {
      assert r.value == [];
    } else {
      var init := ReadUtfList(s, n - 1).value;
      var last := ReadUtf(init.rest).value;
      UtfListConsumed(s, n - 1);
      UtfConsumed(init.rest);
      assert r.value[..n - 1] == init.value && r.value[n - 1] == last.value;
      AppendAssoc(UtfList(init.value), Utf(last.value), last.rest);
    }
  }

  lemma {:induction false} Int32ListConsumed(s: seq<byte>, n: nat)
    requires ReadInt32List(s, n).Some?
    ensures s == Int32List(ReadInt32List(s, n).value.value) + ReadInt32List(s, n).value.rest
  {
    var r := ReadInt32List(s, n).value;
    if n == 0 {
      assert r.value == [];
    } else {
      var init := ReadInt32List(s, n - 1).value;
      var last := ReadInt32(init.rest).value;
      Int32ListConsumed(s, n - 1);
      Int32Consumed(init.rest);
      assert r.value[..n - 1] == init.value && r.value[n - 1] == last.value;
      AppendAssoc(Int32List(init.value), Int32BE(last.value), last.rest);
    }
  }

  // -------------------------------------------------------------------------
  // A decoding depends only on the bytes it consumes
  // -------------------------------------------------------------------------

  lemma Int32Extend(s: seq<byte>, t: seq<byte>)
    requires ReadInt32(s).Some?
    ensures ReadInt32(s + t) == Some(Parsed(ReadInt32(s).value.value, ReadInt32(s).value.rest + t))
  {
    assert (s + t)[4..] == s[4..] + t;
  }

  lemma BoolExtend(s: seq<byte>, t: seq<byte>)
    requires ReadBool(s).Some?
    ensures ReadBool(s + t) == Some(Parsed(ReadBool(s).value.value, ReadBool(s).value.rest + t))
  {
    assert (s + t)[1..] == s[1..] + t;
  }

  lemma UtfExtend(s: seq<byte>, t: seq<byte>)
    requires ReadUtf(s).Some?
    ensures ReadUtf(s + t) == Some(Parsed(ReadUtf(s).value.value, ReadUtf(s).value.rest + t))
  {
    UtfConsumed(s);
    AppendAssoc(Utf(ReadUtf(s).value.value), ReadUtf(s).value.rest, t);
    UtfRoundTrip(ReadUtf(s).value.value, ReadUtf(s).value.rest + t);
  }

  lemma {:induction false} UtfListExtend(s: seq<byte>, t: seq<byte>, n: nat)
    requires ReadUtfList(s, n).Some?
    ensures ReadUtfList(s + t, n) == Some(Parsed(ReadUtfList(s, n).value.value, ReadUtfList(s, n).value.rest + t))
  {
    if n > 0 {
      var init := ReadUtfList(s, n - 1).value;
      UtfListExtend(s, t, n - 1);
      UtfExtend(init.rest, t);
    }
  }

  lemma {:induction false} Int32ListExtend(s: seq<byte>, t: seq<byte>, n: nat)
    requires ReadInt32List(s, n).Some?
    ensures ReadInt32List(s + t, n) == Some(Parsed(ReadInt32List(s, n).value.value, ReadInt32List(s, n).value.rest + t))
  {
    if n > 0 {
      var init := ReadInt32List(s, n - 1).value;
      Int32ListExtend(s, t, n - 1);
      Int32Extend(init.rest, t);
    }
  }

  // -------------------------------------------------------------------------
  // Facts the reading and writing loops use
  // -------------------------------------------------------------------------

  lemma UtfListAppend(xs: seq<Str>, i: nat)
    requires i < |xs| && AllFit(xs[..i + 1])
    ensures AllFit(xs[..i]) && UtfList(xs[..i + 1]) == UtfList(xs[..i]) + Utf(xs[i])
  {
    assert xs[..i + 1][..i] == xs[..i];
  }

  /** One more `readUTF` after `i` successful ones. */
  lemma UtfListStep(s: seq<byte>, i: nat, items: seq<Str>, rest: seq<byte>)
    requires ReadUtfList(s, i) == Some(Parsed(items, rest))
    ensures ReadUtfList(s, i + 1) == match ReadUtf(rest)
      case None => None
      case Some(x) => Some(Parsed(items + [x.value], x.rest))
  {
  }

  /** One more `readInt` after `i` successful ones. */
  lemma Int32ListStep(s: seq<byte>, i: nat, items: seq<int32>, rest: seq<byte>)
    requires ReadInt32List(s, i) == Some(Parsed(items, rest))
    ensures ReadInt32List(s, i + 1) == match ReadInt32(rest)
      case None => None
      case Some(x) => Some(Parsed(items + [x.value], x.rest))
  {
  }

  /** Once one of `n` successive `readUTF` calls has thrown, reading more cannot succeed. */
  lemma {:induction false} UtfListFailureStays(s: seq<byte>, i: nat, n: nat)
    requires i <= n && ReadUtfList(s, i).None?
    ensures ReadUtfList(s, n).None?
  {
    if i < n {
      UtfListFailureStays(s, i, n - 1);
    }
  }

  /** Once one of `n` successive `readInt` calls has thrown, reading more cannot succeed. */
  lemma {:induction false} Int32ListFailureStays(s: seq<byte>, i: nat, n: nat)
    requires i <= n && ReadInt32List(s, i).None?
    ensures ReadInt32List(s, n).None?
  {
    if i < n {
      Int32ListFailureStays(s, i, n - 1);
    }
  }

  // -------------------------------------------------------------------------
  // The cursor: ByteArrayDataInput over the payload's byte array
  // -------------------------------------------------------------------------

  class Reader {
    const data: array<byte>
    var pos: nat

    ghost predicate Valid()
      reads this
    {
      pos <= data.Length
    }

    /** The bytes after the cursor. */
    ghost function Unread(): seq<byte>
      requires Valid()
      reads this, data
    {
      data[pos..]
    }

    /** `ByteStreams.newDataInput(bytes)`: reads the array in place, from its start. */
    constructor (bytes: array<byte>)
      ensures Valid() && data == bytes && pos == 0
    {
      data := bytes;
      pos := 0;
    }

    method ReadUTF() returns (r: Option<Str>)
      requires Valid()
      modifies this
      ensures Valid()
      ensures r == ValueOf(ReadUtf(old(Unread())))
      ensures Unread() == RestOf(ReadUtf(old(Unread())), old(Unread()))
    {
      ghost var s := data[pos..];
      if pos + 2 > data.Length {
        return None;
      }
      var n := data[pos] as int * 0x100 + data[pos + 1] as int;
      assert s[0] == data[pos] && s[1] == data[pos + 1];
      if pos + 2 + n > data.Length {
        return None;
      }
      r := Some(data[pos + 2..pos + 2 + n]);
      assert s[2..][..n] == data[pos + 2..pos + 2 + n];
      assert s[2..][n..] == data[pos + 2 + n..];
      pos := pos + 2 + n;
    }

    method ReadInt() returns (r: Option<int32>)
      requires Valid()
      modifies this
      ensures Valid()
      ensures r == ValueOf(ReadInt32(old(Unread())))
      ensures Unread() == RestOf(ReadInt32(old(Unread())), old(Unread()))
    {
      ghost var s := data[pos..];
      if pos + 4 > data.Length {
        return None;
      }
      var u := data[pos] as int * 0x100_0000 + data[pos + 1] as int * 0x1_0000
             + data[pos + 2] as int * 0x100 + data[pos + 3] as int;
      assert s[0] == data[pos] && s[1] == data[pos + 1] && s[2] == data[pos + 2] && s[3] == data[pos + 3];
      r := Some((if u >= 0x8000_0000 then u - 0x1_0000_0000 else u) as int32);
      assert s[4..] == data[pos + 4..];
      pos := pos + 4;
    }

    method ReadBoolean() returns (r: Option<bool>)
      requires Valid()
      modifies this
      ensures Valid()
      ensures r == ValueOf(ReadBool(old(Unread())))
      ensures Unread() == RestOf(ReadBool(old(Unread())), old(Unread()))
    {
      ghost var s := data[pos..];
      if pos >= data.Length {
        return None;
      }
      r := Some(data[pos] != 0);
      assert s[0] == data[pos];
      assert s[1..] == data[pos + 1..];
      pos := pos + 1;
    }
  }

  // -------------------------------------------------------------------------
  // The growing buffer: ByteArrayDataOutput
  // -------------------------------------------------------------------------

  class Writer {
    var bytes: seq<byte>

    /** `ByteStreams.newDataOutput()`. */
    constructor ()
      ensures bytes == []
    {
      bytes := [];
    }

    /** `writeUTF`; false stands for the exception thrown, before anything is written, on a body over 65535 bytes. */
    method WriteUTF(s: Str) returns (ok: bool)
      modifies this
      ensures ok == Fits(s)
      ensures bytes == if ok then old(bytes) + Utf(s) else old(bytes)
    {
      ok := |s| <= MAX_UTF_LENGTH;
      if ok {
        bytes := bytes + U16(|s|) + s;
      }
    }

    method WriteInt(x: int32)
      modifies this
      ensures bytes == old(bytes) + Int32BE(x)
    {
      bytes := bytes + Int32BE(x);
    }
  }
}
