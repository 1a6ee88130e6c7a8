/** Cookie names: the lowercase base16 encoding (section 8 of RFC 4648) and the
    name mask that decides which cookies belong to a session handler. */
module CookieNames {

  newtype Byte = x: int | 0 <= x < 256

  const NAME_BYTES := 32
  const VALUE_BYTES := 128

  type NameBytes = bs: seq<Byte> | |bs| == NAME_BYTES witness seq(NAME_BYTES, _ => 0)
  type ValueBytes = bs: seq<Byte> | |bs| == VALUE_BYTES witness seq(VALUE_BYTES, _ => 0)

  predicate IsHexDigit(c: char) {
    '0' <= c <= '9' || 'A' <= c <= 'F' || 'a' <= c <= 'f'
  }

  /** One lowercase hexadecimal digit. */
  function HexDigit(n: int): (c: char)
    requires 0 <= n < 16
    ensures IsHexDigit(c)
  {
    if n < 10 then ('0' as int + n) as char else ('a' as int + n - 10) as char
  }

  function EncodeByte(b: Byte): (s: string)
    ensures |s| == 2 && IsHexDigit(s[0]) && IsHexDigit(s[1])
  {
    [HexDigit(b as int / 16), HexDigit(b as int % 16)]
  }

  function Encode(bs: seq<Byte>): (s: string)
    ensures |s| == 2 * |bs|
    ensures forall i :: 0 <= i < |s| ==> IsHexDigit(s[i])
  {
    if bs == [] then "" else EncodeByte(bs[0]) + Encode(bs[1..])
  }

  lemma EncodeByteInjective(a: Byte, b: Byte)
    requires EncodeByte(a) == EncodeByte(b)
    ensures a == b
  {}

  /** Different random bytes never give the same name. */
  lemma {:induction false} EncodeInjective(a: seq<Byte>, b: seq<Byte>)
    requires Encode(a) == Encode(b)
    ensures a == b
  {
    if a != [] {
      assert Encode(a)[..2] == EncodeByte(a[0]) && Encode(b)[..2] == EncodeByte(b[0]);
      EncodeByteInjective(a[0], b[0]);
      assert Encode(a)[2..] == Encode(a[1..]) && Encode(b)[2..] == Encode(b[1..]);
      EncodeInjective(a[1..], b[1..]);
      assert a == [a[0]] + a[1..] && b == [b[0]] + b[1..];
    }
  }

  // ---------- reading a name back ----------

  const DIGITS := "0123456789abcdef"

  function DigitValue(c: char): int {
    if c <= '9' then c as int - '0' as int else c as int - 'a' as int + 10
  }

  /** The sixteen digits, each in its place. */
  lemma DigitTable(n: int)
    requires 0 <= n < 16
    ensures HexDigit(n) == DIGITS[n] && DigitValue(DIGITS[n]) == n
  {}

  /** Two digits for each byte, the high one first. */
  function Decode(s: string): seq<int> {
    if |s| < 2 then [] else [16 * DigitValue(s[0]) + DigitValue(s[1])] + Decode(s[2..])
  }

  function Numbers(bs: seq<Byte>): seq<int> {
    if bs == [] then [] else [bs[0] as int] + Numbers(bs[1..])
  }

  lemma ByteRoundTrip(b: Byte)
    ensures EncodeByte(b)[0] in DIGITS && EncodeByte(b)[1] in DIGITS
    ensures 16 * DigitValue(EncodeByte(b)[0]) + DigitValue(EncodeByte(b)[1]) == b as int
  {
    DigitTable(b as int / 16);
    DigitTable(b as int % 16);
  }

  /** Encoding is lowercase base16 with the high digit first: reading it back gives the bytes. */
  lemma {:induction false} EncodeRoundTrip(bs: seq<Byte>)
    ensures Decode(Encode(bs)) == Numbers(bs)
    ensures forall c :: c in Encode(bs) ==> c in DIGITS
  {
    if bs != [] {
      ByteRoundTrip(bs[0]);
      EncodeRoundTrip(bs[1..]);
      assert Encode(bs)[2..] == Encode(bs[1..]);
      assert Encode(bs)[0] == EncodeByte(bs[0])[0] && Encode(bs)[1] == EncodeByte(bs[0])[1];
      assert Encode(bs) == EncodeByte(bs[0]) + Encode(bs[1..]);
    }
  }

  /** The handler's mask: its own name, a dash and 64 hexadecimal digits of either case. */
  predicate Owns(handler: string, cookie: string) {
    && |cookie| == |handler| + 1 + 2 * NAME_BYTES
    && cookie[..|handler|] == handler
    && cookie[|handler|] == '-'
    && forall i :: |handler| < i < |cookie| ==> IsHexDigit(cookie[i])
  }

  function CookieName(handler: string, bs: seq<Byte>): string {
    handler + "-" + Encode(bs)
  }

  /** A generated name is always accepted by the mask of the handler that generated it. */
  lemma GeneratedNameIsOwned(handler: string, bs: NameBytes)
    ensures Owns(handler, CookieName(handler, bs))
  {}

  ghost predicate IsTail(tail: string) {
    |tail| == 64 && forall i :: 0 <= i < |tail| ==> tail[i] in "0123456789abcdefABCDEF"
  }

  lemma HexDigitsListed(c: char)
    ensures IsHexDigit(c) <==> c in "0123456789abcdefABCDEF"
  {
    var all := "0123456789abcdefABCDEF";
    if IsHexDigit(c) {
      var i := if c <= '9' then c as int - '0' as int
               else if c <= 'F' then c as int - 'A' as int + 16
               else c as int - 'a' as int + 10;
      assert all[i] == c;
    }
  }

  lemma OwnedTail(handler: string, cookie: string) returns (tail: string)
    requires Owns(handler, cookie)
    ensures IsTail(tail) && cookie == handler + "-" + tail
  {
    var k := |handler| + 1;
    tail := cookie[k..];
    forall i | 0 <= i < |tail|
      ensures tail[i] in "0123456789abcdefABCDEF"
    {
      HexDigitsListed(cookie[k + i]);
    }
    assert cookie == cookie[..k - 1] + [cookie[k - 1]] + tail;
  }

  lemma TailIsOwned(handler: string, cookie: string, tail: string)
    requires IsTail(tail) && |cookie| == |handler| + 1 + |tail|
    requires cookie[..|handler|] == handler && cookie[|handler|] == '-' && cookie[|handler| + 1..] == tail
    ensures Owns(handler, cookie)
  {
    TailIsHex(tail);
    forall i | |handler| < i < |cookie|
      ensures IsHexDigit(cookie[i])
    {
      assert cookie[i] == tail[i - |handler| - 1];
    }
  }

  lemma TailIsHex(tail: string)
    requires IsTail(tail)
    ensures forall i :: 0 <= i < |tail| ==> IsHexDigit(tail[i])
  {
    forall i | 0 <= i < |tail|
      ensures IsHexDigit(tail[i])
    {
      HexDigitsListed(tail[i]);
    }
  }

  /** The mask accepts the handler's name, a dash and exactly 64 hexadecimal digits of either
      case, and nothing else. */
  lemma OwnsIff(handler: string, cookie: string)
    ensures Owns(handler, cookie) <==> exists tail :: IsTail(tail) && cookie == handler + "-" + tail
  {
    if Owns(handler, cookie) {
      var tail := OwnedTail(handler, cookie);
    }
    if tail :| IsTail(tail) && cookie == handler + "-" + tail {
      TailIsOwned(handler, cookie, tail);
    }
  }

  /** The strength of what is handed out: 32 bytes of name, 128 of secret. */
  lemma GeneratedSizes(handler: string, name: NameBytes, secret: ValueBytes)
    ensures |CookieName(handler, name)| == |handler| + 65 && |Encode(secret)| == 256
  {}

  lemma CookieNameInjective(handler: string, a: seq<Byte>, b: seq<Byte>)
    requires CookieName(handler, a) == CookieName(handler, b)
    ensures a == b
  {
    var k := |handler| + 1;
    assert CookieName(handler, a)[k..] == Encode(a);
    assert CookieName(handler, b)[k..] == Encode(b);
    EncodeInjective(a, b);
  }

  /** Handlers with different literal names own disjoint sets of cookie names. */
  lemma OwnersAreUnique(a: string, b: string, cookie: string)
    requires Owns(a, cookie) && Owns(b, cookie)
    ensures a == b
  {}
}
