/** Base16 ("hex") encoding of bytes, as section 8 of RFC 4648 defines it:
    encoding writes lower-case digits, decoding accepts either case and
    rejects odd lengths and any other character. */
module Hex {
  import opened Api

  type byte = x: int | 0 <= x < 256

  const Digits: string := "0123456789abcdef"

  function EncodeByte(b: byte): (r: string)
    ensures |r| == 2
  {
    [Digits[b / 16], Digits[b % 16]]
  }

  function Encode(bs: seq<byte>): (r: string)
    ensures |r| == 2 * |bs|
  {
    if bs == [] then [] else EncodeByte(bs[0]) + Encode(bs[1..])
  }

  /** Encoding writes lower-case digits only. */
  lemma {:induction false} EncodeLowerCase(bs: seq<byte>)
    ensures forall i :: 0 <= i < |Encode(bs)| ==> Encode(bs)[i] in Digits
  {
    if bs != [] {
      EncodeLowerCase(bs[1..]);
      var e := Encode(bs);
      forall i | 0 <= i < |e|
        ensures e[i] in Digits
      {
        if i >= 2 {
          assert e[i] == Encode(bs[1..])[i - 2];
        }
      }
    }
  }

  /** The value of one hex digit of either case. */
  function DigitValue(c: char): (r: Option<int>)
    ensures r.Some? ==> 0 <= r.value < 16
  {
    if '0' <= c <= '9' then Some(c as int - '0' as int)
    else if 'a' <= c <= 'f' then Some(c as int - 'a' as int + 10)
    else if 'A' <= c <= 'F' then Some(c as int - 'A' as int + 10)
    else None
  }

  function Decode(s: string): (r: Option<seq<byte>>)
    ensures r.Some? ==> |s| % 2 == 0 && |r.value| == |s| / 2
    ensures |s| % 2 == 1 ==> r.None?
    decreases |s|
  {
    if s == [] then Some([])
    else if |s| == 1 then None
    else
      match (DigitValue(s[0]), DigitValue(s[1]))
      case (Some(hi), Some(lo)) =>
        (match Decode(s[2..])
         case Some(rest) => Some([(hi * 16 + lo) as byte] + rest)
         case None => None)
      case _ => None
  }

  lemma {:induction false} DigitValueOfDigit(v: int)
    requires 0 <= v < 16
    ensures DigitValue(Digits[v]) == Some(v)
  {
  }

  /** Decoding a string that starts with two digits: their byte, then the rest. */
  lemma DecodeStep(s: string, rest: seq<byte>)
    requires |s| >= 2 && DigitValue(s[0]).Some? && DigitValue(s[1]).Some? && Decode(s[2..]) == Some(rest)
    ensures Decode(s) == Some([(DigitValue(s[0]).value * 16 + DigitValue(s[1]).value) as byte] + rest)
  {
  }

  /** Decoding one encoded byte in front of an encoding of rest. */
  lemma DecodeEncodedByte(b: byte, t: string, rest: seq<byte>)
    requires Decode(t) == Some(rest)
    ensures Decode(EncodeByte(b) + t) == Some([b] + rest)
  {
    var s := EncodeByte(b) + t;
    DigitValueOfDigit(b / 16);
    DigitValueOfDigit(b % 16);
    assert s[0] == Digits[b / 16] && s[1] == Digits[b % 16] && s[2..] == t;
    DecodeStep(s, rest);
  }

  /** Decoding undoes encoding. */
  lemma {:induction false} DecodeEncode(bs: seq<byte>)
    ensures Decode(Encode(bs)) == Some(bs)
  {
    if bs != [] {
      DecodeEncode(bs[1..]);
      DecodeEncodedByte(bs[0], Encode(bs[1..]), bs[1..]);
      assert bs == [bs[0]] + bs[1..];
    }
  }

  /** The first 2k digits encode the first k bytes. */
  lemma {:induction false} EncodePrefix(bs: seq<byte>, k: nat)
    requires k <= |bs|
    ensures Encode(bs)[..2 * k] == Encode(bs[..k])
  {
    if k > 0 {
      assert bs[..k][1..] == bs[1..][..k - 1];
      EncodePrefix(bs[1..], k - 1);
    }
  }

  /** Encoding is injective: different bytes never share an encoding. */
  lemma EncodeInjective(a: seq<byte>, b: seq<byte>)
    requires Encode(a) == Encode(b)
    ensures a == b
  {
    DecodeEncode(a);
    DecodeEncode(b);
  }
}
