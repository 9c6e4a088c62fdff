/** Strict UTF-8 (RFC 3629), as `str.encode` and `bytes.decode("utf-8")` use it. */
module Utf8 {
  import opened Prelude

  function EncodeChar(c: char): seq<Byte> {
    var n := c as int;
    if n < 0x80 then [n]
    else if n < 0x800 then [0xC0 + n / 64, 0x80 + n % 64]
    else if n < 0x10000 then [0xE0 + n / 4096, 0x80 + n / 64 % 64, 0x80 + n % 64]
    else [0xF0 + n / 262144, 0x80 + n / 4096 % 64, 0x80 + n / 64 % 64, 0x80 + n % 64]
  }

  function Encode(s: string): seq<Byte> {
    if s == "" then [] else EncodeChar(s[0]) + Encode(s[1..])
  }

  predicate Continues(b: Byte) {
    0x80 <= b < 0xC0
  }

  /** The payload bits of a continuation byte. */
  function Six(b: Byte): int {
    b - 0x80
  }

  function FromSix(high: int, low: int): int {
    high * 64 + low
  }

  predicate IsScalar(n: int) {
    0 <= n < 0xD800 || 0xE000 <= n < 0x110000
  }

  /** The first character and its width, or nothing where the bytes do not begin with a well-formed sequence. */
  function DecodeChar(bs: seq<Byte>): Option<(char, nat)>
    requires bs != []
  {
    var b: int := bs[0];
    if b < 0x80 then Some((b as char, 1))
    else if 0xC2 <= b < 0xE0 then
      if |bs| >= 2 && Continues(bs[1]) then Some((FromSix(b - 0xC0, Six(bs[1])) as char, 2))
      else None
    else if 0xE0 <= b < 0xF0 then
      if |bs| >= 3 && Continues(bs[1]) && Continues(bs[2]) then
        var n := FromSix(FromSix(b - 0xE0, Six(bs[1])), Six(bs[2]));
        if 0x800 <= n && IsScalar(n) then Some((n as char, 3)) else None
      else None
    else if 0xF0 <= b < 0xF5 then
      if |bs| >= 4 && Continues(bs[1]) && Continues(bs[2]) && Continues(bs[3]) then
        var n := FromSix(FromSix(FromSix(b - 0xF0, Six(bs[1])), Six(bs[2])), Six(bs[3]));
        if 0x10000 <= n && IsScalar(n) then Some((n as char, 4)) else None
      else None
    else None
  }

  function Decode(bs: seq<Byte>): Option<string> {
    if bs == [] then Some("")
    else
      var first := DecodeChar(bs);
      if first.None? || first.value.1 > |bs| then None
      else
        var rest := Decode(bs[first.value.1..]);
        if rest.None? then None else Some([first.value.0] + rest.value)
  }

  lemma CharReadsBack(c: char, more: seq<Byte>)
    ensures EncodeChar(c) + more != []
    ensures DecodeChar(EncodeChar(c) + more) == Some((c, |EncodeChar(c)|))
  {
    var n := c as int;
    var bs := EncodeChar(c) + more;
    assert forall i :: 0 <= i < |EncodeChar(c)| ==> bs[i] == EncodeChar(c)[i];
    Digits64(n);
  }

  lemma Digits64(n: nat)
    ensures n == FromSix(n / 64, n % 64)
    ensures n / 64 == FromSix(n / 4096, n / 64 % 64)
    ensures n / 4096 == FromSix(n / 262144, n / 4096 % 64)
  {
  }

  lemma LastSix(high: nat, low: nat)
    requires low < 64
    ensures FromSix(high, low) / 64 == high && FromSix(high, low) % 64 == low
  {
  }

  lemma DivideTwice(n: nat)
    ensures n / 4096 == n / 64 / 64 && n / 262144 == n / 4096 / 64
  {
  }

  lemma FromDigits(w: nat, x: nat, y: nat, z: nat)
    requires x < 64 && y < 64 && z < 64
    ensures var n := FromSix(FromSix(FromSix(w, x), y), z);
            n / 262144 == w && n / 4096 % 64 == x && n / 64 % 64 == y && n % 64 == z
            && n / 4096 == FromSix(w, x) && n / 64 == FromSix(FromSix(w, x), y)
  {
    LastSix(w, x);
    LastSix(FromSix(w, x), y);
    LastSix(FromSix(FromSix(w, x), y), z);
    DivideTwice(FromSix(FromSix(FromSix(w, x), y), z));
  }

  /** Decoding goes on after a well-formed first character. */
  lemma DecodeFirst(bs: seq<Byte>, c: char, width: nat)
    requires bs != [] && DecodeChar(bs) == Some((c, width)) && width <= |bs|
    ensures width > 0
    ensures Decode(bs) == (if Decode(bs[width..]).None? then None else Some([c] + Decode(bs[width..]).value))
  {
  }

  lemma EncodeFirst(c: char, s: string)
    ensures Encode([c] + s) == EncodeChar(c) + Encode(s)
  {
    assert ([c] + s)[1..] == s;
  }

  /** Decoding an encoded text gives the text back. */
  lemma {:induction false} TextReadsBack(s: string)
    ensures Decode(Encode(s)) == Some(s)
    decreases |s|
  {
    if s != "" {
      var c, tail := s[0], s[1..];
      assert s == [c] + tail;
      EncodeFirst(c, tail);
      CharReadsBack(c, Encode(tail));
      DecodeFirst(Encode(s), c, |EncodeChar(c)|);
      assert Encode(s)[|EncodeChar(c)|..] == Encode(tail);
      TextReadsBack(tail);
    }
  }

  lemma EncodeTwo(y: nat, z: nat)
    requires 2 <= y < 32 && z < 64
    ensures EncodeChar(FromSix(y, z) as char) == [0xC0 + y, 0x80 + z]
  {
    FromDigits(0, 0, y, z);
  }

  lemma EncodeThree(x: nat, y: nat, z: nat)
    requires x < 16 && y < 64 && z < 64
    requires var n := FromSix(FromSix(x, y), z); 0x800 <= n && IsScalar(n)
    ensures EncodeChar(FromSix(FromSix(x, y), z) as char) == [0xE0 + x, 0x80 + y, 0x80 + z]
  {
    FromDigits(0, x, y, z);
  }

  lemma EncodeFour(w: nat, x: nat, y: nat, z: nat)
    requires w < 5 && x < 64 && y < 64 && z < 64
    requires var n := FromSix(FromSix(FromSix(w, x), y), z); 0x10000 <= n && IsScalar(n)
    ensures EncodeChar(FromSix(FromSix(FromSix(w, x), y), z) as char) == [0xF0 + w, 0x80 + x, 0x80 + y, 0x80 + z]
  {
    FromDigits(w, x, y, z);
  }

  /** What decodes as a character is the encoding of that character: there are no other spellings. */
  lemma CharIsCanonical(bs: seq<Byte>)
    requires bs != [] && DecodeChar(bs).Some?
    ensures var (c, width) := DecodeChar(bs).value;
            1 <= width <= |bs| && bs[..width] == EncodeChar(c)
  {
    var b: int := bs[0];
    if b < 0x80 {
    } else if b < 0xE0 {
      EncodeTwo(b - 0xC0, Six(bs[1]));
    } else if b < 0xF0 {
      EncodeThree(b - 0xE0, Six(bs[1]), Six(bs[2]));
    } else {
      EncodeFour(b - 0xF0, Six(bs[1]), Six(bs[2]), Six(bs[3]));
    }
  }

  /** One character of the decoded text accounts for the bytes it was decoded from. */
  lemma BytesOfFirst(bs: seq<Byte>) returns (width: nat)
    requires bs != [] && Decode(bs).Some?
    ensures 1 <= width <= |bs| && Decode(bs[width..]).Some?
    ensures Encode(Decode(bs).value) == bs[..width] + Encode(Decode(bs[width..]).value)
  {
    CharIsCanonical(bs);
    width := DecodeChar(bs).value.1;
    DecodeFirst(bs, DecodeChar(bs).value.0, width);
    EncodeFirst(DecodeChar(bs).value.0, Decode(bs[width..]).value);
  }

  /** The decoder accepts exactly the encodings: a decoded text encodes to the bytes it came from. */
  lemma {:induction false} BytesReadBack(bs: seq<Byte>)
    requires Decode(bs).Some?
    ensures Encode(Decode(bs).value) == bs
    decreases |bs|
  {
    if bs != [] {
      var width := BytesOfFirst(bs);
      BytesReadBack(bs[width..]);
      assert bs == bs[..width] + bs[width..];
    }
  }
}
