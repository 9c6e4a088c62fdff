/** base64url (section 5 of RFC 4648) with the lenient decoder that `base64.urlsafe_b64decode` is. */
module Base64Url {
  import opened Prelude
  import opened Text

  /** The character of a 6-bit value in the URL-safe alphabet. */
  function Symbol(v: nat): (c: char)
    requires v < 64
    ensures c != '=' && c as int < 128
  {
    if v < 26 then 'A' + v as char
    else if v < 52 then 'a' + (v - 26) as char
    else if v < 62 then '0' + (v - 52) as char
    else if v == 62 then '-'
    else '_'
  }

  /** The value of a data character; the decoder also takes `+` and `/`, and skips what has no value. */
  function Value(c: char): (v: Option<nat>)
    ensures v.Some? ==> v.value < 64
  {
    if 'A' <= c <= 'Z' then Some(c as int - 'A' as int)
    else if 'a' <= c <= 'z' then Some(c as int - 'a' as int + 26)
    else if '0' <= c <= '9' then Some(c as int - '0' as int + 52)
    else if c == '-' || c == '+' then Some(62)
    else if c == '_' || c == '/' then Some(63)
    else None
  }

  lemma SymbolReadsBack(v: nat)
    requires v < 64
    ensures Value(Symbol(v)) == Some(v) && Symbol(v) != '=' && Symbol(v) as int < 128
  {
  }

  /** The alphabet of section 5 of RFC 4648: three runs of consecutive characters, and the two URL-safe symbols. */
  lemma SymbolsAreTheAlphabet(v: nat)
    requires v < 63
    ensures Symbol(0) == 'A' && Symbol(25) == 'Z' && Symbol(26) == 'a' && Symbol(51) == 'z'
    ensures Symbol(52) == '0' && Symbol(61) == '9' && Symbol(62) == '-' && Symbol(63) == '_'
    ensures v != 25 && v != 51 && v < 61 ==> Symbol(v + 1) as int == Symbol(v) as int + 1
  {
  }

  /** Four symbols for three bytes. */
  function Quad(a: Byte, b: Byte, c: Byte): string {
    [Symbol(a / 4), Symbol(a % 4 * 16 + b / 16), Symbol(b % 16 * 4 + c / 64), Symbol(c % 64)]
  }

  /** The symbols for the last one or two bytes. */
  function Tail(bs: seq<Byte>): string
    requires |bs| < 3
  {
    if |bs| == 1 then Quad(bs[0], 0, 0)[..2] else if |bs| == 2 then Quad(bs[0], bs[1], 0)[..3] else ""
  }

  function Pads(n: nat): string {
    seq(n, i => '=')
  }

  /** The padded encoding, a whole number of quads. */
  function Encode(bs: seq<Byte>): string {
    if |bs| >= 3 then Quad(bs[0], bs[1], bs[2]) + Encode(bs[3..])
    else if bs == [] then ""
    else Tail(bs) + Pads(3 - |bs|)
  }

  /** Test vectors of section 10 of RFC 4648, which the URL-safe alphabet leaves as they are. */
  lemma TestVectors()
    ensures Encode([]) == "" && Encode([0x66]) == "Zg==" && Encode([0x66, 0x6f]) == "Zm8="
    ensures Encode([0x66, 0x6f, 0x6f]) == "Zm9v"
  {
    assert Pads(1) == "=" && Pads(2) == "==";
    assert [0x66, 0x6f, 0x6f][3..] == [];
  }

  /** Both URL-safe symbols at work. */
  lemma UrlSafeVector()
    ensures Encode([0xfb, 0xff, 0xfe]) == "-__-"
  {
    assert [0xfb, 0xff, 0xfe][3..] == [];
  }

  // ---- the decoder

  /** Where the decoder stands in a quad, the bits left over, the pads seen, the output, and whether it has stopped. */
  datatype State = State(quad: nat, left: nat, pads: nat, out: seq<Byte>, done: bool)

  predicate Ok(st: State) {
    && st.quad < 4
    && (st.quad == 0 ==> st.left == 0) && (st.quad == 1 ==> st.left < 64)
    && (st.quad == 2 ==> st.left < 16) && (st.quad == 3 ==> st.left < 4)
  }

  function Feed(st: State, c: char): (r: State)
    requires Ok(st)
    ensures Ok(r)
  {
    if st.done then st
    else if c == '=' then
      if st.quad < 2 then st
      else st.(pads := st.pads + 1, done := st.quad + st.pads + 1 >= 4)
    else if Value(c).None? then st
    else
      var v := Value(c).value;
      match st.quad
      case 0 => st.(quad := 1, left := v, pads := 0)
      case 1 => st.(quad := 2, left := v % 16, pads := 0, out := st.out + [st.left * 4 + v / 16])
      case 2 => st.(quad := 3, left := v % 4, pads := 0, out := st.out + [st.left * 16 + v / 4])
      case _ => st.(quad := 0, left := 0, pads := 0, out := st.out + [st.left * 64 + v])
  }

  function FeedAll(st: State, s: string): (r: State)
    requires Ok(st)
    ensures Ok(r)
    decreases |s|
  {
    if s == "" then st else FeedAll(Feed(st, s[0]), s[1..])
  }

  const Fresh: State := State(0, 0, 0, [], false)

  function Decode(s: string): Option<seq<Byte>> {
    var st := FeedAll(Fresh, s);
    if st.done || st.quad == 0 then Some(st.out) else None
  }

  lemma {:induction false} FeedJoins(st: State, a: string, b: string)
    requires Ok(st)
    ensures FeedAll(st, a + b) == FeedAll(FeedAll(st, a), b)
    decreases |a|
  {
    if a == "" {
      assert a + b == b;
    } else {
      assert (a + b)[1..] == a[1..] + b;
      FeedJoins(Feed(st, a[0]), a[1..], b);
    }
  }

  /** A fresh quad with the given output. */
  function At(out: seq<Byte>): State {
    State(0, 0, 0, out, false)
  }

  lemma FeedSymbol(st: State, v: nat, s: string)
    requires Ok(st) && !st.done && v < 64 && s != "" && s[0] == Symbol(v)
    ensures FeedAll(st, s) == FeedAll(Feed(st, Symbol(v)), s[1..])
    ensures Value(Symbol(v)) == Some(v) && Symbol(v) != '='
  {
    SymbolReadsBack(v);
  }

  /** The first two symbols of a quad give back the first byte. */
  lemma FeedTwo(out: seq<Byte>, a: Byte, b: Byte, c: Byte, more: string)
    ensures FeedAll(At(out), Quad(a, b, c)[..2] + more) == FeedAll(State(2, b / 16, 0, out + [a], false), more)
  {
    var s := Quad(a, b, c)[..2] + more;
    var v := a % 4 * 16 + b / 16;
    FeedSymbol(At(out), a / 4, s);
    var s1 := State(1, a / 4, 0, out, false);
    assert s[1..][0] == Symbol(v);
    FeedSymbol(s1, v, s[1..]);
    assert a / 4 * 4 + v / 16 == a && v % 16 == b / 16;
    assert s[1..][1..] == more;
  }

  /** The third symbol gives back the second byte. */
  lemma FeedThird(out: seq<Byte>, b: Byte, c: Byte, more: string)
    ensures FeedAll(State(2, b / 16, 0, out, false), [Symbol(b % 16 * 4 + c / 64)] + more)
            == FeedAll(State(3, c / 64, 0, out + [b], false), more)
  {
    var v := b % 16 * 4 + c / 64;
    FeedSymbol(State(2, b / 16, 0, out, false), v, [Symbol(v)] + more);
    assert b / 16 * 16 + v / 4 == b && v % 4 == c / 64;
    assert ([Symbol(v)] + more)[1..] == more;
  }

  /** The fourth symbol gives back the third byte. */
  lemma FeedFourth(out: seq<Byte>, c: Byte, more: string)
    ensures FeedAll(State(3, c / 64, 0, out, false), [Symbol(c % 64)] + more) == FeedAll(At(out + [c]), more)
  {
    FeedSymbol(State(3, c / 64, 0, out, false), c % 64, [Symbol(c % 64)] + more);
    assert c / 64 * 64 + c % 64 == c;
    assert ([Symbol(c % 64)] + more)[1..] == more;
  }

  lemma FeedQuad(out: seq<Byte>, a: Byte, b: Byte, c: Byte, more: string)
    ensures FeedAll(At(out), Quad(a, b, c) + more) == FeedAll(At(out + [a, b, c]), more)
  {
    var last := [Symbol(c % 64)] + more;
    var third := [Symbol(b % 16 * 4 + c / 64)] + last;
    assert Quad(a, b, c) + more == Quad(a, b, c)[..2] + third;
    FeedTwo(out, a, b, c, third);
    FeedThird(out + [a], b, c, last);
    FeedFourth(out + [a] + [b], c, more);
    assert out + [a] + [b] + [c] == out + [a, b, c];
  }

  lemma FeedPads(st: State)
    requires Ok(st) && !st.done && st.pads == 0
    ensures st.quad == 2 ==> FeedAll(st, "==") == st.(pads := 2, done := true)
    ensures st.quad == 3 ==> FeedAll(st, "=") == st.(pads := 1, done := true)
  {
    assert "=="[1..] == "=" && "="[1..] == "";
    if st.quad == 2 {
      var st1 := st.(pads := 1);
      assert Feed(st, '=') == st1;
      assert Feed(st1, '=') == st.(pads := 2, done := true);
      assert FeedAll(st1, "=") == st.(pads := 2, done := true);
    }
  }

  lemma FeedLastOne(out: seq<Byte>, a: Byte)
    ensures FeedAll(At(out), Quad(a, 0, 0)[..2] + "==") == State(2, 0, 2, out + [a], true)
  {
    FeedTwo(out, a, 0, 0, "==");
    FeedPads(State(2, 0, 0, out + [a], false));
  }

  lemma FeedLastTwo(out: seq<Byte>, a: Byte, b: Byte)
    ensures FeedAll(At(out), Quad(a, b, 0)[..3] + "=") == State(3, 0, 1, out + [a, b], true)
  {
    var third := [Symbol(b % 16 * 4 + 0 / 64)];
    assert Quad(a, b, 0)[..3] + "=" == Quad(a, b, 0)[..2] + (third + "=");
    FeedTwo(out, a, b, 0, third + "=");
    FeedThird(out + [a], b, 0, "=");
    FeedPads(State(3, 0, 0, out + [a] + [b], false));
    assert out + [a] + [b] == out + [a, b];
  }

  lemma EncodeLast(bs: seq<Byte>)
    requires 1 <= |bs| <= 2
    ensures |bs| == 1 ==> Encode(bs) == Quad(bs[0], 0, 0)[..2] + "=="
    ensures |bs| == 2 ==> Encode(bs) == Quad(bs[0], bs[1], 0)[..3] + "="
  {
    assert Pads(0) == "" && Pads(1) == "=" && Pads(2) == "==";
  }

  lemma FeedOne(out: seq<Byte>, bs: seq<Byte>)
    requires |bs| == 1
    ensures FeedAll(At(out), Encode(bs)) == State(2, 0, 2, out + bs, true)
  {
    EncodeLast(bs);
    assert bs == [bs[0]];
    FeedLastOne(out, bs[0]);
  }

  lemma FeedPair(out: seq<Byte>, bs: seq<Byte>)
    requires |bs| == 2
    ensures FeedAll(At(out), Encode(bs)) == State(3, 0, 1, out + bs, true)
  {
    EncodeLast(bs);
    assert bs == [bs[0], bs[1]];
    FeedLastTwo(out, bs[0], bs[1]);
  }

  lemma EncodeQuad(bs: seq<Byte>)
    requires |bs| >= 3
    ensures Encode(bs) == Quad(bs[0], bs[1], bs[2]) + Encode(bs[3..])
  {
  }

  lemma FeedFirstQuad(out: seq<Byte>, first: seq<Byte>, more: string)
    requires |first| == 3
    ensures FeedAll(At(out), Quad(first[0], first[1], first[2]) + more) == FeedAll(At(out + first), more)
  {
    FeedQuad(out, first[0], first[1], first[2], more);
    assert first == [first[0], first[1], first[2]];
  }

  lemma {:induction false} FeedEncoded(out: seq<Byte>, bs: seq<Byte>)
    ensures var st := FeedAll(At(out), Encode(bs));
            st.out == out + bs && (st.done || st.quad == 0)
    decreases |bs|
  {
    if bs == [] {
      assert out + bs == out;
    } else if |bs| == 1 {
      FeedOne(out, bs);
    } else if |bs| == 2 {
      FeedPair(out, bs);
    } else {
      assert out + bs[..3] + bs[3..] == out + bs;
      EncodeQuad(bs);
      FeedFirstQuad(out, bs[..3], Encode(bs[3..]));
      FeedEncoded(out + bs[..3], bs[3..]);
    }
  }

  /** Decoding an encoding gives the bytes back. */
  lemma BytesReadBack(bs: seq<Byte>)
    ensures Decode(Encode(bs)) == Some(bs)
  {
    FeedEncoded([], bs);
    assert [] + bs == bs;
  }

  // ---- what the decoder lets pass

  /** Characters outside the alphabets are skipped wherever they stand. */
  lemma ForeignIsSkipped(a: string, c: char, b: string)
    requires Value(c).None? && c != '='
    ensures Decode(a + [c] + b) == Decode(a + b)
  {
    FeedJoins(Fresh, a, [c] + b);
    FeedJoins(Fresh, a, b);
    assert a + [c] + b == a + ([c] + b);
    assert ([c] + b)[1..] == b;
  }

  lemma SameValue(a: string, x: char, y: char, b: string)
    requires Value(x) == Value(y) && x != '=' && y != '='
    ensures Decode(a + [x] + b) == Decode(a + [y] + b)
  {
    FeedAfter(a, x, b);
    FeedAfter(a, y, b);
  }

  lemma FeedAfter(a: string, c: char, b: string)
    ensures FeedAll(Fresh, a + [c] + b) == FeedAll(Feed(FeedAll(Fresh, a), c), b)
  {
    assert a + [c] + b == a + ([c] + b);
    FeedJoins(Fresh, a, [c] + b);
    assert ([c] + b)[1..] == b;
  }

  /** The symbols of the standard alphabet are read like the URL-safe ones. */
  lemma StandardSymbolsAreRead(a: string, b: string)
    ensures Decode(a + ['+'] + b) == Decode(a + ['-'] + b) && Decode(a + ['/'] + b) == Decode(a + ['_'] + b)
  {
    SameValue(a, '+', '-', b);
    SameValue(a, '/', '_', b);
  }

  /** A pad before any data is skipped. */
  lemma LeadingPadIsSkipped(s: string)
    ensures Decode(['='] + s) == Decode(s)
  {
    assert (['='] + s)[1..] == s;
  }

  lemma {:induction false} FeedCounts(st: State, s: string)
    requires Ok(st) && !st.done && forall i :: 0 <= i < |s| ==> Value(s[i]).Some? && s[i] != '='
    ensures var r := FeedAll(st, s); !r.done && r.quad == (st.quad + |s|) % 4
    decreases |s|
  {
    if s != "" {
      FeedCounts(Feed(st, s[0]), s[1..]);
    }
  }

  /** Data without pads decodes exactly when it is a whole number of quads. */
  lemma UnpaddedDecodesIff(s: string)
    requires forall i :: 0 <= i < |s| ==> Value(s[i]).Some? && s[i] != '='
    ensures Decode(s).Some? <==> |s| % 4 == 0
  {
    FeedCounts(Fresh, s);
  }

  // ---- stripped padding

  predicate IsPad(c: char) {
    c == '='
  }

  predicate AllAscii(s: string) {
    forall i :: 0 <= i < |s| ==> s[i] as int < 128
  }

  function StripPads(s: string): string {
    RStripBy(s, IsPad)
  }

  /** `"=" * ((4 - len(token) % 4) % 4)`. */
  function Padding(token: string): string {
    Pads((4 - |token| % 4) % 4)
  }

  /** Plain symbols: ASCII, and not ending in a pad. */
  predicate Plain(s: string) {
    AllAscii(s) && (s == "" || s[|s| - 1] != '=')
  }

  lemma PlainJoins(a: string, b: string)
    requires Plain(a) && Plain(b)
    ensures Plain(a + b)
  {
    if b == "" {
      assert a + b == a;
    }
  }

  lemma QuadIsPlain(a: Byte, b: Byte, c: Byte)
    ensures Plain(Quad(a, b, c)) && Plain(Quad(a, b, c)[..3]) && Plain(Quad(a, b, c)[..2])
  {
  }

  /** `encoded` is plain symbols and at most two pads, a whole number of quads long. */
  ghost predicate Padded(encoded: string, symbols: string, k: nat) {
    k <= 2 && encoded == symbols + Pads(k) && (|symbols| + k) % 4 == 0 && Plain(symbols)
  }

  lemma QuadBeforePadded(quad: string, encoded: string, symbols: string, k: nat)
    requires Padded(encoded, symbols, k) && |quad| == 4 && Plain(quad)
    ensures Padded(quad + encoded, quad + symbols, k)
  {
    PlainJoins(quad, symbols);
    assert quad + (symbols + Pads(k)) == (quad + symbols) + Pads(k);
  }

  lemma {:induction false} EncodeShape(bs: seq<Byte>) returns (symbols: string, k: nat)
    ensures Padded(Encode(bs), symbols, k)
    decreases |bs|
  {
    if |bs| >= 3 {
      var rest;
      rest, k := EncodeShape(bs[3..]);
      QuadIsPlain(bs[0], bs[1], bs[2]);
      QuadBeforePadded(Quad(bs[0], bs[1], bs[2]), Encode(bs[3..]), rest, k);
      symbols := Quad(bs[0], bs[1], bs[2]) + rest;
    } else {
      symbols, k := TailShape(bs);
    }
  }

  lemma TailShape(bs: seq<Byte>) returns (symbols: string, k: nat)
    requires |bs| < 3
    ensures Padded(Encode(bs), symbols, k)
  {
    symbols, k := Tail(bs), if bs == [] then 0 else 3 - |bs|;
    if |bs| == 1 {
      QuadIsPlain(bs[0], 0, 0);
    } else if |bs| == 2 {
      QuadIsPlain(bs[0], bs[1], 0);
    }
  }

  lemma {:induction false} RStripStopsAt(s: string, r: string, drop: char -> bool)
    requires |r| <= |s| && r == s[..|r|] && (r == "" || !drop(r[|r| - 1]))
    requires forall i :: |r| <= i < |s| ==> drop(s[i])
    ensures RStripBy(s, drop) == r
    decreases |s|
  {
    if |r| < |s| {
      RStripStopsAt(s[..|s| - 1], r, drop);
    }
  }

  lemma PadCount(n: nat, k: nat)
    requires k <= 2 && (n + k) % 4 == 0
    ensures (4 - n % 4) % 4 == k
  {
  }

  lemma StripOf(symbols: string, k: nat)
    requires Plain(symbols)
    ensures StripPads(symbols + Pads(k)) == symbols
  {
    var s := symbols + Pads(k);
    assert s[..|symbols|] == symbols;
    assert forall i :: |symbols| <= i < |s| ==> IsPad(s[i]);
    RStripStopsAt(s, symbols, IsPad);
  }

  lemma PaddingOf(encoded: string, symbols: string, k: nat)
    requires Padded(encoded, symbols, k)
    ensures StripPads(encoded) == symbols && symbols + Padding(symbols) == encoded
  {
    StripOf(symbols, k);
    PadCount(|symbols|, k);
  }

  /** Stripping removes the padding and nothing else, and the padding computed from the stripped length restores it. */
  lemma PaddingIsRestored(bs: seq<Byte>)
    ensures StripPads(Encode(bs)) + Padding(StripPads(Encode(bs))) == Encode(bs)
    ensures AllAscii(StripPads(Encode(bs)))
  {
    var symbols, k := EncodeShape(bs);
    PaddingOf(Encode(bs), symbols, k);
  }
}
