/** The opaque email thread id: account and message id, packed into URL-safe text without padding. */
module ThreadId {
  import opened Prelude
  import opened Text
  import B = Base64Url
  import U = Utf8

  /** The three bad requests of `decode_thread_id`. */
  datatype DecodeError = Malformed | MissingSeparator | EmptyComponent

  predicate IsOpen(c: char) {
    c == '<'
  }

  predicate IsClose(c: char) {
    c == '>'
  }

  /** The message id without surrounding whitespace and angle brackets. */
  function Clean(messageId: string): string {
    RStripBy(LStripBy(Strip(messageId), IsOpen), IsClose)
  }

  function Bracketed(id: string): string {
    "<" + id + ">"
  }

  function TokenOf(text: string): string {
    B.StripPads(B.Encode(U.Encode(text)))
  }

  function Encode(account: string, messageId: string): string {
    TokenOf(account + ":" + Clean(messageId))
  }

  /** The text inside a token, if the token is ASCII, its symbols are whole bytes and its bytes are UTF-8. */
  function TextOf(token: string): Option<string> {
    if !B.AllAscii(token) then None
    else
      var bytes := B.Decode(token + B.Padding(token));
      if bytes.None? then None else U.Decode(bytes.value)
  }

  /** The position of the first colon, or the length of the text. */
  function FirstColon(s: string): (i: nat)
    ensures i <= |s| && (i < |s| ==> s[i] == ':') && forall j :: 0 <= j < i ==> s[j] != ':'
  {
    if s == "" || s[0] == ':' then 0 else 1 + FirstColon(s[1..])
  }

  /** `text.split(":", 1)` with the checks before and after it. */
  function SplitText(text: string): Result<(string, string), DecodeError> {
    var i := FirstColon(text);
    if i == |text| then Err(MissingSeparator)
    else if i == 0 || i + 1 == |text| then Err(EmptyComponent)
    else Ok((text[..i], Bracketed(text[i + 1..])))
  }

  function Decode(token: string): Result<(string, string), DecodeError> {
    var text := TextOf(token);
    if text.None? then Err(Malformed) else SplitText(text.value)
  }

  /** Packing loses nothing: the stripped padding is restored, the bytes read back, and so does the text. */
  lemma TextOfToken(text: string)
    ensures TextOf(TokenOf(text)) == Some(text)
  {
    B.PaddingIsRestored(U.Encode(text));
    B.BytesReadBack(U.Encode(text));
    U.TextReadsBack(text);
  }

  lemma ColonAfter(account: string, id: string)
    requires ':' !in account
    ensures FirstColon(account + ":" + id) == |account|
  {
    var s := account + ":" + id;
    assert s[|account|] == ':';
    forall j | 0 <= j < |account| ensures s[j] != ':' {
      assert s[j] == account[j];
    }
  }

  lemma ColonInside(account: string, id: string)
    requires ':' in account
    ensures FirstColon(account + ":" + id) < |account|
  {
    var j :| 0 <= j < |account| && account[j] == ':';
    assert (account + ":" + id)[j] == ':';
  }

  /** The round trip holds for exactly the non-empty colon-free accounts and the ids that are not empty once cleaned. */
  lemma RoundTripIff(account: string, messageId: string)
    ensures Decode(Encode(account, messageId)) == Ok((account, Bracketed(Clean(messageId))))
            <==> account != "" && ':' !in account && Clean(messageId) != ""
    ensures ':' !in account && (account == "" || Clean(messageId) == "")
            ==> Decode(Encode(account, messageId)) == Err(EmptyComponent)
  {
    TextOfToken(account + ":" + Clean(messageId));
    SplitOfText(account, Clean(messageId));
  }

  lemma SplitOfText(account: string, id: string)
    ensures SplitText(account + ":" + id) == Ok((account, Bracketed(id)))
            <==> account != "" && ':' !in account && id != ""
    ensures ':' !in account && (account == "" || id == "") ==> SplitText(account + ":" + id) == Err(EmptyComponent)
  {
    var text := account + ":" + id;
    if ':' in account {
      ColonInside(account, id);
    } else {
      ColonAfter(account, id);
      assert text[..|account|] == account && text[|account| + 1..] == id;
    }
  }

  predicate AllOf(s: string, p: char -> bool) {
    forall i :: 0 <= i < |s| ==> p(s[i])
  }

  lemma {:induction false} LStripAfter(lead: string, rest: string, drop: char -> bool)
    requires AllOf(lead, drop) && (rest == "" || !drop(rest[0]))
    ensures LStripBy(lead + rest, drop) == rest
  {
    if lead == "" {
      assert lead + rest == rest;
    } else {
      assert (lead + rest)[1..] == lead[1..] + rest;
      LStripAfter(lead[1..], rest, drop);
    }
  }

  lemma {:induction false} LStripOnly(s: string, drop: char -> bool)
    requires AllOf(s, drop)
    ensures LStripBy(s, drop) == ""
  {
    if s != "" {
      LStripOnly(s[1..], drop);
    }
  }

  lemma RStripBefore(rest: string, trail: string, drop: char -> bool)
    requires AllOf(trail, drop) && (rest == "" || !drop(rest[|rest| - 1]))
    ensures RStripBy(rest + trail, drop) == rest
  {
    B.RStripStopsAt(rest + trail, rest, drop);
  }

  /**
   * What cleaning removes: whitespace outside, then opening brackets before the id and closing ones after it, and
   * nothing inside.
   */
  lemma CleanRemovesTheOutside(lead: string, opens: string, id: string, closes: string, trail: string)
    requires AllOf(lead, IsSpace) && AllOf(trail, IsSpace)
    requires (forall i :: 0 <= i < |opens| ==> opens[i] == '<') && (forall i :: 0 <= i < |closes| ==> closes[i] == '>')
    requires id != "" && id[0] != '<' && id[|id| - 1] != '>'
    requires opens != "" || !IsSpace(id[0])
    requires closes != "" || !IsSpace(id[|id| - 1])
    ensures Clean(lead + opens + id + closes + trail) == id
  {
    var core := opens + id + closes;
    assert lead + opens + id + closes + trail == lead + (core + trail);
    LStripAfter(lead, core + trail, IsSpace);
    RStripBefore(core, trail, IsSpace);
    assert Strip(lead + (core + trail)) == core;
    assert core == opens + (id + closes);
    LStripAfter(opens, id + closes, IsOpen);
    RStripBefore(id, closes, IsClose);
  }

  lemma CleanEnds(messageId: string)
    ensures var id := Clean(messageId); id != "" ==> id[0] != '<' && id[|id| - 1] != '>'
  {
    LStripFacts(Strip(messageId), IsOpen);
    RStripFacts(LStripBy(Strip(messageId), IsOpen), IsClose);
  }

  /** Cleaning a bracketed id gives the id back exactly when it does not itself begin or end with a bracket. */
  lemma CleanBracketedIff(id: string)
    ensures Clean(Bracketed(id)) == id <==> id == "" || (id[0] != '<' && id[|id| - 1] != '>')
  {
    var s := Bracketed(id);
    CleanEnds(s);
    StripIsIdentityIff(s);
    assert s[1..] == id + ">";
    assert LStripBy(s, IsOpen) == LStripBy(id + ">", IsOpen);
    if id == "" || id[0] != '<' {
      assert LStripBy(id + ">", IsOpen) == id + ">";
      assert (id + ">")[..|id|] == id;
      assert RStripBy(id + ">", IsClose) == RStripBy(id, IsClose);
    }
  }

  /** Re-encoding what a round trip returns gives the same token. */
  lemma ReencodingIsStable(account: string, messageId: string)
    ensures Encode(account, Bracketed(Clean(messageId))) == Encode(account, messageId)
  {
    CleanEnds(messageId);
    CleanBracketedIff(Clean(messageId));
  }

  /** The three errors and the success, in terms of the token and of the text it packs. */
  lemma DecodeInFull(text: string)
    ensures Decode(TokenOf(text)) == Err(MissingSeparator) <==> ':' !in text
    ensures Decode(TokenOf(text)) == Err(EmptyComponent)
            <==> ':' in text && (text[0] == ':' || (text[|text| - 1] == ':' && ':' !in text[..|text| - 1]))
    ensures Decode(TokenOf(text)) != Err(Malformed)
  {
    TextOfToken(text);
    SplitInFull(text);
  }

  lemma SplitInFull(text: string)
    ensures SplitText(text) == Err(MissingSeparator) <==> ':' !in text
    ensures SplitText(text) == Err(EmptyComponent)
            <==> ':' in text && (text[0] == ':' || (text[|text| - 1] == ':' && ':' !in text[..|text| - 1]))
    ensures SplitText(text) != Err(Malformed)
  {
    var i := FirstColon(text);
    assert ':' in text <==> i < |text|;
    if i + 1 == |text| {
      assert ':' !in text[..|text| - 1];
    } else if i < |text| && text[|text| - 1] == ':' {
      assert text[..|text| - 1][i] == ':';
    }
  }

  lemma ForeignTokenIsMalformed(token: string, i: nat)
    requires i < |token| && token[i] as int >= 128
    ensures Decode(token) == Err(Malformed)
  {
  }

  /** Distinct pairs get distinct tokens, as far as the cleaned id and a colon-free account can tell them apart. */
  lemma TokensAreDistinct(a1: string, m1: string, a2: string, m2: string)
    requires ':' !in a1 && ':' !in a2
    requires Encode(a1, m1) == Encode(a2, m2)
    ensures a1 == a2 && Clean(m1) == Clean(m2)
  {
    var t1, t2 := a1 + ":" + Clean(m1), a2 + ":" + Clean(m2);
    TextOfToken(t1);
    TextOfToken(t2);
    ColonAfter(a1, Clean(m1));
    ColonAfter(a2, Clean(m2));
    assert t1[..|a1|] == a1 && t1[|a1| + 1..] == Clean(m1);
    assert t2[..|a2|] == a2 && t2[|a2| + 1..] == Clean(m2);
  }

  /**
   * Any accepted token, canonical or not, decodes to a pair that survives another round trip exactly when its id has
   * no outer brackets.
   */
  lemma AcceptedIsStableIff(token: string, account: string, id: string)
    requires Decode(token) == Ok((account, Bracketed(id)))
    ensures Decode(Encode(account, Bracketed(id))) == Decode(token) <==> id[0] != '<' && id[|id| - 1] != '>'
  {
    var text := TextOf(token).value;
    var i := FirstColon(text);
    assert account == text[..i] && Bracketed(id)[1..|id| + 1] == id == Bracketed(text[i + 1..])[1..|id| + 1];
    RoundTripIff(account, Bracketed(id));
    CleanBracketedIff(id);
    var again := Clean(Bracketed(id));
    assert Bracketed(again)[1..|again| + 1] == again;
  }
}
