/** Reading the station address from its text in the configuration file. */
module MacText {
  import opened Words
  import opened Wrappers

  // ---- Hexadecimal numbers ----

  /** Other characters count as zero. */
  function DigitOf(c: char): (d: nat)
    ensures d < 16
  {
    if '0' <= c <= '9' then (c - '0') as int
    else if 'a' <= c <= 'f' then (c - 'a') as int + 10
    else if 'A' <= c <= 'F' then (c - 'A') as int + 10
    else 0
  }

  /** The positional value of a string of digits, without a bound. */
  function Value(s: string): (n: nat) {
    if s == "" then 0 else 16 * Value(s[..|s| - 1]) + DigitOf(s[|s| - 1])
  }

  function Power16(k: nat): (n: nat) {
    if k == 0 then 1 else 16 * Power16(k - 1)
  }

  /** The leading digit counts most: what the value means, whichever end it is computed from. */
  lemma {:induction false} ValueOfConcat(a: string, b: string)
    ensures Value(a + b) == Value(a) * Power16(|b|) + Value(b)
    decreases |b|
  {
    if b == "" {
      assert a + b == a;
    } else {
      var n := |b| - 1;
      assert (a + b)[..|a + b| - 1] == a + b[..n];
      ValueOfConcat(a, b[..n]);
      calc {
        Value(a + b);
        16 * (Value(a) * Power16(n) + Value(b[..n])) + DigitOf(b[n]);
        { Shuffle(Value(a), Power16(n), Value(b[..n])); }
        Value(a) * Power16(|b|) + Value(b);
      }
    }
  }

  lemma Shuffle(a: nat, p: nat, b: nat)
    ensures 16 * (a * p + b) == a * (16 * p) + 16 * b
  {
  }

  function Upper(c: char): (u: char) {
    if 'a' <= c <= 'z' then ((c - 'a') as int + 'A' as int) as char else c
  }

  /** Letter case does not matter. */
  lemma {:induction false} CaseIgnored(s: string, t: string)
    requires |s| == |t| && forall i :: 0 <= i < |s| ==> Upper(s[i]) == Upper(t[i])
    ensures Value(s) == Value(t)
    decreases |s|
  {
    if s != "" {
      var n := |s| - 1;
      CaseIgnored(s[..n], t[..n]);
      assert DigitOf(s[n]) == DigitOf(Upper(s[n])) == DigitOf(t[n]);
    }
  }

  method HexStringToU32(str: string) returns (val: nat)
    ensures val == Value(str) % 0x1_0000_0000
  {
    val := 0;
    var i := 0;
    while i < |str|
      invariant i <= |str| && val == Value(str[..i]) % 0x1_0000_0000
    {
      var c, before := str[i], val;
      assert str[..i + 1][..i] == str[..i];
      DigitIn(Value(str[..i]), DigitOf(c));
      val := val * 16 % 0x1_0000_0000;
      if '0' <= c <= '9' {
        val := val + (c - '0') as int;
      } else if 'a' <= c <= 'f' {
        val := val + ((c - 'a') as int + 10);
      } else if 'A' <= c <= 'F' {
        val := val + ((c - 'A') as int + 10);
      }
      i := i + 1;
    }
    assert str[..i] == str;
  }

  /** The shifted word has four zero bits, so that setting digit bits in it is adding the digit. */
  lemma DigitIn(v: nat, d: nat)
    requires d < 16
    ensures var shifted := v % 0x1_0000_0000 * 16 % 0x1_0000_0000;
            shifted % 16 == 0 && shifted + d == (16 * v + d) % 0x1_0000_0000
  {
    var w := v % 0x1_0000_0000;
    var high := w / 0x1000_0000;
    assert w == 0x1000_0000 * high + w % 0x1000_0000;
    assert w * 16 == 0x1_0000_0000 * high + 16 * (w % 0x1000_0000);
    assert w * 16 % 0x1_0000_0000 == 16 * (w % 0x1000_0000);
    assert v == 0x1_0000_0000 * (v / 0x1_0000_0000) + w;
    assert 16 * v + d == 0x1_0000_0000 * (16 * (v / 0x1_0000_0000) + high) + (16 * (w % 0x1000_0000) + d);
  }

  // ---- Tokens ----

  predicate IsDelim(c: char) {
    c == ':' || c == ' '
  }

  function Skipped(s: string): (t: string)
    ensures |t| <= |s| && (t != "" ==> !IsDelim(t[0]))
  {
    if s != "" && IsDelim(s[0]) then Skipped(s[1..]) else s
  }

  function TokenLength(s: string): (n: nat)
    ensures n <= |s| && (n < |s| ==> IsDelim(s[n])) && forall i :: 0 <= i < n ==> !IsDelim(s[i])
  {
    if s == "" || IsDelim(s[0]) then 0 else 1 + TokenLength(s[1..])
  }

  /** What strtok returns and where it will go on. */
  function NextToken(s: string): (r: (Option<string>, string))
    ensures r.0.Some? ==> |r.1| < |s|
  {
    var t := Skipped(s);
    if t == "" then (None, "")
    else
      var n := TokenLength(t);
      (Some(t[..n]), if n < |t| then t[n + 1..] else "")
  }

  function Tokens(s: string): (tokens: seq<string>)
    decreases |s|
  {
    var (token, rest) := NextToken(s);
    if token.None? then [] else [token.value] + Tokens(rest)
  }

  /** strtok and its hidden position. */
  class Tokenizer {
    var saved: string

    constructor ()
      ensures saved == ""
    {
      saved := "";
    }

    method Strtok(s: Option<string>) returns (token: Option<string>)
      modifies this
      ensures (token, saved) == NextToken(if s.Some? then s.value else old(saved))
    {
      var t := if s.Some? then s.value else saved;
      ghost var start := t;
      while |t| > 0 && IsDelim(t[0])
        invariant Skipped(t) == Skipped(start)
        decreases |t|
      {
        t := t[1..];
      }
      if t == "" {
        saved := "";
        return None;
      }
      var n := 0;
      while n < |t| && !IsDelim(t[n])
        invariant n <= |t| && n + TokenLength(t[n..]) == TokenLength(t)
      {
        assert t[n..][1..] == t[n + 1..];
        n := n + 1;
      }
      token := Some(t[..n]);
      saved := if n < |t| then t[n + 1..] else "";
    }
  }

  // ---- The address ----

  /** Each of the first six tokens sets one byte; bytes without a token keep what they were. */
  function Filled(before: seq<Byte>, tokens: seq<string>): (after: seq<Byte>)
    ensures |after| == |before|
  {
    seq(|before|, i requires 0 <= i < |before| =>
      if i < 6 && i < |tokens| then Value(tokens[i]) % 256 else before[i])
  }

  lemma FilledStep(before: seq<Byte>, tokens: seq<string>, i: nat)
    requires i < 6 == |before| && i < |tokens|
    ensures Filled(before, tokens[..i + 1]) == Filled(before, tokens[..i])[i := Value(tokens[i]) % 256]
  {
    var left, right := Filled(before, tokens[..i + 1]), Filled(before, tokens[..i])[i := Value(tokens[i]) % 256];
    forall k | 0 <= k < 6 ensures left[k] == right[k] {
    }
  }

  lemma FilledEnd(before: seq<Byte>, tokens: seq<string>, i: nat)
    requires |before| == 6 && i <= |tokens| && (i == 6 || i == |tokens|)
    ensures Filled(before, tokens[..i]) == Filled(before, tokens)
  {
    var left, right := Filled(before, tokens[..i]), Filled(before, tokens);
    forall k | 0 <= k < 6 ensures left[k] == right[k] {
    }
  }

  lemma FilledStart(before: seq<Byte>)
    ensures Filled(before, []) == before
  {
  }

  /** The tokens not yet taken: the one at hand and those behind the tokenizer's position. */
  function Ahead(pch: Option<string>, saved: string): (tokens: seq<string>) {
    if pch.None? then [] else [pch.value] + Tokens(saved)
  }

  lemma AheadIsTokens(s: string)
    ensures var (token, rest) := NextToken(s); Ahead(token, rest) == Tokens(s)
  {
  }

  method ParseAddress(macString: string, dstMacAddress: array<Byte>)
    requires dstMacAddress.Length == 6
    modifies dstMacAddress
    ensures dstMacAddress[..] == Filled(old(dstMacAddress[..]), Tokens(macString))
  {
    hide Tokens, NextToken, Filled, Value;
    ghost var all, before := Tokens(macString), dstMacAddress[..];
    var tokenizer := new Tokenizer();
    AheadIsTokens(macString);
    FilledStart(before);
    var pch := tokenizer.Strtok(Some(macString));
    var i := 0;
    while i < 6 && pch.Some?
      invariant i <= 6 && i <= |all| && all[i..] == Ahead(pch, tokenizer.saved)
      invariant dstMacAddress[..] == Filled(before, all[..i])
    {
      assert all[i] == all[i..][0] == pch.value;
      assert all[i + 1..] == all[i..][1..] == Tokens(tokenizer.saved);
      var val := HexStringToU32(pch.value);
      LowByte(Value(pch.value));
      FilledStep(before, all, i);
      dstMacAddress[i] := val % 256;
      AheadIsTokens(tokenizer.saved);
      pch := tokenizer.Strtok(None);
      i := i + 1;
    }
    FilledEnd(before, all, i);
  }

  method ReadKeyMacAddress(macString: Option<string>, dstMacAddress: array<Byte>, defaultAddress: seq<Byte>)
    requires dstMacAddress.Length == 6 == |defaultAddress|
    modifies dstMacAddress
    ensures dstMacAddress[..]
            == if macString.Some? then Filled(old(dstMacAddress[..]), Tokens(macString.value)) else defaultAddress
  {
    if macString.Some? {
      ParseAddress(macString.value, dstMacAddress);
    } else {
      var i := 0;
      while i < 6
        invariant i <= 6 && forall j :: 0 <= j < i ==> dstMacAddress[j] == defaultAddress[j]
      {
        dstMacAddress[i] := defaultAddress[i];
        i := i + 1;
      }
    }
  }

  lemma LowByte(v: nat)
    ensures v % 0x1_0000_0000 % 256 == v % 256
  {
    var q, r := v / 0x1_0000_0000, v % 0x1_0000_0000;
    assert v == 256 * (0x100_0000 * q) + r;
    assert r == 256 * (r / 256) + r % 256;
    assert v == 256 * (0x100_0000 * q + r / 256) + r % 256;
  }

  // ---- The round trip ----

  function HexDigit(d: nat): (c: char)
    requires d < 16
    ensures DigitOf(c) == d && !IsDelim(c)
  {
    if d < 10 then ('0' as int + d) as char else ('a' as int + d - 10) as char
  }

  function TwoDigits(b: Byte): (s: string)
    ensures |s| == 2 && !IsDelim(s[0]) && !IsDelim(s[1])
  {
    [HexDigit(b / 16), HexDigit(b % 16)]
  }

  lemma TwoDigitsValue(b: Byte)
    ensures Value(TwoDigits(b)) == b
  {
    var s := TwoDigits(b);
    assert s[..1] == [s[0]] && s[..1][..0] == "";
    assert Value(s[..1]) == 16 * Value("") + DigitOf(s[0]);
  }

  /** The address as the driver prints it. */
  function Text(address: seq<Byte>): (s: string) {
    if address == [] then ""
    else if |address| == 1 then TwoDigits(address[0])
    else TwoDigits(address[0]) + ":" + Text(address[1..])
  }

  lemma {:induction false} TokensOfText(address: seq<Byte>)
    ensures |Tokens(Text(address))| == |address|
    ensures forall i :: 0 <= i < |address| ==> Tokens(Text(address))[i] == TwoDigits(address[i])
  {
    if address != [] {
      var s, two := Text(address), TwoDigits(address[0]);
      assert s[0] == two[0] && s[1] == two[1] && s[..2] == two;
      assert TokenLength(s) == 2 by {
        assert |address| > 1 ==> s[2] == ':';
      }
      if |address| > 1 {
        assert s[3..] == Text(address[1..]);
        TokensOfText(address[1..]);
      }
    }
  }

  lemma FilledExact(before: seq<Byte>, tokens: seq<string>, address: seq<Byte>)
    requires |address| == |before| == |tokens| == 6
    requires forall i :: 0 <= i < 6 ==> Value(tokens[i]) == address[i]
    ensures Filled(before, tokens) == address
  {
    forall i | 0 <= i < 6 ensures Filled(before, tokens)[i] == address[i] {
    }
  }

  /** Reading back the text of any address gives the address, whatever was there before. */
  lemma TextRoundTrip(address: seq<Byte>, before: seq<Byte>)
    requires |address| == |before| == 6
    ensures Filled(before, Tokens(Text(address))) == address
  {
    hide Tokens, Text, Value;
    var tokens := Tokens(Text(address));
    TokensOfText(address);
    forall i | 0 <= i < 6 ensures Value(tokens[i]) == address[i] {
      TwoDigitsValue(address[i]);
    }
    FilledExact(before, tokens, address);
  }

  // ---- What the text may look like ----

  const CAPITALS := "0123456789ABCDEF"
  const SMALLS := "0123456789abcdef"

  predicate Separators(s: string) {
    forall i :: 0 <= i < |s| ==> s[i] == ':' || s[i] == ' '
  }

  predicate Word(s: string) {
    s != "" && forall i :: 0 <= i < |s| ==> s[i] != ':' && s[i] != ' '
  }

  /** Each word behind its gap, and the tail behind the last. */
  function Joined(gaps: seq<string>, words: seq<string>, tail: string): (s: string)
    requires |gaps| == |words|
  {
    if words == [] then tail else gaps[0] + (words[0] + Joined(gaps[1..], words[1..], tail))
  }

  /** Only the first gap may be empty. */
  predicate Separated(gaps: seq<string>, words: seq<string>, tail: string) {
    && |gaps| == |words|
    && (forall i :: 0 <= i < |gaps| ==> Separators(gaps[i]) && Word(words[i]))
    && (forall i :: 0 < i < |gaps| ==> gaps[i] != "")
    && Separators(tail)
  }

  lemma {:induction false} GapSkipped(gap: string, s: string)
    requires Separators(gap) && (s == "" || !IsDelim(s[0]))
    ensures Skipped(gap + s) == s
  {
    if gap == "" {
      assert gap + s == s;
    } else {
      assert (gap + s)[1..] == gap[1..] + s;
      GapSkipped(gap[1..], s);
    }
  }

  lemma {:induction false} WordTaken(word: string, s: string)
    requires Word(word) || word == ""
    requires s == "" || IsDelim(s[0])
    ensures TokenLength(word + s) == |word|
  {
    if word == "" {
      assert word + s == s;
    } else {
      assert (word + s)[1..] == word[1..] + s;
      WordTaken(word[1..], s);
    }
  }

  lemma FirstToken(gap: string, word: string, rest: string)
    requires Separators(gap) && Word(word) && (rest == "" || IsDelim(rest[0]))
    ensures NextToken(gap + (word + rest)) == (Some(word), if rest == "" then "" else rest[1..])
  {
    var s := word + rest;
    GapSkipped(gap, s);
    WordTaken(word, rest);
    assert s[..|word|] == word;
    assert rest != "" ==> s[|word| + 1..] == rest[1..];
  }

  /** The first character of the first gap is the one strtok steps over. */
  lemma GapShortened(gaps: seq<string>, words: seq<string>, tail: string)
    requires Separated(gaps, words, tail) && words != [] && gaps[0] != ""
    ensures Separated([gaps[0][1..]] + gaps[1..], words, tail)
    ensures Joined(gaps, words, tail)[0] == gaps[0][0]
    ensures Joined(gaps, words, tail)[1..] == Joined([gaps[0][1..]] + gaps[1..], words, tail)
  {
    var shorter := [gaps[0][1..]] + gaps[1..];
    assert shorter[1..] == gaps[1..];
    var behind := words[0] + Joined(gaps[1..], words[1..], tail);
    assert (gaps[0] + behind)[1..] == gaps[0][1..] + behind;
  }

  lemma {:induction false} OneMore(s: string, word: string, rest: string)
    requires NextToken(s) == (Some(word), rest)
    ensures Tokens(s) == [word] + Tokens(rest)
  {
  }

  lemma {:induction false} NoMore(gap: string)
    requires Separators(gap)
    ensures Tokens(gap) == []
  {
    GapSkipped(gap, "");
    assert gap + "" == gap;
  }

  /** The tokens are the words between runs of colons and blanks, whatever the runs. */
  lemma {:induction false} TokensAreWords(gaps: seq<string>, words: seq<string>, tail: string)
    requires Separated(gaps, words, tail)
    ensures Tokens(Joined(gaps, words, tail)) == words
    decreases |words|
  {
    if words == [] {
      NoMore(tail);
    } else {
      var s, rest := Joined(gaps, words, tail), Joined(gaps[1..], words[1..], tail);
      assert words == [words[0]] + words[1..];
      if |words| == 1 {
        assert rest == tail && words[1..] == [];
        var left := if tail == "" then "" else tail[1..];
        hide Tokens, NextToken;
        FirstToken(gaps[0], words[0], tail);
        OneMore(s, words[0], left);
        NoMore(left);
      } else {
        GapShortened(gaps[1..], words[1..], tail);
        assert gaps[1..][1..] == gaps[2..];
        hide Tokens, NextToken;
        FirstToken(gaps[0], words[0], rest);
        OneMore(s, words[0], rest[1..]);
        TokensAreWords([gaps[1][1..]] + gaps[2..], words[1..], tail);
      }
    }
  }

  lemma EitherCase(c: char, d: nat)
    requires d < 16 && (c == CAPITALS[d] || c == SMALLS[d])
    ensures DigitOf(c) == d && c != ':' && c != ' '
  {
  }

  lemma {:induction false} PairValue(s: string, b: Byte)
    requires |s| == 2
    requires s[0] == CAPITALS[b / 16] || s[0] == SMALLS[b / 16]
    requires s[1] == CAPITALS[b % 16] || s[1] == SMALLS[b % 16]
    ensures Value(s) == b && Word(s)
  {
    EitherCase(s[0], b / 16);
    EitherCase(s[1], b % 16);
    hide DigitOf;
    assert s[..1] == [s[0]] && s[..1][..0] == "";
    assert Value(s[..1]) == 16 * Value("") + DigitOf(s[0]);
  }

  /**
   * Six pairs of hexadecimal digits in either letter case, with any runs of colons and blanks between,
   * before and behind them, are read as the address.
   */
  lemma AnySpellingRead(gaps: seq<string>, words: seq<string>, tail: string, address: seq<Byte>, before: seq<Byte>)
    requires |address| == |before| == |words| == |gaps| == 6
    requires forall i :: 0 <= i < 6 ==> Separators(gaps[i]) && (i > 0 ==> gaps[i] != "")
    requires forall i :: 0 <= i < 6 ==>
      && |words[i]| == 2
      && (words[i][0] == CAPITALS[address[i] / 16] || words[i][0] == SMALLS[address[i] / 16])
      && (words[i][1] == CAPITALS[address[i] % 16] || words[i][1] == SMALLS[address[i] % 16])
    requires Separators(tail)
    ensures Filled(before, Tokens(Joined(gaps, words, tail))) == address
  {
    hide Tokens, Joined, Value, Word;
    forall i | 0 <= i < 6 ensures Word(words[i]) && Value(words[i]) == address[i] {
      PairValue(words[i], address[i]);
    }
    TokensAreWords(gaps, words, tail);
    FilledExact(before, words, address);
  }
}
