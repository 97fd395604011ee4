/** Unpadded base64url (section 5 of RFC 4648) as Go's `base64.RawURLEncoding` implements it.
    The decoder is the lenient one: it skips CR and LF and ignores the unused low bits of the
    last symbol. */
module Base64Url {
  import opened Errors

  type Byte = b: int | 0 <= b < 256
  type Sextet = v: int | 0 <= v < 64

  function Symbol(v: Sextet): char {
    if v < 26 then ('A' as int + v) as char
    else if v < 52 then ('a' as int + (v - 26)) as char
    else if v < 62 then ('0' as int + (v - 52)) as char
    else if v == 62 then '-' else '_'
  }

  function SymbolValue(c: char): Option<Sextet> {
    if 'A' <= c <= 'Z' then Some(c as int - 'A' as int)
    else if 'a' <= c <= 'z' then Some(c as int - 'a' as int + 26)
    else if '0' <= c <= '9' then Some(c as int - '0' as int + 52)
    else if c == '-' then Some(62)
    else if c == '_' then Some(63)
    else None
  }

  /** The bytes regrouped six bits at a time, zero-filled at the end. */
  function Sextets(b: seq<Byte>): seq<Sextet> {
    if |b| == 0 then []
    else if |b| == 1 then [b[0] / 4, b[0] % 4 * 16]
    else if |b| == 2 then [b[0] / 4, b[0] % 4 * 16 + b[1] / 16, b[1] % 16 * 4]
    else [b[0] / 4, b[0] % 4 * 16 + b[1] / 16, b[1] % 16 * 4 + b[2] / 64, b[2] % 64] + Sextets(b[3..])
  }

  function Byte0(a: int, b: int): Byte
    requires 0 <= a < 64 && 0 <= b < 64
  {
    a * 4 + b / 16
  }

  function Byte1(a: int, b: int): Byte
    requires 0 <= a < 64 && 0 <= b < 64
  {
    a % 16 * 16 + b / 4
  }

  function Byte2(a: int, b: int): Byte
    requires 0 <= a < 64 && 0 <= b < 64
  {
    a % 4 * 64 + b
  }

  /** The inverse regrouping; a single left-over sextet holds no whole byte. */
  function Bytes(v: seq<Sextet>): Option<seq<Byte>> {
    if |v| == 0 then Some([])
    else if |v| == 1 then None
    else if |v| == 2 then Some([Byte0(v[0], v[1])])
    else if |v| == 3 then Some([Byte0(v[0], v[1]), Byte1(v[1], v[2])])
    else match Bytes(v[4..])
      case None => None
      case Some(rest) => Some([Byte0(v[0], v[1]), Byte1(v[1], v[2]), Byte2(v[2], v[3])] + rest)
  }

  function Spell(v: seq<Sextet>): string {
    seq(|v|, i requires 0 <= i < |v| => Symbol(v[i]))
  }

  function Read(s: string): Option<seq<Sextet>> {
    if forall i :: 0 <= i < |s| ==> SymbolValue(s[i]).Some?
    then Some(seq(|s|, i requires 0 <= i < |s| => SymbolValue(s[i]).value))
    else None
  }

  function WithoutNewlines(s: string): string {
    if s == "" then ""
    else if s[0] == '\r' || s[0] == '\n' then WithoutNewlines(s[1..])
    else [s[0]] + WithoutNewlines(s[1..])
  }

  function Encode(b: seq<Byte>): string {
    Spell(Sextets(b))
  }

  function Decode(s: string): Option<seq<Byte>> {
    match Read(WithoutNewlines(s))
    case None => None
    case Some(v) => Bytes(v)
  }

  /** The bits of the last symbol that belong to no byte are zero. */
  predicate TailBitsZero(v: seq<Sextet>) {
    && (|v| % 4 == 2 ==> v[|v| - 1] % 16 == 0)
    && (|v| % 4 == 3 ==> v[|v| - 1] % 4 == 0)
  }

  predicate Canonical(s: string) {
    && '\r' !in s && '\n' !in s
    && (Read(s).Some? ==> TailBitsZero(Read(s).value))
  }

  lemma SymbolRoundTrip(v: Sextet)
    ensures SymbolValue(Symbol(v)) == Some(v)
    ensures Symbol(v) != '\r' && Symbol(v) != '\n' && Symbol(v) != '='
  {}

  lemma SymbolValueInverse(c: char)
    requires SymbolValue(c).Some?
    ensures Symbol(SymbolValue(c).value) == c
  {}

  lemma RejoinBytes(a: Byte, b: Byte, c: Byte)
    ensures Byte0(a / 4, a % 4 * 16 + b / 16) == a
    ensures Byte1(a % 4 * 16 + b / 16, b % 16 * 4 + c / 64) == b
    ensures Byte2(b % 16 * 4 + c / 64, c % 64) == c
  {}

  lemma ResplitSextets(p: Sextet, q: Sextet, r: Sextet, s: Sextet)
    ensures var b, c, d := Byte0(p, q), Byte1(q, r), Byte2(r, s);
            && b / 4 == p && b % 4 * 16 + c / 16 == q
            && c % 16 * 4 + d / 64 == r && d % 64 == s
            && b % 4 * 16 == q - q % 16 && c % 16 * 4 == r - r % 4
  {}

  lemma {:induction false} RegroupLength(b: seq<Byte>)
    ensures |Sextets(b)| == (4 * |b| + 2) / 3
  {
    if |b| >= 3 { RegroupLength(b[3..]); }
  }

  lemma {:induction false} RegroupPadding(b: seq<Byte>)
    ensures TailBitsZero(Sextets(b))
  {
    if |b| >= 3 {
      RegroupPadding(b[3..]);
      assert Sextets(b)[4..] == Sextets(b[3..]);
      TailBitsShift(Sextets(b));
    }
  }

  lemma {:induction false} RegroupRoundTrip(b: seq<Byte>)
    ensures Bytes(Sextets(b)) == Some(b)
  {
    if |b| == 0 {
    } else if |b| == 1 {
      RejoinBytes(b[0], 0, 0);
      assert b == [b[0]];
    } else if |b| == 2 {
      RejoinBytes(b[0], b[1], 0);
      assert b == [b[0], b[1]];
    } else {
      RegroupRoundTrip(b[3..]);
      assert Sextets(b)[4..] == Sextets(b[3..]);
      RejoinBytes(b[0], b[1], b[2]);
      assert b == [b[0], b[1], b[2]] + b[3..];
    }
  }

  /** Three bytes determine the four sextets they came from. */
  lemma QuadInverse(p: Sextet, q: Sextet, r: Sextet, s: Sextet, rest: seq<Byte>)
    ensures Sextets([Byte0(p, q), Byte1(q, r), Byte2(r, s)] + rest) == [p, q, r, s] + Sextets(rest)
  {
    var b := [Byte0(p, q), Byte1(q, r), Byte2(r, s)] + rest;
    assert b[3..] == rest;
    ResplitSextets(p, q, r, s);
  }

  /** The two left-over shapes: the unused bits are dropped, the others come back. */
  lemma PairInverse(p: Sextet, q: Sextet)
    ensures Sextets([Byte0(p, q)]) == [p, q - q % 16]
  {
    ResplitSextets(p, q, 0, 0);
  }

  lemma TripleInverse(p: Sextet, q: Sextet, r: Sextet)
    ensures Sextets([Byte0(p, q), Byte1(q, r)]) == [p, q, r - r % 4]
  {
    ResplitSextets(p, q, r, 0);
  }

  lemma TailInverse(v: seq<Sextet>, b: seq<Byte>)
    requires |v| < 4 && Bytes(v) == Some(b)
    ensures Sextets(b) == v <==> TailBitsZero(v)
  {
    if |v| == 2 {
      PairInverse(v[0], v[1]);
      assert b == [Byte0(v[0], v[1])];
      assert Sextets(b)[0] == v[0];
      assert Sextets(b)[1] == v[1] <==> v[1] % 16 == 0;
    } else if |v| == 3 {
      TripleInverse(v[0], v[1], v[2]);
      assert b == [Byte0(v[0], v[1]), Byte1(v[1], v[2])];
      assert Sextets(b)[..2] == v[..2];
      assert Sextets(b)[2] == v[2] <==> v[2] % 4 == 0;
    }
  }

  lemma TailBitsShift(v: seq<Sextet>)
    requires |v| >= 4
    ensures TailBitsZero(v) <==> TailBitsZero(v[4..])
  {
    if |v| > 4 { assert v[|v| - 1] == v[4..][|v| - 5]; }
  }

  lemma {:induction false} RegroupInverse(v: seq<Sextet>)
    requires Bytes(v).Some?
    ensures Sextets(Bytes(v).value) == v <==> TailBitsZero(v)
  {
    if |v| < 4 {
      TailInverse(v, Bytes(v).value);
    } else {
      RegroupInverse(v[4..]);
      TailBitsShift(v);
      var rest := Bytes(v[4..]).value;
      QuadInverse(v[0], v[1], v[2], v[3], rest);
      var again := Sextets(Bytes(v).value);
      assert v == [v[0], v[1], v[2], v[3]] + v[4..];
      assert again[4..] == Sextets(rest);
    }
  }

  lemma {:induction false} NothingToStrip(s: string)
    requires '\r' !in s && '\n' !in s
    ensures WithoutNewlines(s) == s
  {
    if s != "" {
      assert s == [s[0]] + s[1..];
      NothingToStrip(s[1..]);
    }
  }

  lemma {:induction false} StrippedIsShorter(s: string)
    ensures |WithoutNewlines(s)| <= |s|
    ensures WithoutNewlines(s) == s ==> '\r' !in s && '\n' !in s
  {
    if s != "" {
      StrippedIsShorter(s[1..]);
      assert s == [s[0]] + s[1..];
      if WithoutNewlines(s) == s {
        assert WithoutNewlines(s[1..]) == WithoutNewlines(s)[1..];
      }
    }
  }

  lemma SpellRoundTrip(v: seq<Sextet>)
    ensures Read(Spell(v)) == Some(v)
    ensures '\r' !in Spell(v) && '\n' !in Spell(v) && '=' !in Spell(v)
  {
    forall i | 0 <= i < |v|
      ensures SymbolValue(Spell(v)[i]) == Some(v[i])
      ensures Spell(v)[i] != '\r' && Spell(v)[i] != '\n' && Spell(v)[i] != '='
    {
      SymbolRoundTrip(v[i]);
    }
    assert Read(Spell(v)).value == v;
  }

  /** Encoding never pads and decodes to the same bytes, whatever they are. */
  lemma RoundTrip(b: seq<Byte>)
    ensures Decode(Encode(b)) == Some(b)
    ensures Canonical(Encode(b))
    ensures '=' !in Encode(b) && |Encode(b)| == (4 * |b| + 2) / 3
  {
    RegroupRoundTrip(b);
    RegroupLength(b);
    RegroupPadding(b);
    SpellRoundTrip(Sextets(b));
    NothingToStrip(Encode(b));
  }

  /** Decoded text is spelled the same way again exactly when it was canonical. */
  lemma ReencodeIffCanonical(s: string)
    requires Decode(s).Some?
    ensures Encode(Decode(s).value) == s <==> Canonical(s)
  {
    var t := WithoutNewlines(s);
    var v := Read(t).value;
    RegroupInverse(v);
    SpellRoundTrip(v);
    assert Spell(v) == t by {
      forall i | 0 <= i < |t| ensures Spell(v)[i] == t[i] { SymbolValueInverse(t[i]); }
    }
    if Canonical(s) {
      NothingToStrip(s);
    } else if Encode(Decode(s).value) == s {
      SpellRoundTrip(Sextets(Bytes(v).value));
      NothingToStrip(s);
      assert false;
    }
  }

  // ---- What the decoder accepts -------------------------------------------------------------------

  predicate NewLine(c: char) { c == '\r' || c == '\n' }

  lemma {:induction false} StripJoins(a: string, b: string)
    ensures WithoutNewlines(a + b) == WithoutNewlines(a) + WithoutNewlines(b)
  {
    if a == "" {
      assert a + b == b;
    } else {
      assert (a + b)[0] == a[0] && (a + b)[1..] == a[1..] + b;
      StripJoins(a[1..], b);
    }
  }

  /** A line break anywhere changes nothing. */
  lemma NewlinesAreSkipped(s: string, i: nat, c: char)
    requires i <= |s| && NewLine(c)
    ensures Decode(s[..i] + [c] + s[i..]) == Decode(s)
  {
    StripJoins(s[..i], [c] + s[i..]);
    StripJoins([c], s[i..]);
    StripJoins(s[..i], s[i..]);
    assert s[..i] + s[i..] == s && s[..i] + ([c] + s[i..]) == s[..i] + [c] + s[i..];
    assert WithoutNewlines([c]) == "";
  }

  lemma {:induction false} WholeGroups(v: seq<Sextet>)
    ensures Bytes(v).None? <==> |v| % 4 == 1
  {
    if |v| >= 4 { WholeGroups(v[4..]); }
  }

  lemma OneMoreSymbol(c: char, u: string)
    ensures Read([c] + u).Some? <==> SymbolValue(c).Some? && Read(u).Some?
  {
    var t := [c] + u;
    assert forall i :: 0 < i < |t| ==> t[i] == u[i - 1];
    assert forall i :: 0 <= i < |u| ==> u[i] == t[i + 1];
    assert t[0] == c;
  }

  lemma {:induction false} StrippedReads(s: string)
    ensures Read(WithoutNewlines(s)).Some? <==>
            forall i :: 0 <= i < |s| ==> NewLine(s[i]) || SymbolValue(s[i]).Some?
  {
    if s != "" {
      StrippedReads(s[1..]);
      var u := WithoutNewlines(s[1..]);
      assert forall i :: 0 < i < |s| ==> s[i] == s[1..][i - 1];
      assert forall i :: 0 <= i < |s[1..]| ==> s[1..][i] == s[i + 1];
      if !NewLine(s[0]) { OneMoreSymbol(s[0], u); }
    }
  }

  /** Text decodes exactly when, line breaks aside, it is made of the alphabet's symbols and does not
      leave a single one over. */
  lemma DecodesIff(s: string)
    ensures Decode(s).Some? <==>
            && (forall i :: 0 <= i < |s| ==> NewLine(s[i]) || SymbolValue(s[i]).Some?)
            && |WithoutNewlines(s)| % 4 != 1
  {
    StrippedReads(s);
    var v := Read(WithoutNewlines(s));
    if v.Some? { WholeGroups(v.value); }
  }

  /** The example of section 9 of RFC 4648, in the alphabet of its section 5, and the two symbols in
      which the alphabets differ. */
  lemma KnownText()
    ensures Encode([0x14, 0xfb, 0x9c, 0x03, 0xd9, 0x7e]) == "FPucA9l-"
    ensures Encode([0xfb, 0xff]) == "-_8"
  {
    var b: seq<Byte> := [0x14, 0xfb, 0x9c, 0x03, 0xd9, 0x7e];
    assert b[3..] == [0x03, 0xd9, 0x7e] && b[3..][3..] == [];
    assert Sextets(b[3..]) == [0, 61, 37, 62] + Sextets([]);
    assert Sextets(b) == [5, 15, 46, 28, 0, 61, 37, 62];
    assert Sextets([0xfb, 0xff]) == [62, 63, 60];
  }
}
