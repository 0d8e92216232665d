/** What a key means: its characters and escapes, as code units. */
module JsonKeys {
  import opened Common
  import opened Json

  /** A character as it stands, a short escape, or one of four hexadecimal digits: section 7 of RFC 8259. */
  datatype Piece = Plain(c: char) | Short(c: char) | Unicode(a: char, b: char, c: char, d: char)

  function Text(p: Piece): (s: string)
    ensures s != ""
  {
    match p
    case Plain(c) => [c]
    case Short(c) => ['\\', c]
    case Unicode(a, b, c, d) => ['\\', 'u', a, b, c, d]
  }

  function Texts(ps: seq<Piece>): string {
    if ps == [] then "" else Text(ps[0]) + Texts(ps[1..])
  }

  /** A hexadecimal digit, of either case. */
  ghost predicate HexIs(c: char, d: nat) {
    if d < 10 then c as nat == 0x30 + d else d < 16 && (c as nat == 0x61 + d - 10 || c as nat == 0x41 + d - 10)
  }

  const SHORT_ESCAPES: map<char, nat> :=
    map['"' := 0x22, '\\' := 0x5C, '/' := 0x2F, 'b' := 0x08, 'f' := 0x0C, 'n' := 0x0A, 'r' := 0x0D, 't' := 0x09]

  /** A character outside the basic plane stands for two surrogates. */
  ghost predicate UnitsOf(c: char, units: seq<nat>) {
    if c as nat < 0x10000 then units == [c as nat]
    else
      && |units| == 2 && 0xD800 <= units[0] < 0xDC00 <= units[1] < 0xE000
      && (units[0] - 0xD800) * 0x400 + (units[1] - 0xDC00) + 0x10000 == c as nat
  }

  ghost predicate Means(p: Piece, units: seq<nat>) {
    match p
    case Plain(c) => c as nat >= 0x20 && c != '"' && c != '\\' && UnitsOf(c, units)
    case Short(c) => c in SHORT_ESCAPES && units == [SHORT_ESCAPES[c]]
    case Unicode(a, b, c, d) =>
      exists h3: nat, h2: nat, h1: nat, h0: nat ::
        && HexIs(a, h3) && HexIs(b, h2) && HexIs(c, h1) && HexIs(d, h0)
        && units == [h3 * 0x1000 + h2 * 0x100 + h1 * 0x10 + h0]
  }

  ghost predicate AllMean(ps: seq<Piece>, units: seq<nat>) {
    if ps == [] then units == []
    else exists k: nat :: 0 <= k <= |units| && Means(ps[0], units[..k]) && AllMean(ps[1..], units[k..])
  }

  lemma {:induction false} HexExactly(c: char, d: nat)
    ensures HexValue(c) == Some(d) <==> HexIs(c, d)
  {
  }

  lemma {:induction false} UnitsExactly(c: char, units: seq<nat>)
    ensures UnitsOf(c, units) <==> units == Units(c)
  {
    if c as nat >= 0x10000 {
      var u := c as nat - 0x10000;
      assert u == u / 0x400 * 0x400 + u % 0x400;
    }
  }

  lemma {:induction false} EscapedExactly(c: char)
    ensures Escaped(c) == if c in SHORT_ESCAPES then Some(SHORT_ESCAPES[c]) else None
  {
  }

  /** One escape or character at the front of a key, and what it means. */
  lemma {:induction false} PieceDecodes(p: Piece, units: seq<nat>, rest: string)
    requires Means(p, units)
    ensures var more := DecodeInside(rest);
            DecodeInside(Text(p) + rest) == if more.None? then None else Some(units + more.value)
  {
    hide HexValue, HexIs, Escaped, Units, UnitsOf;
    var s := Text(p) + rest;
    match p {
      case Plain(c) =>
        UnitsExactly(c, units);
        assert s[0] == c && s[1..] == rest;
      case Short(c) =>
        EscapedExactly(c);
        assert s[0] == '\\' && s[1..][0] == c && s[1 + 1..] == rest;
      case Unicode(a, b, c, d) =>
        var h3: nat, h2: nat, h1: nat, h0: nat :|
          && HexIs(a, h3) && HexIs(b, h2) && HexIs(c, h1) && HexIs(d, h0)
          && units == [h3 * 0x1000 + h2 * 0x100 + h1 * 0x10 + h0];
        HexExactly(a, h3);
        HexExactly(b, h2);
        HexExactly(c, h1);
        HexExactly(d, h0);
        assert s[1..][..5] == ['u', a, b, c, d] && s[1 + 5..] == rest;
        assert Escape(s[1..]) == Some((((h3 * 16 + h2) * 16 + h1) * 16 + h0, 5));
    }
  }

  lemma {:induction false} QuoteEnds()
    ensures DecodeInside("\"") == Some([])
  {
  }

  lemma {:induction false} PiecesDecode(ps: seq<Piece>, units: seq<nat>)
    requires AllMean(ps, units)
    ensures DecodeInside(Texts(ps) + "\"") == Some(units)
  {
    hide DecodeInside, Means, Text;
    if ps == [] {
      QuoteEnds();
      assert Texts(ps) + "\"" == "\"";
    } else {
      var k: nat :| 0 <= k <= |units| && Means(ps[0], units[..k]) && AllMean(ps[1..], units[k..]);
      PiecesDecode(ps[1..], units[k..]);
      PieceDecodes(ps[0], units[..k], Texts(ps[1..]) + "\"");
      assert Texts(ps) + "\"" == Text(ps[0]) + (Texts(ps[1..]) + "\"");
      assert units[..k] + units[k..] == units;
    }
  }

  /** The first piece of a key that can be decoded. */
  lemma {:induction false} FirstPiece(s: string) returns (p: Piece, k: nat)
    requires DecodeInside(s).Some? && s != "\""
    ensures var units := DecodeInside(s).value;
            && k <= |units| && Means(p, units[..k]) && Text(p) <= s
            && DecodeInside(s[|Text(p)|..]) == Some(units[k..])
  {
    hide HexValue, HexIs, Escaped, Units, UnitsOf;
    var units := DecodeInside(s).value;
    if s[0] == '\\' {
      var e := Escape(s[1..]).value;
      k := 1;
      assert units[..1] == [e.0] && units[1..] == DecodeInside(s[1 + e.1..]).value;
      if s[1] != 'u' {
        p := Short(s[1]);
        EscapedExactly(s[1]);
      } else {
        p := Unicode(s[2], s[3], s[4], s[5]);
        HexExactly(s[2], HexValue(s[2]).value);
        HexExactly(s[3], HexValue(s[3]).value);
        HexExactly(s[4], HexValue(s[4]).value);
        HexExactly(s[5], HexValue(s[5]).value);
      }
    } else {
      p := Plain(s[0]);
      k := |Units(s[0])|;
      UnitsExactly(s[0], Units(s[0]));
      var more := DecodeInside(s[1..]).value;
      assert units == Units(s[0]) + more && units[..k] == Units(s[0]) && units[k..] == more;
    }
  }

  lemma {:induction false} DecodesAsPieces(s: string) returns (ps: seq<Piece>)
    requires DecodeInside(s).Some?
    ensures s == Texts(ps) + "\"" && AllMean(ps, DecodeInside(s).value)
    decreases |s|
  {
    if s == "\"" {
      ps := [];
    } else {
      var p, k := FirstPiece(s);
      var rest := s[|Text(p)|..];
      var more := DecodesAsPieces(rest);
      ps := [p] + more;
      assert ps[1..] == more && s == Text(p) + rest;
    }
  }

  /** A key means some code units if and only if it is written in pieces that mean them. */
  lemma {:induction false} KeyExactly(token: string, units: seq<nat>)
    ensures Decode(token) == Some(units)
            <==> exists ps :: token == ['"'] + (Texts(ps) + "\"") && AllMean(ps, units)
  {
    hide DecodeInside, AllMean, Texts;
    if Decode(token) == Some(units) {
      var ps := DecodesAsPieces(token[1..]);
      assert token == ['"'] + token[1..];
    }
    if exists ps :: token == ['"'] + (Texts(ps) + "\"") && AllMean(ps, units) {
      var ps :| token == ['"'] + (Texts(ps) + "\"") && AllMean(ps, units);
      PiecesDecode(ps, units);
      assert token[1..] == Texts(ps) + "\"";
    }
  }
}
