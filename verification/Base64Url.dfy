/** URL-safe base64 with padding (section 5 of RFC 4648). */
module Base64Url {
  import opened Options

  /** Two bits. */
  type Crumb = x: int | 0 <= x < 4

  /** Eight bits and six bits, the most significant first. */
  datatype Byte = Byte(a: Crumb, b: Crumb, c: Crumb, d: Crumb)
  datatype Sextet = Sextet(a: Crumb, b: Crumb, c: Crumb)

  const ZERO := Byte(0, 0, 0, 0)

  /** Three bytes as four sextets: the same 24 bits, cut every six instead of every eight. */
  function Quad(p: Byte, q: Byte, r: Byte): (Sextet, Sextet, Sextet, Sextet) {
    (Sextet(p.a, p.b, p.c), Sextet(p.d, q.a, q.b), Sextet(q.c, q.d, r.a), Sextet(r.b, r.c, r.d))
  }

  function First(w: Sextet, x: Sextet): Byte { Byte(w.a, w.b, w.c, x.a) }
  function Second(x: Sextet, y: Sextet): Byte { Byte(x.b, x.c, y.a, y.b) }
  function Third(y: Sextet, z: Sextet): Byte { Byte(y.c, z.a, z.b, z.c) }

  // ----- over any alphabet of 64 letters -----

  type Letters = Sextet -> char
  type Places = char -> Option<Sextet>

  function EncodeWith(letter: Letters, bs: seq<Byte>): string {
    if |bs| == 0 then ""
    else if |bs| == 1 then
      var (w, x, _, _) := Quad(bs[0], ZERO, ZERO);
      [letter(w), letter(x), '=', '=']
    else if |bs| == 2 then
      var (w, x, y, _) := Quad(bs[0], bs[1], ZERO);
      [letter(w), letter(x), letter(y), '=']
    else
      var (w, x, y, z) := Quad(bs[0], bs[1], bs[2]);
      [letter(w), letter(x), letter(y), letter(z)] + EncodeWith(letter, bs[3..])
  }

  /** The last four characters, the only ones that may hold padding. */
  function DecodeLast(place: Places, s: string): Option<seq<Byte>>
    requires |s| == 4
  {
    var w, x, y, z := place(s[0]), place(s[1]), place(s[2]), place(s[3]);
    if w.None? || x.None? then None
    else if s[2] == '=' && s[3] == '=' then Some([First(w.value, x.value)])
    else if y.None? then None
    else if s[3] == '=' then Some([First(w.value, x.value), Second(x.value, y.value)])
    else if z.None? then None
    else Some([First(w.value, x.value), Second(x.value, y.value), Third(y.value, z.value)])
  }

  function DecodeWith(place: Places, s: string): Option<seq<Byte>> {
    if |s| == 0 then Some([])
    else if |s| < 4 then None
    else if |s| == 4 then DecodeLast(place, s)
    else
      var head, rest := DecodeLast(place, s[..4]), DecodeWith(place, s[4..]);
      if head.None? || rest.None? || s[2] == '=' || s[3] == '=' then None else Some(head.value + rest.value)
  }

  /** The places are those of the letters, and the padding is not a letter. */
  ghost predicate IsAlphabet(letter: Letters, place: Places) {
    forall s :: place(letter(s)) == Some(s) && letter(s) != '='
  }

  lemma {:induction false} DecodeEncodeWith(letter: Letters, place: Places, bs: seq<Byte>)
    requires IsAlphabet(letter, place)
    ensures DecodeWith(place, EncodeWith(letter, bs)) == Some(bs)
  {
    if |bs| == 1 {
      assert bs == [bs[0]];
    } else if |bs| == 2 {
      assert bs == [bs[0], bs[1]];
    } else if |bs| >= 3 {
      DecodeEncodeWith(letter, place, bs[3..]);
      var (w, x, y, z) := Quad(bs[0], bs[1], bs[2]);
      var head := [letter(w), letter(x), letter(y), letter(z)];
      assert DecodeLast(place, head) == Some([bs[0], bs[1], bs[2]]);
      assert bs == [bs[0], bs[1], bs[2]] + bs[3..];
      DecodeGroup(place, head, EncodeWith(letter, bs[3..]));
    }
  }

  lemma DecodeGroup(place: Places, head: string, rest: string)
    requires |head| == 4 && head[2] != '=' && head[3] != '='
    requires DecodeLast(place, head).Some? && DecodeWith(place, rest).Some?
    ensures DecodeWith(place, head + rest) == Some(DecodeLast(place, head).value + DecodeWith(place, rest).value)
  {
    hide DecodeLast;
    assert (head + rest)[..4] == head && (head + rest)[4..] == rest;
    if rest == "" {
      assert head + rest == head;
      assert DecodeLast(place, head).value + [] == DecodeLast(place, head).value;
    }
  }

  // ----- the URL-safe alphabet -----

  function Number(s: Sextet): (i: int)
    ensures 0 <= i < 64
  {
    16 * s.a + 4 * s.b + s.c
  }

  function Bits(i: int): Sextet
    requires 0 <= i < 64
  {
    Sextet(i / 16, i / 4 % 4, i % 4)
  }

  function LetterAt(i: int): char
    requires 0 <= i < 64
  {
    if i < 26 then 'A' + i as char
    else if i < 52 then 'a' + (i - 26) as char
    else if i < 62 then '0' + (i - 52) as char
    else if i == 62 then '-' else '_'
  }

  function Position(c: char): (i: int)
    ensures -1 <= i < 64
  {
    if 'A' <= c <= 'Z' then c as int - 'A' as int
    else if 'a' <= c <= 'z' then c as int - 'a' as int + 26
    else if '0' <= c <= '9' then c as int - '0' as int + 52
    else if c == '-' then 62
    else if c == '_' then 63
    else -1
  }

  function Letter(s: Sextet): char { LetterAt(Number(s)) }

  /** None outside the alphabet. */
  function Index(c: char): Option<Sextet> {
    if Position(c) < 0 then None else Some(Bits(Position(c)))
  }

  lemma PositionOfLetter(i: int)
    requires 0 <= i < 64
    ensures Position(LetterAt(i)) == i && LetterAt(i) != '='
  {
  }

  lemma BitsOfNumber(s: Sextet)
    ensures Bits(Number(s)) == s
  {
    var i := 4 * s.a + s.b;
    assert Number(s) == 4 * i + s.c;
    assert Number(s) / 4 == i;
  }

  lemma UrlSafeAlphabet()
    ensures IsAlphabet(Letter, Index)
  {
    hide LetterAt, Position, Number, Bits;
    forall s: Sextet
      ensures Index(Letter(s)) == Some(s) && Letter(s) != '='
    {
      PositionOfLetter(Number(s));
      BitsOfNumber(s);
    }
  }

  function Encode(bs: seq<Byte>): string { EncodeWith(Letter, bs) }

  function Decode(s: string): Option<seq<Byte>> { DecodeWith(Index, s) }

  /** Decoding what was encoded gives the bytes back. */
  lemma DecodeEncode(bs: seq<Byte>)
    ensures Decode(Encode(bs)) == Some(bs)
  {
    UrlSafeAlphabet();
    hide Letter, Index, EncodeWith, DecodeWith;
    DecodeEncodeWith(Letter, Index, bs);
  }

  // ----- the alphabet and the bits, written out (sections 5 and 10 of RFC 4648) -----

  /** The alphabet: capitals, small letters, digits, minus and underscore, in this order. */
  lemma AlphabetExactly()
    ensures LetterAt(0) == 'A' && LetterAt(25) == 'Z' && LetterAt(26) == 'a' && LetterAt(51) == 'z'
    ensures LetterAt(52) == '0' && LetterAt(61) == '9' && LetterAt(62) == '-' && LetterAt(63) == '_'
    ensures forall i, j :: 0 <= i < 61 && i != 25 && i != 51 && j == i + 1 ==> LetterAt(j) == LetterAt(i) + 1 as char
  {
  }

  /** A group of three bytes and of four letters is one number of 24 bits. */
  lemma GroupIsOneNumber(p: Byte, q: Byte, r: Byte)
    ensures var (w, x, y, z) := Quad(p, q, r);
      65536 * Octet(p) + 256 * Octet(q) + Octet(r) == 262144 * Number(w) + 4096 * Number(x) + 64 * Number(y) + Number(z)
  {
  }

  function Octet(p: Byte): int { 64 * p.a + 16 * p.b + 4 * p.c + p.d }
}
