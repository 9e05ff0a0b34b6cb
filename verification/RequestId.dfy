/** The request id: a version 4 UUID printed from four random words, sections 4 and 5.4 of RFC 9562.

    Words are numbers below 2^32; shifts and masks appear as division and remainder by powers of two, and
    MasksAreArithmetic shows what they do to the binary digits to be what the program's bit masks do.
 */
module RequestId {
  import opened Basics
  import opened BinaryWords

  datatype Words = Words(a: nat, b: nat, c: nat, d: nat)

  predicate Fit(w: Words) {
    w.a < TWO_32 && w.b < TWO_32 && w.c < TWO_32 && w.d < TWO_32
  }

  /** %x of one digit. */
  function HexDigit(n: nat): char
    requires n < 16
  {
    if n < 10 then '0' + n as char else 'a' + (n - 10) as char
  }

  function ParseDigit(c: char): (d: Option<nat>)
    ensures d.Some? ==> d.value < 16
  {
    if '0' <= c <= '9' then Some((c - '0') as nat)
    else if 'a' <= c <= 'f' then Some((c - 'a') as nat + 10)
    else None
  }

  lemma DigitRoundTrip(n: nat, c: char)
    requires n < 16
    ensures HexDigit(n) == c <==> ParseDigit(c) == Some(n)
  {
  }

  /** %04x of a value below 2^16. */
  function Hex4(h: nat): (s: string)
    requires h < TWO_16
    ensures |s| == 4
  {
    [HexDigit(h / 16 / 16 / 16), HexDigit(h / 16 / 16 % 16), HexDigit(h / 16 % 16), HexDigit(h % 16)]
  }

  function Parse4(s: string): (h: Option<nat>)
    requires |s| == 4
    ensures h.Some? ==> h.value < TWO_16
  {
    var p, q, r, t := ParseDigit(s[0]), ParseDigit(s[1]), ParseDigit(s[2]), ParseDigit(s[3]);
    if p.Some? && q.Some? && r.Some? && t.Some? then Some(16 * (16 * (16 * p.value + q.value) + r.value) + t.value)
    else None
  }

  lemma LastDigit(h: nat, front: nat, digit: nat)
    requires digit < 16
    ensures h == 16 * front + digit <==> front == h / 16 && digit == h % 16
  {
  }

  lemma FourDigits(p: nat, q: nat, r: nat, t: nat, h: nat)
    requires p < 16 && q < 16 && r < 16 && t < 16
    ensures h == 16 * (16 * (16 * p + q) + r) + t
       <==> p == h / 16 / 16 / 16 && q == h / 16 / 16 % 16 && r == h / 16 % 16 && t == h % 16
  {
    LastDigit(h, 16 * (16 * p + q) + r, t);
    LastDigit(h / 16, 16 * p + q, r);
    LastDigit(h / 16 / 16, p, q);
  }

  /** Four digits and their value determine each other. */
  lemma Hex4IsExact(h: nat, s: string)
    requires h < TWO_16 && |s| == 4
    ensures Hex4(h) == s <==> Parse4(s) == Some(h)
  {
    var p, q, r, t := h / 16 / 16 / 16, h / 16 / 16 % 16, h / 16 % 16, h % 16;
    DigitRoundTrip(p, s[0]);
    DigitRoundTrip(q, s[1]);
    DigitRoundTrip(r, s[2]);
    DigitRoundTrip(t, s[3]);
    FourDigits(p, q, r, t, h);
    assert Hex4(h) == [HexDigit(p), HexDigit(q), HexDigit(r), HexDigit(t)];
    assert s == [s[0], s[1], s[2], s[3]];
    if Parse4(s).Some? {
      FourDigits(ParseDigit(s[0]).value, ParseDigit(s[1]).value, ParseDigit(s[2]).value, ParseDigit(s[3]).value, h);
    }
  }

  /** %08x, and "%04x-%04x" when `middle` is a hyphen. */
  function Hex8(w: nat, middle: string): (s: string)
    requires w < TWO_32
    ensures |s| == 8 + |middle|
  {
    Hex4(w / TWO_16) + middle + Hex4(w % TWO_16)
  }

  function Halves(high: Option<nat>, low: Option<nat>): Option<nat> {
    if high.Some? && low.Some? then Some(TWO_16 * high.value + low.value) else None
  }

  lemma LowHalf(w: nat, high: nat, low: nat)
    requires low < TWO_16
    ensures w == TWO_16 * high + low <==> high == w / TWO_16 && low == w % TWO_16
  {
  }

  lemma HalvesAreExact(w: nat, high: string, low: string)
    requires w < TWO_32 && |high| == 4 && |low| == 4
    ensures Hex4(w / TWO_16) == high && Hex4(w % TWO_16) == low <==> Halves(Parse4(high), Parse4(low)) == Some(w)
  {
    Hex4IsExact(w / TWO_16, high);
    Hex4IsExact(w % TWO_16, low);
    if Parse4(high).Some? && Parse4(low).Some? {
      LowHalf(w, Parse4(high).value, Parse4(low).value);
    }
  }

  /** "%08x-%04x-%04x-%04x-%04x%08x" */
  function Format(w: Words): (id: string)
    requires Fit(w)
    ensures |id| == 36
  {
    Hex8(w.a, "") + "-" + Hex8(w.b, "-") + "-" + Hex8(w.c, "-") + Hex8(w.d, "")
  }

  predicate Hyphens(id: string)
    requires |id| == 36
  {
    id[8] == '-' && id[13] == '-' && id[18] == '-' && id[23] == '-'
  }

  /** Hyphens where they belong and lower-case digits everywhere else. */
  function Parse(id: string): (words: Option<Words>)
    ensures words.Some? ==> Fit(words.value)
  {
    if |id| != 36 || !Hyphens(id) then None
    else
      var a := Halves(Parse4(id[..4]), Parse4(id[4..8]));
      var b := Halves(Parse4(id[9..13]), Parse4(id[14..18]));
      var c := Halves(Parse4(id[19..23]), Parse4(id[24..28]));
      var d := Halves(Parse4(id[28..32]), Parse4(id[32..]));
      if a.Some? && b.Some? && c.Some? && d.Some? then Some(Words(a.value, b.value, c.value, d.value)) else None
  }

  /** An id of the right shape is the concatenation of its fields. */
  lemma Fields(id: string, a0: string, a1: string, b0: string, b1: string,
               c0: string, c1: string, d0: string, d1: string)
    requires |id| == 36 && |a0| == |a1| == |b0| == |b1| == |c0| == |c1| == |d0| == |d1| == 4
    ensures id == (a0 + "" + a1) + "-" + (b0 + "-" + b1) + "-" + (c0 + "-" + c1) + (d0 + "" + d1) <==>
      && Hyphens(id) && id[..4] == a0 && id[4..8] == a1 && id[9..13] == b0 && id[14..18] == b1
      && id[19..23] == c0 && id[24..28] == c1 && id[28..32] == d0 && id[32..] == d1
  {
    var all := (a0 + "" + a1) + "-" + (b0 + "-" + b1) + "-" + (c0 + "-" + c1) + (d0 + "" + d1);
    assert all[..4] == a0 && all[4..8] == a1 && all[9..13] == b0 && all[14..18] == b1;
    assert all[19..23] == c0 && all[24..28] == c1 && all[28..32] == d0 && all[32..] == d1;
    assert Hyphens(all);
    if Hyphens(id) {
      Reassemble(id);
    }
  }

  lemma Reassemble(id: string)
    requires |id| == 36 && Hyphens(id)
    ensures id == (id[..4] + "" + id[4..8]) + "-" + (id[9..13] + "-" + id[14..18]) + "-"
                + (id[19..23] + "-" + id[24..28]) + (id[28..32] + "" + id[32..])
  {
  }

  /** Printing and parsing are inverse to each other: an id is the print of these words exactly when it parses
      to them. */
  lemma FormatIsExact(w: Words, id: string)
    requires Fit(w)
    ensures Format(w) == id <==> Parse(id) == Some(w)
  {
    if |id| == 36 {
      Fields(id, Hex4(w.a / TWO_16), Hex4(w.a % TWO_16), Hex4(w.b / TWO_16), Hex4(w.b % TWO_16),
             Hex4(w.c / TWO_16), Hex4(w.c % TWO_16), Hex4(w.d / TWO_16), Hex4(w.d % TWO_16));
      HalvesAreExact(w.a, id[..4], id[4..8]);
      HalvesAreExact(w.b, id[9..13], id[14..18]);
      HalvesAreExact(w.c, id[19..23], id[24..28]);
      HalvesAreExact(w.d, id[28..32], id[32..]);
    }
  }

  // ---------------------------------------------------------------- version and variant

  /** (b & 0xFFFF0FFF) | 0x00004000 */
  function SetVersion(b: nat): nat
  {
    b / TWO_16 * TWO_16 + 0x4000 + b % 0x1000
  }

  /** (c & 0x3FFFFFFF) | 0x80000000 */
  function SetVariant(c: nat): nat {
    c % 0x4000_0000 + 0x8000_0000
  }

  lemma NibbleOf(b: nat)
    ensures b == (b / TWO_16 * 16 + b % TWO_16 / 0x1000) * 0x1000 + b % 0x1000 && b % TWO_16 / 0x1000 < 16
    ensures SetVersion(b) == (b / TWO_16 * 16 + 4) * 0x1000 + b % 0x1000
  {
    LowTwelveBits(b);
  }

  /** The functions on numbers are the program's masks on 32-bit words. */
  lemma {:induction false} MasksAreArithmetic(b: nat, c: nat)
    ensures ToWord(SetVersion(b)) == (ToWord(b) & 0xFFFF_0FFF) | 0x0000_4000
    ensures ToWord(SetVariant(c)) == (ToWord(c) & 0x3FFF_FFFF) | 0x8000_0000
  {
    NibbleOf(b);
    MaskNibble(b / TWO_16, b % TWO_16 / 0x1000, b % 0x1000);
    MaskTop(c / 0x4000_0000, c % 0x4000_0000);
  }

  /** A word below 2^32 is known by its digits, so the masks pin the numbers. */
  lemma WordsAreExact(m: nat, n: nat)
    requires m < TWO_32 && n < TWO_32
    ensures ToWord(m) == ToWord(n) <==> m == n
  {
    Powers();
    assert Power(31) == 0x8000_0000 && Power(32) == TWO_32;
    WordsDiffer(m, n, 32);
  }

  function Masked(w: Words): (m: Words)
    requires Fit(w)
    ensures Fit(m)
  {
    Words(w.a, SetVersion(w.b), SetVariant(w.c), w.d)
  }

  /** generate_request_id(), from the four words that the generator yields. */
  method GenerateRequestId(r0: nat, r1: nat, r2: nat, r3: nat) returns (id: string)
    requires Fit(Words(r0, r1, r2, r3))
    ensures Parse(id) == Some(Masked(Words(r0, r1, r2, r3)))
    ensures Parse(id) == Some(Words(r0, SetVersion(r1), SetVariant(r2), r3))
  {
    var a, b, c, d := r0, r1, r2, r3;
    b := SetVersion(b);
    c := SetVariant(c);
    id := Format(Words(a, b, c, d));
    FormatIsExact(Words(a, b, c, d), id);
  }

  /** The 122 bits that the generator is free to choose. */
  function FreeBits(w: Words): (nat, nat, nat, nat, nat) {
    (w.a, w.b / TWO_16, w.b % 0x1000, w.c % 0x4000_0000, w.d)
  }

  lemma MaskKeepsFreeBits(w: Words, v: Words)
    requires Fit(w) && Fit(v)
    ensures Masked(w) == Masked(v) <==> FreeBits(w) == FreeBits(v)
  {
  }

  /** Two generated ids are equal exactly when the free bits were. */
  lemma IdsDifferOnFreeBits(w: Words, v: Words)
    requires Fit(w) && Fit(v)
    ensures Format(Masked(w)) == Format(Masked(v)) <==> FreeBits(w) == FreeBits(v)
  {
    FormatIsExact(Masked(w), Format(Masked(w)));
    FormatIsExact(Masked(v), Format(Masked(w)));
    MaskKeepsFreeBits(w, v);
  }

  predicate VersionAndVariant(w: Words) {
    w.b % TWO_16 / 0x1000 == 4 && w.c / 0x4000_0000 == 2
  }

  /** The masks give exactly the words that carry version and variant. */
  lemma MaskedWords(w: Words)
    requires Fit(w)
    ensures VersionAndVariant(Masked(w))
    ensures VersionAndVariant(w) ==> Masked(w) == w
  {
    VersionNibble(w.b);
    VariantBits(w.c);
  }

  lemma LowTwelveBits(b: nat)
    ensures b % TWO_16 == b % TWO_16 / 0x1000 * 0x1000 + b % 0x1000
    ensures b == b / TWO_16 * TWO_16 + b % TWO_16
  {
  }

  lemma TopNibble(low: nat)
    requires low < 0x1000
    ensures (0x4000 + low) / 0x1000 == 4
  {
  }

  lemma VersionNibble(b: nat)
    ensures SetVersion(b) % TWO_16 / 0x1000 == 4
    ensures b % TWO_16 / 0x1000 == 4 ==> SetVersion(b) == b
  {
    LowTwelveBits(b);
    TopNibble(b % 0x1000);
    assert SetVersion(b) == b / TWO_16 * TWO_16 + (0x4000 + b % 0x1000);
    LowHalf(SetVersion(b), b / TWO_16, 0x4000 + b % 0x1000);
  }

  lemma VariantBits(c: nat)
    ensures SetVariant(c) / 0x4000_0000 == 2
    ensures c / 0x4000_0000 == 2 ==> SetVariant(c) == c
  {
  }

  predicate VariantDigit(c: char) { c == '8' || c == '9' || c == 'a' || c == 'b' }

  lemma TopDigits(h: nat)
    ensures h / 16 / 16 / 16 == h / 0x1000
  {
  }

  lemma VersionAndVariantShow(w: Words)
    requires Fit(w)
    ensures Format(w)[14] == '4' && VariantDigit(Format(w)[19]) <==> VersionAndVariant(w)
  {
    DigitsAt14And19(w);
    TopDigits(w.b % TWO_16);
    TopDigits(w.c / TWO_16);
    TopBits(w.c);
  }

  lemma DigitsAt14And19(w: Words)
    requires Fit(w)
    ensures Format(w)[14] == HexDigit(w.b % TWO_16 / 16 / 16 / 16)
    ensures Format(w)[19] == HexDigit(w.c / TWO_16 / 16 / 16 / 16)
  {
  }

  lemma TopBits(c: nat)
    ensures c / TWO_16 / 0x1000 / 4 == c / 0x4000_0000
  {
  }

  /** An id can be generated exactly when it parses, has '4' at index 14 and one of 8, 9, a, b at index 19. */
  lemma GeneratedIds(id: string)
    ensures (exists w: Words :: Fit(w) && id == Format(Masked(w)))
       <==> Parse(id).Some? && id[14] == '4' && VariantDigit(id[19])
  {
    forall w: Words | Fit(w) && id == Format(Masked(w))
      ensures Parse(id).Some? && id[14] == '4' && VariantDigit(id[19])
    {
      FormatIsExact(Masked(w), id);
      MaskedWords(w);
      VersionAndVariantShow(Masked(w));
    }
    if Parse(id).Some? {
      var w := Parse(id).value;
      FormatIsExact(w, id);
      VersionAndVariantShow(w);
      MaskedWords(w);
    }
  }

  lemma HexExample()
    ensures Hex4(0x0123) == "0123" && Hex4(0x4567) == "4567" && Hex4(0x89ab) == "89ab" && Hex4(0xcdef) == "cdef"
  {
  }

  lemma HalvesExample()
    ensures Hex8(0x0123_4567, "") == "01234567" && Hex8(0x89ab_cdef, "-") == "89ab-cdef"
    ensures Hex8(0xcdef_0123, "-") == "cdef-0123" && Hex8(0x4567_89ab, "") == "456789ab"
  {
    HexExample();
    assert 0x0123_4567 / TWO_16 == 0x0123 && 0x0123_4567 % TWO_16 == 0x4567;
    assert 0x89ab_cdef / TWO_16 == 0x89ab && 0x89ab_cdef % TWO_16 == 0xcdef;
    assert 0xcdef_0123 / TWO_16 == 0xcdef && 0xcdef_0123 % TWO_16 == 0x0123;
    assert 0x4567_89ab / TWO_16 == 0x4567 && 0x4567_89ab % TWO_16 == 0x89ab;
  }

  /** The layout, by an example in which every digit occurs. */
  lemma FormatExample()
    ensures Format(Words(0x0123_4567, 0x89ab_cdef, 0xcdef_0123, 0x4567_89ab))
         == "01234567" + "-" + "89ab-cdef" + "-" + "cdef-0123" + "456789ab"
  {
    HalvesExample();
  }
}
