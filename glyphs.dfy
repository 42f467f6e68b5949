/** The Devanagari numeral glyphs and their translation to an integer (`HINDU_NUMS`,
    conv.py:10-21, and the comprehension and parse of conv.py:38). */
module Glyphs {
  import opened Wrappers
  import opened PlaceValue

  /** The ten Devanagari digit glyphs, in the order of their values. */
  const Glyph: seq<char> := ['०', '१', '२', '३', '४', '५', '६', '७', '८', '९']

  /** `HINDU_NUMS`: each glyph to the ASCII digit of the same value. */
  const HinduNums: map<char, char> := map[
    '०' := '0',
    '१' := '1',
    '२' := '2',
    '३' := '3',
    '४' := '4',
    '५' := '5',
    '६' := '6',
    '७' := '7',
    '८' := '8',
    '९' := '9'
  ]

  predicate IsAsciiDigit(c: char)
  {
    '0' <= c <= '9'
  }

  /** The table sends the glyph of value v to the ASCII digit of value v, and knows no
      other glyph. */
  lemma HinduNumsByValue()
    ensures forall v :: 0 <= v < 10 ==> Glyph[v] in HinduNums && HinduNums[Glyph[v]] == '0' + v as char
    ensures forall g :: g in HinduNums <==> g in Glyph
  {
  }

  /** The joined string of `HINDU_NUMS.get(dig) for dig in s`, or None when some glyph
      is missing from the table, so that the join meets a None. */
  function AsciiDigits(s: string): (r: Option<string>)
    ensures r.Some? <==> forall i :: 0 <= i < |s| ==> s[i] in HinduNums
    ensures r.Some? ==> |r.value| == |s| && forall i :: 0 <= i < |s| ==> r.value[i] == HinduNums[s[i]]
  {
    if s == [] then Some([])
    else if s[0] !in HinduNums then None
    else
      match AsciiDigits(s[1..])
      case None => None
      case Some(t) => Some([HinduNums[s[0]]] + t)
  }

  /** The base-10 value of a string of ASCII digits, most significant first. */
  function DecimalValue(t: string): (v: nat)
    requires forall i :: 0 <= i < |t| ==> IsAsciiDigit(t[i])
    ensures v < Pow10(|t|)
  {
    if t == [] then 0
    else
      assert IsAsciiDigit(t[|t| - 1]);
      10 * DecimalValue(t[..|t| - 1]) + (t[|t| - 1] as int - '0' as int)
  }

  /** Python's `int` on a string of ASCII digits: the empty string is rejected. */
  function ParseInt(t: string): (r: Result<nat>)
    requires forall i :: 0 <= i < |t| ==> IsAsciiDigit(t[i])
    ensures r == Err(EmptyNumeral) <==> t == []
    ensures r.Ok? ==> r.value < Pow10(|t|)
  {
    if t == [] then Err(EmptyNumeral) else Ok(DecimalValue(t))
  }

  /** The translation of a numeral string to its integer. It fails on an empty string
      and on any glyph outside the table. */
  function Translate(s: string): (r: Result<nat>)
    ensures r.Ok? <==> s != [] && forall i :: 0 <= i < |s| ==> s[i] in HinduNums
    ensures r == Err(UnrecognizedGlyph) <==> exists i :: 0 <= i < |s| && s[i] !in HinduNums
    ensures r == Err(EmptyNumeral) <==> s == []
  {
    match AsciiDigits(s)
    case None => Err(UnrecognizedGlyph)
    case Some(t) => ParseInt(t)
  }

  /** The Devanagari numeral of n, most significant glyph first. */
  function ToGlyphs(n: nat): (s: string)
    ensures |s| >= 1
  {
    if n < 10 then [Glyph[n]] else ToGlyphs(n / 10) + [Glyph[n % 10]]
  }

  /** Appending a glyph shifts the translated value one decimal place and adds the
      glyph's value. */
  lemma TranslateAppend(s: string, v: nat)
    requires s != [] && forall i :: 0 <= i < |s| ==> s[i] in HinduNums
    requires v < 10
    ensures Translate(s + [Glyph[v]]) == Ok(10 * Translate(s).value + v)
  {
    HinduNumsByValue();
    var s' := s + [Glyph[v]];
    var t := AsciiDigits(s).value;
    var t' := AsciiDigits(s').value;
    assert t'[..|t'| - 1] == t;
    assert t'[|t'| - 1] == '0' + v as char;
  }

  /** Translation inverts the rendering of a number as glyphs, so the glyphs are read
      in input order and by their values. */
  lemma {:induction false} TranslateToGlyphs(n: nat)
    ensures Translate(ToGlyphs(n)) == Ok(n)
    decreases n
  {
    HinduNumsByValue();
    if n < 10 {
      var s := ToGlyphs(n);
      assert s == [Glyph[n]];
      assert s[1..] == [];
      var t := AsciiDigits(s).value;
      assert t == ['0' + n as char];
      assert t[..0] == [];
      assert DecimalValue(t) == n;
    } else {
      TranslateToGlyphs(n / 10);
      TranslateAppend(ToGlyphs(n / 10), n % 10);
    }
  }

  /** The numeral "१२३" translates to 123. */
  lemma TranslateExample()
    ensures Translate("१२३") == Ok(123)
  {
    assert ToGlyphs(123) == "१२३" by {
      assert ToGlyphs(1) == "१";
      assert ToGlyphs(12) == "१२";
    }
    TranslateToGlyphs(123);
  }
}
