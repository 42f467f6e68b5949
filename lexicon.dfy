/** The constant word tables of the converter (`num_dict`, conv.py:39-77). */
module Lexicon {
  import opened Wrappers

  /** `num_dict` split by tier: tier 0 maps unit digits, tier 1 maps decade values,
      and tiers 2 and up are single names of powers of ten. */
  datatype NumDict = NumDict(units: map<int, string>, decades: map<int, string>, tiers: map<int, string>)

  /** The word returned for a number with a zero place value. */
  const ZeroWord: string := "शून्य"

  /** The connective placed before every term from the hundreds up. */
  const Connective: string := "अधिक"

  /** The lexicon installed by every constructed converter. The decade table has no
      entry for 60, and the tier names stop at 15. */
  const Table: NumDict := NumDict(
    map[
      0 := "",
      1 := "एक",
      2 := "द्वि",
      3 := "त्रि",
      4 := "चतुर्",
      5 := "पञ्च",
      6 := "षट्",
      7 := "सप्त",
      8 := "अष्ट",
      9 := "नव"
    ],
    map[
      0 := "",
      10 := "दश",
      20 := "विंशति",
      30 := "त्रिंशत्",
      40 := "चत्वारिंशत्",
      50 := "पञ्चाशत्",
      70 := "सप्तति",
      80 := "अशीति",
      90 := "नवति"
    ],
    map[
      2 := "शत",
      3 := "सहस्र",
      4 := "अयुत",
      5 := "लक्ष",
      6 := "प्रयुत",
      7 := "कोटि",
      8 := "दशकोटि",
      9 := "महापद्म",
      10 := "सहस्रकोटि",
      11 := "लक्षकोटि",
      12 := "दशलक्षकोटि",
      13 := "शतलक्षकोटि",
      14 := "सहस्रलक्षकोटि",
      15 := "लक्षलक्षकोटि"
    ])

  /** Python's `dict.get`: the entry for k, or None. */
  function Get(m: map<int, string>, k: int): (r: Option<string>)
    ensures r.Some? <==> k in m
    ensures r.Some? ==> r.value == m[k]
  {
    if k in m then Some(m[k]) else None
  }

  /** The word of the unit digit d. */
  function UnitWord(d: nat): (w: string)
    requires d <= 9
  {
    Table.units[d]
  }

  /** The name of the power-of-ten tier i. */
  function TierName(i: nat): (w: string)
    requires 2 <= i <= 15
  {
    Table.tiers[i]
  }

  /** Every unit digit has a word, and no unit word is the zero word. */
  lemma UnitWords(d: int)
    requires 0 <= d <= 9
    ensures d in Table.units && Table.units[d] != ZeroWord
  {
  }

  /** A decade 10*d has a word exactly when d is not 6. */
  lemma DecadeWords(d: int)
    requires 1 <= d <= 9
    ensures (10 * d in Table.decades) <==> d != 6
  {
  }

  /** Tier names exist exactly for the positions 2 to 15. */
  lemma TierNames(i: int)
    ensures i in Table.tiers <==> 2 <= i <= 15
  {
  }
}
