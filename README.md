# Sanskrit numeral names, modelled in Dafny

`conv.py` defines `SktNumToWord`, a converter that takes a number (or a string of
Devanagari numeral glyphs) and names it in Sanskrit. Construction checks that some
input was given and fills the lexicon `num_dict`: unit words for 0-9, decade words
for the multiples of ten (60 is absent), and tier names for the hundreds up to
10^15. `break_down` splits the number into place values, least significant first.
`words_list` names each place value: a unit word, a decade word, then for each
higher place the connective "अधिक" followed by "<unit word of its digit> <tier
name>". A zero place value at position 16 or below stops the naming and yields the
zero word "शून्य" alone. `+` builds a new converter for the sum.

The project has six modules.

- `Wrappers` (wrappers.dfy): `Option`, `Result`, and an `Error` for each exception the
  code can raise.
- `Glyphs` (glyphs.dfy): `HINDU_NUMS` and the translation of a numeral string to an integer.
- `Lexicon` (lexicon.dfy): the lexicon `num_dict` as three maps, with its lookups.
- `PlaceValue` (placevalue.dfy): the specification of `break_down`, and what it yields
  in terms of decimal digits.
- `Naming` (naming.dfy): the specification of `words_list` as a recursive function
  that mirrors the loop, and the word list it yields.
- `Conv` (conv.dfy): `__post_init__` as written and as intended, and
  the class `SktNumToWord`. Its methods `Create`, `BreakDown`, `WordsList` and `Add`
  are proved against the functions above.

The model follows the code where a plain reading of the design would differ:

- The breakdown of 0 is the bare int 0, not a one-element tuple. Naming it then fails,
  because the loop cannot iterate an int (`Error.NotIterable`).
- A number with any zero digit, such as 20 or 105, is named by the zero word alone, as
  long as that digit is at position 16 or below.
- A number of 17 or more digits raises a missing-key error only when none of its
  digits at positions 0 to 16 is zero. Otherwise the zero word comes first.
- In a number with no zero digit and at most 16 digits, a tens digit of 6 gives `None` at
  index 1 of the word list (`Naming.WordsShape`), because the decade table has no 60.

## Model

| member | source | states |
|---|---|---|
| PlaceValue.Decompose | conv.py:94-105 | The breakdown is the bare zero exactly for 0, empty for a negative number, and a non-empty list of place values for a positive one. |
| PlaceValue.PlaceValues | conv.py:100-104 | The loop appends nothing exactly when the number still to split is 0. |
| Conv.SktNumToWord.BreakDown | conv.py:88-105 | The loop's result is exactly `Decompose(number)`: the bare zero for 0, an empty tuple for a negative number, the place values otherwise. |
| PlaceValue.DecomposeSum | conv.py:84 | The components of a positive number sum to that number. |
| PlaceValue.DecomposeShape | conv.py:99-104 | A k-digit number has k components. Component i is digit i times 10^i, so it is a multiple of 10^i below 10^(i+1). The top component is nonzero. |
| PlaceValue.PlaceValuesSum | conv.py:100-104 | The place values appended from power p on, with c still to split, sum to c * 10^p. |
| PlaceValue.DigitCount | conv.py:100 | The number of loop iterations for a positive n is the k with 10^(k-1) <= n < 10^k. |
| PlaceValue.DigitFormula | conv.py:101-103 | The digit taken at iteration i is (n div 10^i) mod 10. |
| PlaceValue.TopDigitNonzero | conv.py:100 | The loop ends with a nonzero leading digit. |
| Naming.Words | conv.py:116-136 | Naming fails with NotIterable exactly for 0; the only other failure is the missing tier; a negative number has an empty word list. |
| Naming.NameLoop | conv.py:123-136 | The loop either fails with the missing tier, or returns the zero word alone, or returns a list that keeps the words collected so far as its prefix. |
| Naming.Emit | conv.py:126-135 | Positions 0 and 1 add one token, which is a word exactly when the component is in the unit or decade table; a higher position adds the connective and then a phrase. |
| Naming.Phrase | conv.py:133-135 | The phrase is the unit word of the leading digit, a space and the tier name; it always ends with a space and the tier name. |
| Naming.FirstDigit | conv.py:134 | The first character of a positive number's decimal form is its most significant digit, which is between 1 and 9. |
| Lexicon.Get | conv.py:127 | A dictionary lookup gives the entry exactly when the key is present, and None otherwise. |
| Conv.SktNumToWord.WordsList | conv.py:116-136 | The loop's result is exactly `Words(number)`. |
| Naming.WordsZeroDigit | conv.py:123-125 | A positive number is named by the zero word alone if and only if one of its digits at positions 0 to 16 is zero. |
| Naming.WordsTierOverflow | conv.py:123-135 | A positive number fails with a missing tier if and only if it has more than 16 digits and its digits at positions 0 to 16 are all nonzero. |
| Naming.WordsShape | conv.py:126-135 | For up to 16 nonzero digits there are NameLength(k) tokens: the unit word of digit 0, the decade of the tens (None exactly for digit 6), then per higher position the connective and "unit word of its digit, space, tier name". |
| Naming.WordsNoZero | conv.py:123-135 | With no zero digit and at most 16 digits, the loop runs to completion and each position contributes its tokens in place. |
| Naming.NameLoopNoZero | conv.py:123-135 | For at most 16 components, from any position on with no zero component, the loop keeps the earlier words as a prefix and lays each later position's tokens at its place. |
| Naming.NameLoopStopsAtZero | conv.py:124-125 | The first zero component, when it is at position 16 or below, discards the earlier words and returns the zero word alone. |
| Naming.NameLoopMissingTier | conv.py:131-134 | Reaching position 16 with no zero at any position up to and including 16 raises the missing tier. |
| Naming.WordsNonPositive | conv.py:94-95 | Naming 0 fails (the breakdown is not iterable), and a negative number has an empty word list. |
| Naming.FirstDigitOfComponent | conv.py:134 | The first character of the component d * 10^i is the digit d. |
| Naming.PhraseOfComponent | conv.py:133-135 | The phrase for the component d * 10^i is the unit word of d, a space, and the tier name of i. |
| Naming.WordsOf123 | conv.py:150 | 123 breaks down as (3, 20, 100) and is named "त्रि", "विंशति", "अधिक", "एक शत". |
| Naming.WordsOfZeroPlace | conv.py:124-125 | 20 and 105 are named by the zero word alone. |
| Naming.WordsOf61 | conv.py:52-62 | 61 is named "एक" followed by None. |
| Lexicon.UnitWords | conv.py:40-51 | Every digit has a unit word, and none is the zero word. |
| Lexicon.DecadeWords | conv.py:52-62 | A multiple of ten from 10 to 90 has a decade word if and only if it is not 60. |
| Lexicon.TierNames | conv.py:63-77 | A tier name exists if and only if the position is between 2 and 15. |
| Glyphs.HinduNumsByValue | conv.py:10-21 | The table sends the glyph of value v to the ASCII digit of value v and knows no other glyph. |
| Glyphs.AsciiDigits | conv.py:38 | The join succeeds if and only if every glyph is in the table, and then it has each glyph's digit in order. |
| Glyphs.DecimalValue | conv.py:38 | The value of a string of t ASCII digits is below 10^t. |
| Glyphs.ParseInt | conv.py:38 | `int` fails exactly on the empty string, and otherwise gives a value below 10 to the number of digits. |
| Glyphs.Translate | conv.py:38 | Translation succeeds if and only if the string is non-empty and every glyph is known. It fails on an unknown glyph exactly when there is one, and on the empty string exactly when the string is empty. |
| Glyphs.TranslateAppend | conv.py:38 | Appending a glyph shifts the value one decimal place and adds the glyph's value. |
| Glyphs.TranslateToGlyphs | conv.py:38 | Translation inverts writing a number in glyphs. |
| Glyphs.TranslateExample | conv.py:38 | "१२३" translates to 123. |
| Conv.NumberGiven | conv.py:31 | The truthiness of `number`: given and nonzero. |
| Conv.NumeralsGiven | conv.py:31 | The truthiness of `skt_num`: given and non-empty. |
| Conv.PostInitAsWritten | conv.py:30-38 | As written, construction fails with InvalidInput exactly when neither input is given, and succeeds exactly when a nonzero number is given, keeping it. |
| Conv.PostInitAsWrittenRejectsNumerals | conv.py:37-38 | As written, any non-empty numeral string without a nonzero number raises the unbound-name error. This holds for well-formed numerals and for unknown glyphs alike. |
| Conv.PostInit | conv.py:30-38 | Corrected: InvalidInput exactly when neither input is given; a nonzero number is kept; otherwise the result is the translation of the numerals, so construction succeeds exactly when all glyphs are known and then holds their value. |
| Conv.PostInitReadsNumerals | conv.py:37-38 | Corrected: the numeral of any n constructs the converter for n. |
| Conv.SktNumToWord.constructor | conv.py:38-39 | A new converter holds the given number and the lexicon. |
| Conv.SktNumToWord.Create | conv.py:30-77 | Construction yields a fresh converter with the lexicon and the number `PostInit` gives, or that error. |
| Conv.SktNumToWord.Add | conv.py:138-147 | The sum converter exists exactly when the sum is nonzero; it is fresh, has the lexicon and holds the sum; otherwise InvalidInput. |

## Left out

- The `print` at conv.py:150 is not modelled, because it is I/O. `Naming.WordsOf123` states the breakdown it prints, (3, 20, 100).
- The `Self` import shim (conv.py:3-8) and the dataclass plumbing (default fields, the `break_down` and `words_list` properties) are not modelled. The properties only forward to the private methods.
- The exception classes are modelled as values of `Error`, not as raised exceptions.
- The `continue` at conv.py:129-130 is not modelled. The zero check at conv.py:124 returns first, so it can never run.
- Naming.Phrase: `int(str(num)[0])` is modelled arithmetically, as the leading decimal digit of a non-negative component, and not through Python strings.
- Conv.SktNumToWord.WordsList: `numDict` is read through `Valid()`. Callers that reassign `num_dict` after construction are not modelled; a reassigned `number` is read as it stands.
- Python tuples and lists are both modelled as sequences. The early return at conv.py:125 yields a list and the normal end yields a tuple; the model does not tell them apart.
- Conv.SktNumToWord.Create: construction, and with it `Add`, is built on the corrected `PostInit`, not on the code as written. So `Create(None, Some("१२३"))` gives a converter for 123, where conv.py:38 as written raises NameError. `Conv.PostInitAsWritten` keeps the as-written behaviour.
- Glyphs.Translate: the limit on converting a string to an int is not modelled. From Python 3.11, and from 3.10.7 on the 3.10 line, the default limit is 4300 digits. A numeral of more than 4300 known glyphs raises ValueError in the corrected code but translates in the model.
- Conv.PostInit: a `number` of a non-int type (any truthy Python value) is not modelled. The number is an optional integer.

## Findings

| source | as written | input that shows it | evidently intended | confidence | as-written member | corrected member |
|---|---|---|---|---|---|---|
| conv.py:38 | The translation iterates the bare name `skt_num`, which is bound nowhere in `__post_init__`, so it raises NameError. | `SktNumToWord(skt_num="१२३")` | Iterate the field `self.skt_num`, giving the number 123. | not executed | Conv.PostInitAsWrittenRejectsNumerals | Conv.PostInitReadsNumerals |
