/** The converter object `SktNumToWord` (conv.py:26-147): construction with its input
    check, the place-value breakdown, the word list and addition. */
module Conv {
  import opened Wrappers
  import opened Lexicon
  import opened PlaceValue
  import opened Naming
  import Glyphs

  /** Python truthiness of the `number` argument: present and nonzero. */
  predicate NumberGiven(number: Option<int>)
  {
    number.Some? && number.value != 0
  }

  /** Python truthiness of the `skt_num` argument: present and non-empty. */
  predicate NumeralsGiven(sktNum: Option<string>)
  {
    sktNum.Some? && sktNum.value != []
  }

  /** The number `__post_init__` stores, as the code is written. The glyph translation
      reads the bare name `skt_num`, which is bound nowhere, instead of the field
      `self.skt_num`; so every construction that relies on numerals raises NameError,
      and only a nonzero number ever constructs. */
  function PostInitAsWritten(number: Option<int>, sktNum: Option<string>): (r: Result<int>)
    ensures r == Err(InvalidInput) <==> !NumberGiven(number) && !NumeralsGiven(sktNum)
    ensures r.Ok? <==> NumberGiven(number)
    ensures r.Ok? ==> r.value == number.value
  {
    if !NumeralsGiven(sktNum) && !NumberGiven(number) then Err(InvalidInput)
    else if !NumberGiven(number) then Err(UnboundName)
    else Ok(number.value)
  }

  /** The number `__post_init__` stores when the translation reads the given numerals:
      the number itself when it is nonzero, otherwise the value of the numerals. */
  function PostInit(number: Option<int>, sktNum: Option<string>): (r: Result<int>)
    ensures r == Err(InvalidInput) <==> !NumberGiven(number) && !NumeralsGiven(sktNum)
    ensures NumberGiven(number) ==> r == Ok(number.value)
    ensures !NumberGiven(number) && NumeralsGiven(sktNum) ==>
      (r.Ok? <==> forall i :: 0 <= i < |sktNum.value| ==> sktNum.value[i] in Glyphs.HinduNums) &&
      (r.Err? ==> r.error == UnrecognizedGlyph)
    ensures !NumberGiven(number) && NumeralsGiven(sktNum) ==>
      (r.Ok? <==> Glyphs.Translate(sktNum.value).Ok?) &&
      (r.Ok? ==> r.value == Glyphs.Translate(sktNum.value).value) &&
      (r.Err? ==> r.error == Glyphs.Translate(sktNum.value).error)
  {
    if !NumeralsGiven(sktNum) && !NumberGiven(number) then Err(InvalidInput)
    else if !NumberGiven(number) then
      match Glyphs.Translate(sktNum.value)
      case Ok(v) => Ok(v)
      case Err(e) => Err(e)
    else Ok(number.value)
  }

  /** As written, numerals without a nonzero number never construct: whatever the
      string holds, well-formed numerals or unknown glyphs, the name error comes
      before any lookup. */
  lemma PostInitAsWrittenRejectsNumerals(number: Option<int>, s: string)
    requires !NumberGiven(number) && s != []
    ensures PostInitAsWritten(number, Some(s)) == Err(UnboundName)
  {
  }

  /** With the translation reading the argument, the numeral of any n constructs the
      converter for n; "१२३" gives 123. */
  lemma PostInitReadsNumerals(n: nat)
    ensures PostInit(None, Some(Glyphs.ToGlyphs(n))) == Ok(n)
    ensures PostInit(Some(0), Some(Glyphs.ToGlyphs(n))) == Ok(n)
    ensures PostInit(None, Some("१२३")) == Ok(123)
  {
    Glyphs.TranslateToGlyphs(n);
    Glyphs.TranslateExample();
  }

  class SktNumToWord {
    var number: int
    var numDict: NumDict

    /** Every converter carries the one lexicon. */
    ghost predicate Valid()
      reads this
    {
      numDict == Table
    }

    /** The field assignments of `__post_init__` once its checks have passed. */
    constructor (n: int)
      ensures number == n && Valid()
    {
      number := n;
      numDict := Table;
    }

    /** Construction from an optional number and optional numerals. It fails with
        InvalidInput exactly when neither is given (a zero number counts as not
        given), and otherwise stores the number or the value of the numerals. */
    static method Create(number: Option<int>, sktNum: Option<string>) returns (r: Result<SktNumToWord>)
      ensures PostInit(number, sktNum).Err? ==> r == Err(PostInit(number, sktNum).error)
      ensures PostInit(number, sktNum).Ok? ==>
        r.Ok? && fresh(r.value) && r.value.Valid() && r.value.number == PostInit(number, sktNum).value
    {
      if !NumeralsGiven(sktNum) && !NumberGiven(number) {
        return Err(InvalidInput);
      }
      var n: int;
      if !NumberGiven(number) {
        var translated := Glyphs.Translate(sktNum.value);
        if translated.Err? {
          return Err(translated.error);
        }
        n := translated.value;
      } else {
        n := number.value;
      }
      var converter := new SktNumToWord(n);
      return Ok(converter);
    }

    /** `break_down`: the place values of the number, least significant first. */
    method BreakDown() returns (r: Decomposition)
      ensures r == Decompose(number)
    {
      if number == 0 {
        return BareZero;
      }
      var result: seq<nat> := [];
      var divisor := 10;
      var power: nat := 0;
      var currNum := number;
      while currNum > 0
        invariant if number > 0
          then currNum >= 0 && PlaceValues(number, 0) == result + PlaceValues(currNum, power)
          else currNum == number && result == []
        decreases currNum
      {
        var digit := currNum % divisor;
        result := result + [digit * Pow10(power)];
        currNum := currNum / divisor;
        power := power + 1;
      }
      return Terms(result);
    }

    /** `words_list`: the words of the number, computed from its breakdown. */
    method WordsList() returns (r: Result<seq<Token>>)
      requires Valid()
      ensures r == Words(number)
    {
      var parts := BreakDown();
      if parts.BareZero? {
        return Err(NotIterable);
      }
      var cs := parts.components;
      var res: seq<Token> := [];
      var idx := 0;
      while idx < |cs|
        invariant idx <= |cs|
        invariant NameLoop(cs, 0, []) == NameLoop(cs, idx, res)
      {
        var num := cs[idx];
        ghost var before := res;
        if num == 0 {
          return Ok([Some(ZeroWord)]);
        }
        if idx <= 1 {
          var table := if idx == 0 then numDict.units else numDict.decades;
          res := res + [Get(table, num)];
        } else {
          // The source also skips a zero here, but the return above comes first.
          if idx > 0 {
            res := res + [Some(Connective)];
          }
          if idx !in numDict.tiers {
            return Err(MissingTier);
          }
          res := res + [Some(Phrase(num, idx))];
        }
        assert res == before + Emit(cs, idx);
        idx := idx + 1;
      }
      return Ok(res);
    }

    /** `+`: a new converter for the sum of the two numbers; neither operand changes.
        A sum of zero fails the construction check. */
    method Add(other: SktNumToWord) returns (r: Result<SktNumToWord>)
      ensures (r.Ok? <==> number + other.number != 0) && (r.Err? ==> r.error == InvalidInput)
      ensures r.Ok? ==> fresh(r.value) && r.value.Valid() && r.value.number == number + other.number
    {
      r := Create(Some(number + other.number), None);
    }
  }
}
