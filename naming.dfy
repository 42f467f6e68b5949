/** Word naming: the specification of `words_list` (conv.py:116-136). */
module Naming {
  import opened Wrappers
  import opened Lexicon
  import opened PlaceValue

  /** One entry of the word list: a word, or the None that `.get` yields for a
      decade missing from the table. */
  type Token = Option<string>

  /** `int(str(num)[0])` for a non-negative num: its most significant decimal digit. */
  function FirstDigit(num: nat): (d: nat)
    ensures num == 0 ==> d == 0
    ensures num > 0 ==> 1 <= d <= 9 && d == Digit(num, DigitCount(num) - 1)
  {
    if num < 10 then num else FirstDigit(num / 10)
  }

  /** The f-string of a term from the hundreds up: the unit word of its leading digit,
      a space, and the tier name. A missing unit word would print as "None". */
  function Phrase(num: nat, idx: int): (r: string)
    requires idx in Table.tiers
    ensures FirstDigit(num) in Table.units ==>
      r == Table.units[FirstDigit(num)] + " " + Table.tiers[idx]
    ensures |r| > |Table.tiers[idx]| && r[|r| - |Table.tiers[idx]| - 1..] == " " + Table.tiers[idx]
  {
    var unit := match Get(Table.units, FirstDigit(num)) case Some(w) => w case None => "None";
    var tier := Table.tiers[idx];
    SpaceSuffix(unit, tier);
    unit + " " + tier
  }

  lemma SpaceSuffix(u: string, t: string)
    ensures |u + " " + t| > |t| && (u + " " + t)[|u + " " + t| - |t| - 1..] == " " + t
  {
    assert (u + " " + t)[|u|..] == " " + t;
  }

  /** The tokens appended for the nonzero component at position idx: the unit or decade
      looked up by the raw component, or the connective and the phrase from the
      hundreds up. */
  function Emit(cs: seq<nat>, idx: nat): (r: seq<Token>)
    requires idx < |cs| && (idx >= 2 ==> idx in Table.tiers)
    ensures |r| == if idx <= 1 then 1 else 2
    ensures idx == 0 ==> (r[0].Some? <==> cs[0] in Table.units)
    ensures idx == 1 ==> (r[0].Some? <==> cs[1] in Table.decades)
    ensures idx >= 2 ==> r[0] == Some(Connective) && r[1].Some?
  {
    if idx == 0 then [Get(Table.units, cs[idx])]
    else if idx == 1 then [Get(Table.decades, cs[idx])]
    else [Some(Connective), Some(Phrase(cs[idx], idx))]
  }

  /** The for-loop over the components from position idx on, with the words of the
      earlier positions in acc. A zero component returns the zero word alone; a
      position without a tier name raises. */
  function NameLoop(cs: seq<nat>, idx: nat, acc: seq<Token>): (r: Result<seq<Token>>)
    requires idx <= |cs|
    ensures r.Err? ==> r.error == MissingTier
    ensures r.Ok? ==> r.value == [Some(ZeroWord)] || (|acc| <= |r.value| && r.value[..|acc|] == acc)
    decreases |cs| - idx
  {
    if idx == |cs| then Ok(acc)
    else if cs[idx] == 0 then Ok([Some(ZeroWord)])
    else if idx >= 2 && idx !in Table.tiers then Err(MissingTier)
    else NameLoop(cs, idx + 1, acc + Emit(cs, idx))
  }

  /** What `words_list` returns for the number n. */
  function Words(n: int): (r: Result<seq<Token>>)
    ensures r == Err(NotIterable) <==> n == 0
    ensures r.Err? ==> r.error == NotIterable || r.error == MissingTier
    ensures n < 0 ==> r == Ok([])
  {
    match Decompose(n)
    case BareZero => Err(NotIterable)
    case Terms(cs) => NameLoop(cs, 0, [])
  }

  /** The number of tokens for k nonzero digits: one each for units and tens, two for
      every higher position. */
  function NameLength(k: nat): (len: nat)
  {
    (if k < 2 then k else 2) + 2 * (if k > 2 then k - 2 else 0)
  }

  /** The tokens that position j of cs contributes to the word list r. */
  ghost predicate TokensAt(r: seq<Token>, cs: seq<nat>, j: nat)
  {
    j < |cs| && NameLength(j + 1) <= |r| &&
    (j == 0 ==> r[0] == Get(Table.units, cs[0])) &&
    (j == 1 ==> r[1] == Get(Table.decades, cs[1])) &&
    (j >= 2 ==> j in Table.tiers && r[2 * j - 2] == Some(Connective) && r[2 * j - 1] == Some(Phrase(cs[j], j)))
  }

  lemma {:induction false} FirstDigitOfComponent(d: nat, i: nat)
    requires 1 <= d <= 9
    ensures FirstDigit(d * Pow10(i)) == d
  {
    if i > 0 {
      var m := d * Pow10(i - 1);
      assert d * Pow10(i) == m * 10;
      MulLe(1, d, Pow10(i - 1));
      DivUnique(m * 10, 10, m, 0);
      FirstDigitOfComponent(d, i - 1);
    }
  }

  lemma {:induction false} NameLoopNoZero(cs: seq<nat>, idx: nat, acc: seq<Token>)
    requires idx <= |cs| <= 16 && |acc| == NameLength(idx)
    requires forall j :: idx <= j < |cs| ==> cs[j] != 0
    ensures NameLoop(cs, idx, acc).Ok?
    ensures |NameLoop(cs, idx, acc).value| == NameLength(|cs|)
    ensures NameLoop(cs, idx, acc).value[..|acc|] == acc
    ensures forall j :: idx <= j < |cs| ==> TokensAt(NameLoop(cs, idx, acc).value, cs, j)
    decreases |cs| - idx
  {
    if idx < |cs| {
      TierNames(idx);
      var acc' := acc + Emit(cs, idx);
      assert NameLoop(cs, idx, acc) == NameLoop(cs, idx + 1, acc');
      NameLoopNoZero(cs, idx + 1, acc');
      var r := NameLoop(cs, idx + 1, acc').value;
      PrefixOfPrefix(r, acc, Emit(cs, idx));
      EmitPlaced(r, acc, cs, idx);
    }
  }

  lemma PrefixOfPrefix<T>(r: seq<T>, a: seq<T>, b: seq<T>)
    requires |a + b| <= |r| && r[..|a + b|] == a + b
    ensures r[..|a|] == a
  {
    assert r[..|a|] == (a + b)[..|a|];
  }

  /** A word list that extends acc + Emit(cs, idx) holds the tokens of position idx. */
  lemma EmitPlaced(r: seq<Token>, acc: seq<Token>, cs: seq<nat>, idx: nat)
    requires idx < |cs| && idx <= 15 && |acc| == NameLength(idx)
    requires |acc + Emit(cs, idx)| <= |r| && r[..|acc + Emit(cs, idx)|] == acc + Emit(cs, idx)
    ensures TokensAt(r, cs, idx)
  {
    var e := Emit(cs, idx);
    assert r[|acc|..|acc + e|] == e;
    if idx >= 2 {
      assert |acc| == 2 * idx - 2;
      assert r[2 * idx - 2] == e[0] && r[2 * idx - 1] == e[1];
    }
  }

  lemma {:induction false} NameLoopStopsAtZero(cs: seq<nat>, idx: nat, acc: seq<Token>, z: nat)
    requires idx <= z < |cs| && z <= 16 && cs[z] == 0
    requires forall j :: idx <= j < z ==> cs[j] != 0
    ensures NameLoop(cs, idx, acc) == Ok([Some(ZeroWord)])
    decreases z - idx
  {
    if idx < z {
      TierNames(idx);
      NameLoopStopsAtZero(cs, idx + 1, acc + Emit(cs, idx), z);
    }
  }

  lemma {:induction false} NameLoopMissingTier(cs: seq<nat>, idx: nat, acc: seq<Token>)
    requires idx <= 16 < |cs|
    requires forall j :: idx <= j <= 16 ==> cs[j] != 0
    ensures NameLoop(cs, idx, acc) == Err(MissingTier)
    decreases 16 - idx
  {
    TierNames(idx);
    if idx < 16 {
      NameLoopMissingTier(cs, idx + 1, acc + Emit(cs, idx));
    }
  }

  lemma ComponentIsZero(n: int, i: nat)
    requires n > 0 && i < DigitCount(n)
    ensures Decompose(n).Terms? && |Decompose(n).components| == DigitCount(n)
    ensures Decompose(n).components[i] == 0 <==> Digit(n, i) == 0
  {
    DecomposeDigits(n);
    if Digit(n, i) != 0 {
      MulLe(1, Digit(n, i), Pow10(i));
    }
  }

  lemma FirstZero(cs: seq<nat>, z: nat) returns (f: nat)
    requires z < |cs| && cs[z] == 0
    ensures f <= z && cs[f] == 0
    ensures forall j :: 0 <= j < f ==> cs[j] != 0
    decreases z
  {
    if j :| 0 <= j < z && cs[j] == 0 {
      f := FirstZero(cs, j);
    } else {
      f := z;
    }
  }

  lemma WordsStopAtZero(n: int, i: nat)
    requires n > 0 && i < DigitCount(n) && i <= 16 && Digit(n, i) == 0
    ensures Words(n) == Ok([Some(ZeroWord)])
  {
    DecomposeDigits(n);
    var cs := Decompose(n).components;
    ComponentIsZero(n, i);
    var f := FirstZero(cs, i);
    NameLoopStopsAtZero(cs, 0, [], f);
  }

  lemma WordsNotZeroWord(n: int)
    requires n > 0 && DigitCount(n) <= 16
    requires forall i :: 0 <= i < DigitCount(n) ==> Digit(n, i) != 0
    ensures Words(n).Ok? && Words(n) != Ok([Some(ZeroWord)])
  {
    WordsNoZero(n);
    var r := Words(n).value;
    if DigitCount(n) == 1 {
      var cs := Decompose(n).components;
      assert TokensAt(r, cs, 0);
      UnitWords(cs[0]);
    }
  }

  /** A positive number is named by the zero word alone exactly when one of its digits
      at positions 0 to 16 is zero: the loop returns at the first zero component, and
      position 16 is the first it cannot name. Below 10^16 this means: any zero digit. */
  lemma WordsZeroDigit(n: int)
    requires n > 0
    ensures Words(n) == Ok([Some(ZeroWord)]) <==>
      exists i :: 0 <= i < DigitCount(n) && i <= 16 && Digit(n, i) == 0
  {
    var k := DigitCount(n);
    if exists i :: 0 <= i < k && i <= 16 && Digit(n, i) == 0 {
      var i :| 0 <= i < k && i <= 16 && Digit(n, i) == 0;
      WordsStopAtZero(n, i);
    } else if k > 16 {
      assert forall i :: 0 <= i <= 16 ==> Digit(n, i) != 0;
      WordsReachTier16(n);
    } else {
      WordsNotZeroWord(n);
    }
  }

  lemma WordsReachTier16(n: int)
    requires n > 0 && DigitCount(n) > 16
    requires forall i :: 0 <= i <= 16 ==> Digit(n, i) != 0
    ensures Words(n) == Err(MissingTier)
  {
    DecomposeDigits(n);
    var cs := Decompose(n).components;
    forall j | 0 <= j <= 16
      ensures cs[j] != 0
    {
      ComponentIsZero(n, j);
    }
    NameLoopMissingTier(cs, 0, []);
  }

  /** A positive number fails with a missing tier exactly when it has more than 16
      digits and none of the digits at positions 0 to 16 is zero. */
  lemma WordsTierOverflow(n: int)
    requires n > 0
    ensures Words(n) == Err(MissingTier) <==>
      DigitCount(n) > 16 && forall i :: 0 <= i <= 16 ==> Digit(n, i) != 0
  {
    var k := DigitCount(n);
    if exists i :: 0 <= i < k && i <= 16 && Digit(n, i) == 0 {
      var i :| 0 <= i < k && i <= 16 && Digit(n, i) == 0;
      WordsStopAtZero(n, i);
    } else if k > 16 {
      assert forall i :: 0 <= i <= 16 ==> Digit(n, i) != 0;
      WordsReachTier16(n);
    } else {
      WordsNoZero(n);
    }
  }

  lemma {:induction false} WordsNoZero(n: int)
    requires n > 0 && DigitCount(n) <= 16
    requires forall i :: 0 <= i < DigitCount(n) ==> Digit(n, i) != 0
    ensures Decompose(n).Terms? && |Decompose(n).components| == DigitCount(n)
    ensures Words(n).Ok? && |Words(n).value| == NameLength(DigitCount(n))
    ensures forall j :: 0 <= j < DigitCount(n) ==> TokensAt(Words(n).value, Decompose(n).components, j)
  {
    DecomposeShape(n);
    var cs := Decompose(n).components;
    forall j | 0 <= j < DigitCount(n)
      ensures cs[j] != 0
    {
      ComponentIsZero(n, j);
    }
    NameLoopNoZero(cs, 0, []);
  }

  lemma PhraseOfComponent(d: nat, i: nat)
    requires 1 <= d <= 9 && 2 <= i <= 15
    ensures Phrase(d * Pow10(i), i) == UnitWord(d) + " " + TierName(i)
  {
    FirstDigitOfComponent(d, i);
    UnitWords(d);
  }

  lemma HigherTokens(n: int, i: nat)
    requires n > 0 && 2 <= i < DigitCount(n) <= 16
    requires forall j :: 0 <= j < DigitCount(n) ==> Digit(n, j) != 0
    ensures Words(n).Ok? && 2 * i - 1 < |Words(n).value|
    ensures Words(n).value[2 * i - 2] == Some(Connective)
    ensures Words(n).value[2 * i - 1] == Some(UnitWord(Digit(n, i)) + " " + TierName(i))
  {
    WordsNoZero(n);
    DecomposeDigits(n);
    var cs := Decompose(n).components;
    var r := Words(n).value;
    var d := Digit(n, i);
    assert TokensAt(r, cs, i);
    assert r[2 * i - 1] == Some(Phrase(cs[i], i));
    assert cs[i] == d * Pow10(i);
    PhraseOfComponent(d, i);
  }

  lemma HigherTokensAll(n: int)
    requires n > 0 && DigitCount(n) <= 16
    requires forall i :: 0 <= i < DigitCount(n) ==> Digit(n, i) != 0
    ensures Words(n).Ok? && |Words(n).value| == NameLength(DigitCount(n))
    ensures forall i :: 2 <= i < DigitCount(n) ==>
      Words(n).value[2 * i - 2] == Some(Connective) &&
      Words(n).value[2 * i - 1] == Some(UnitWord(Digit(n, i)) + " " + TierName(i))
  {
    WordsNoZero(n);
    forall i | 2 <= i < DigitCount(n)
      ensures Words(n).value[2 * i - 2] == Some(Connective)
      ensures Words(n).value[2 * i - 1] == Some(UnitWord(Digit(n, i)) + " " + TierName(i))
    {
      HigherTokens(n, i);
    }
  }

  lemma TensToken(n: int)
    requires n > 0 && 2 <= DigitCount(n) <= 16
    requires forall i :: 0 <= i < DigitCount(n) ==> Digit(n, i) != 0
    ensures Words(n).Ok? && |Words(n).value| == NameLength(DigitCount(n))
    ensures Words(n).value[1] == None <==> Digit(n, 1) == 6
    ensures Words(n).value[1] == Get(Table.decades, 10 * Digit(n, 1))
  {
    LowTokens(n);
    DecadeWords(Digit(n, 1));
  }

  lemma UnitsToken(n: int)
    requires n > 0 && DigitCount(n) <= 16
    requires forall i :: 0 <= i < DigitCount(n) ==> Digit(n, i) != 0
    ensures Words(n).Ok? && |Words(n).value| == NameLength(DigitCount(n))
    ensures Words(n).value[0] == Some(UnitWord(Digit(n, 0)))
  {
    WordsNoZero(n);
    DecomposeDigitAt(n, 0);
    var cs := Decompose(n).components;
    assert TokensAt(Words(n).value, cs, 0);
    UnitWords(Digit(n, 0));
  }

  lemma DecadeToken(n: int)
    requires n > 0 && 2 <= DigitCount(n) <= 16
    requires forall i :: 0 <= i < DigitCount(n) ==> Digit(n, i) != 0
    ensures Words(n).Ok? && |Words(n).value| == NameLength(DigitCount(n))
    ensures Words(n).value[1] == Get(Table.decades, 10 * Digit(n, 1))
  {
    WordsNoZero(n);
    var cs := Decompose(n).components;
    assert TokensAt(Words(n).value, cs, 1);
    assert Pow10(1) == 10;
    DecomposeDigitAt(n, 1);
  }

  lemma LowTokens(n: int)
    requires n > 0 && DigitCount(n) <= 16
    requires forall i :: 0 <= i < DigitCount(n) ==> Digit(n, i) != 0
    ensures Words(n).Ok? && |Words(n).value| == NameLength(DigitCount(n))
    ensures Words(n).value[0] == Some(UnitWord(Digit(n, 0)))
    ensures DigitCount(n) >= 2 ==> Words(n).value[1] == Get(Table.decades, 10 * Digit(n, 1))
  {
    UnitsToken(n);
    if DigitCount(n) >= 2 {
      DecadeToken(n);
    }
  }

  /** The word list of a number of k <= 16 digits, none of them zero: the unit word,
      then the decade word looked up by the tens component (None for a tens digit 6),
      then for every higher position the connective and "<unit word of its digit>
      <tier name>", in order of position. */
  lemma WordsShape(n: int)
    requires n > 0 && DigitCount(n) <= 16
    requires forall i :: 0 <= i < DigitCount(n) ==> Digit(n, i) != 0
    ensures Words(n).Ok?
    ensures |Words(n).value| == NameLength(DigitCount(n))
    ensures Words(n).value[0] == Some(UnitWord(Digit(n, 0)))
    ensures DigitCount(n) >= 2 ==>
      (Words(n).value[1] == None <==> Digit(n, 1) == 6) &&
      Words(n).value[1] == Get(Table.decades, 10 * Digit(n, 1))
    ensures forall i :: 2 <= i < DigitCount(n) ==>
      Words(n).value[2 * i - 2] == Some(Connective) &&
      Words(n).value[2 * i - 1] == Some(UnitWord(Digit(n, i)) + " " + TierName(i))
  {
    LowTokens(n);
    if DigitCount(n) >= 2 {
      TensToken(n);
    }
    HigherTokensAll(n);
  }

  /** Zero fails, because break_down hands back a bare int; a negative number, whose
      break_down is empty, has an empty word list. */
  lemma WordsNonPositive(n: int)
    requires n <= 0
    ensures n == 0 ==> Words(n) == Err(NotIterable)
    ensures n < 0 ==> Words(n) == Ok([])
  {
  }

  /** 123 breaks down as 3 + 20 + 100 and is named unit, decade, connective and "one
      hundred"; this is the number the module prints when it is imported. */
  lemma WordsOf123()
    ensures Decompose(123) == Terms([3, 20, 100])
    ensures Words(123) == Ok([Some("त्रि"), Some("विंशति"), Some(Connective), Some("एक शत")])
  {
    assert PlaceValues(1, 2) == [100];
    assert PlaceValues(12, 1) == [20, 100];
    assert PlaceValues(123, 0) == [3, 20, 100];
    NameLoopOf123();
  }

  lemma NameLoopOf123()
    ensures NameLoop([3, 20, 100], 0, []) == Ok([Some("त्रि"), Some("विंशति"), Some(Connective), Some("एक शत")])
  {
    var cs: seq<nat> := [3, 20, 100];
    var w := [Some("त्रि"), Some("विंशति"), Some(Connective), Some("एक शत")];
    EmitOf123();
    assert NameLoop(cs, 3, w) == Ok(w);
    assert w[..2] + Emit(cs, 2) == w && w[..1] + Emit(cs, 1) == w[..2] && [] + Emit(cs, 0) == w[..1];
    assert NameLoop(cs, 2, w[..2]) == NameLoop(cs, 3, w);
    assert NameLoop(cs, 1, w[..1]) == NameLoop(cs, 2, w[..2]);
  }

  lemma EmitOf123()
    ensures Emit([3, 20, 100], 0) == [Some("त्रि")]
    ensures Emit([3, 20, 100], 1) == [Some("विंशति")]
    ensures Emit([3, 20, 100], 2) == [Some(Connective), Some("एक शत")]
  {
    assert FirstDigit(100) == 1;
    assert Phrase(100, 2) == "एक शत";
  }

  /** 20 and 105 have a zero place and are named by the zero word alone. */
  lemma WordsOfZeroPlace()
    ensures Words(20) == Ok([Some(ZeroWord)]) && Words(105) == Ok([Some(ZeroWord)])
  {
    assert PlaceValues(20, 0) == [0, 20];
    assert Decompose(105).components[1] == 0 by {
      assert PlaceValues(105, 0) == [5] + PlaceValues(10, 1);
      assert PlaceValues(10, 1) == [0] + PlaceValues(1, 2);
    }
    assert Words(105) == NameLoop(Decompose(105).components, 1, [Some("पञ्च")]);
  }

  /** 61 is named by the unit word and the None of the missing decade 60. */
  lemma WordsOf61()
    ensures Words(61) == Ok([Some("एक"), None])
  {
    var cs: seq<nat> := [1, 60];
    assert PlaceValues(61, 0) == cs;
    assert Get(Table.units, 1) == Some("एक");
    assert Get(Table.decades, 60) == None;
    assert Emit(cs, 0) == [Some("एक")];
    assert Emit(cs, 1) == [None];
    assert NameLoop(cs, 2, [Some("एक"), None]) == Ok([Some("एक"), None]);
    assert [Some("एक")] + [None] == [Some("एक"), None];
    assert NameLoop(cs, 1, [Some("एक")]) == NameLoop(cs, 2, [Some("एक"), None]);
    assert [] + Emit(cs, 0) == [Some("एक")];
    assert NameLoop(cs, 0, []) == NameLoop(cs, 1, [Some("एक")]);
    assert Words(61) == NameLoop(cs, 0, []);
  }
}
