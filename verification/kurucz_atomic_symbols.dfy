/**
 * The Kurucz ion-notation codec: between a Kurucz line-list code `Z.SS`
 * (atomic number `Z`, zero-based ionization-stage index `SS`) and the
 * readable form `"<Symbol> <Stage>"`, for example `26.01` and `"Fe II"`.
 *
 * Decoding never fails on an unknown atomic number or a too-large stage
 * index: it writes a placeholder instead. Parsing and encoding fail on an
 * unknown symbol or an unreadable stage token.
 */
module KuruczAtomicSymbols {
  import opened PyText
  import opened KuruczTables

  /** The exceptions the codec raises. */
  datatype Error =
    | UnknownSymbol(symbol: string)         // ValueError from encode
    | InvalidIonStage(token: string)        // ValueError from parse
    | MissingSymbol                         // IndexError: the input has no words
    | StageIndexOutOfRange(index: int)      // IndexError: ION_STAGES[index] with index < -20

  datatype Result<T> = Success(value: T) | Failure(error: Error)

  /** The text the raised exception carries; a ValueError is a fixed
      prefix followed by the offending symbol or token. */
  function Message(e: Error): (m: string)
    ensures e.UnknownSymbol? ==>
      |e.symbol| <= |m| && m[..|m| - |e.symbol|] == "Unknown symbol: " && m[|m| - |e.symbol|..] == e.symbol
    ensures e.InvalidIonStage? ==>
      |e.token| <= |m| && m[..|m| - |e.token|] == "Invalid ion stage: " && m[|m| - |e.token|..] == e.token
    ensures e.MissingSymbol? || e.StageIndexOutOfRange? ==> m == "list index out of range"
  {
    match e
    case UnknownSymbol(symbol) => "Unknown symbol: " + symbol
    case InvalidIonStage(token) => "Invalid ion stage: " + token
    case MissingSymbol => "list index out of range"
    case StageIndexOutOfRange(_) => "list index out of range"
  }

  // ---------------------------------------------------------------------------
  // Decoding: code -> "<Symbol> <Stage>"
  // ---------------------------------------------------------------------------

  /** The element half of a decoded code: the listed symbol, or the
      placeholder `Z=<atomic number>`. */
  function ElementText(atomicNum: int): (t: string)
    ensures atomicNum in AtomicNumbers ==> SpelledAtomicNumber(t) == atomicNum
    ensures atomicNum !in AtomicNumbers ==>
      |t| > 2 && t[..2] == "Z=" && IsIntLiteral(t[2..]) && ParseInt(t[2..]) == atomicNum
  {
    if atomicNum in AtomicNumbers then
      SpellingRecoversAtomicNumber();
      AtomicNumbers[atomicNum]
    else
      var t := "Z=" + IntToString(atomicNum);
      assert t[2..] == IntToString(atomicNum);
      t
  }

  /** The stage half of a decoded code: the Roman numeral at that index, or
      the placeholder `IonStage=<index>` when the index is 20 or more. The
      bound check is one-sided, so a negative index counts from the end of
      the list as Python's indexing does, and one below -20 is an IndexError. */
  function StageText(ionStage: int): (r: Result<string>)
    ensures r.Failure? <==> ionStage < -|IonStages|
    ensures r.Failure? ==> r.error == StageIndexOutOfRange(ionStage)
    ensures -|IonStages| <= ionStage < |IonStages| ==> r == Success(IonStages[ionStage % |IonStages|])
    ensures ionStage >= |IonStages| ==>
      && r.Success? && |r.value| > 9 && r.value[..9] == "IonStage="
      && IsIntLiteral(r.value[9..]) && ParseInt(r.value[9..]) == ionStage
  {
    if ionStage < |IonStages| then
      if ionStage >= 0 then Success(IonStages[ionStage])
      else if ionStage >= -|IonStages| then
        assert ionStage % |IonStages| == |IonStages| + ionStage;
        Success(IonStages[|IonStages| + ionStage])
      else Failure(StageIndexOutOfRange(ionStage))
    else
      var t := "IonStage=" + IntToString(ionStage);
      assert t[9..] == IntToString(ionStage);
      Success(t)
  }

  /** `kurucz_code_to_symbol`, from the atomic number and stage index the
      code has already been split into. */
  function Decode(atomicNum: int, ionStage: int): (r: Result<string>)
    ensures r.Failure? <==> ionStage < -|IonStages|
    ensures r.Failure? ==> r.error == StageIndexOutOfRange(ionStage)
    ensures atomicNum in AtomicNumbers && 0 <= ionStage < |IonStages| ==>
      r == Success(AtomicNumbers[atomicNum] + " " + IonStages[ionStage])
    ensures r.Success? ==>
      var words := Split(r.value);
      |words| == 2 && r.value == words[0] + " " + words[1]
  {
    match StageText(ionStage)
    case Failure(e) => Failure(e)
    case Success(stage) =>
      var symbol := ElementText(atomicNum);
      ElementTextIsWord(atomicNum);
      StageTextIsWord(ionStage);
      SplitTwoWords(symbol, stage);
      Success(symbol + " " + stage)
  }

  lemma ElementTextIsWord(atomicNum: int)
    ensures IsWord(ElementText(atomicNum))
  {
    if atomicNum in AtomicNumbers {
      SpellingRecoversAtomicNumber();
    } else {
      PrintableWord("Z=");
      WordAppend("Z=", IntToString(atomicNum));
    }
  }

  lemma StageTextIsWord(ionStage: int)
    requires StageText(ionStage).Success?
    ensures IsWord(StageText(ionStage).value)
  {
    if ionStage < |IonStages| {
      IonStagesWellFormed();
    } else {
      PrintableWord("IonStage=");
      WordAppend("IonStage=", IntToString(ionStage));
    }
  }

  /** The placeholders: an unlisted atomic number becomes the word
      `Z=<atomic number>`, a stage index of 20 or more the word
      `IonStage=<index>`, and a negative index from -20 to -1 names the stage
      that far from the end of the list. */
  lemma DecodePlaceholders(atomicNum: int, ionStage: int)
    requires ionStage >= -|IonStages|
    ensures Decode(atomicNum, ionStage).Success?
    ensures var words := Split(Decode(atomicNum, ionStage).value);
      && |words| == 2
      && (atomicNum in AtomicNumbers ==> words[0] == AtomicNumbers[atomicNum])
      && (atomicNum !in AtomicNumbers ==> words[0] == "Z=" + IntToString(atomicNum))
      && (0 <= ionStage < |IonStages| ==> words[1] == IonStages[ionStage])
      && (ionStage < 0 ==> words[1] == IonStages[|IonStages| + ionStage])
      && (ionStage >= |IonStages| ==> words[1] == "IonStage=" + IntToString(ionStage))
  {
    var symbol := ElementText(atomicNum);
    var stage := StageText(ionStage).value;
    ElementTextIsWord(atomicNum);
    StageTextIsWord(ionStage);
    SplitTwoWords(symbol, stage);
    assert Decode(atomicNum, ionStage).value == symbol + " " + stage;
  }

  /** Largest number of integer digits of a code text. Up to this width a
      double keeps the two decimal places of `Z.SS` exactly enough that
      `round((x - Z) * 100)` gives back `SS`. */
  const MaxCodeDigits := 12

  /** A code text the model reads exactly: one to twelve ASCII digits, then
      optionally a point and at most two digits (`"26"`, `"26."`, `"26.1"`,
      `"26.01"`). */
  predicate IsCodeText(code: string)
  {
    var k := DigitRun(code);
    && 1 <= k <= MaxCodeDigits
    && (k == |code| || (code[k] == '.' && |code| - (k + 1) <= 2 && AllDigits(code[k + 1..])))
  }

  /** `float(code)`, then `int(x)` and `round((x - Z) * 100)`, computed on
      the exact decimal value of the text: the integer part and the number of
      hundredths. Taking the exact value in place of the double is the
      model's one assumption about floating point. */
  function ReadCode(code: string): (parts: (int, int))
    requires IsCodeText(code)
    ensures 0 <= parts.0 < Pow10(MaxCodeDigits)
    ensures 0 <= parts.1 < 100
  {
    var k := DigitRun(code);
    var frac := if k == |code| then "" else code[k + 1..];
    var hundredths :=
      if |frac| == 2 then DigitsValue(frac)
      else if |frac| == 1 then 10 * DigitsValue(frac)
      else 0;
    DigitsValueBound(code[..k]);
    DigitsValueBound(frac);
    assert Pow10(k) <= Pow10(MaxCodeDigits) by { Pow10Monotone(k, MaxCodeDigits); }
    (DigitsValue(code[..k]), hundredths)
  }

  /** `kurucz_code_to_symbol` on a code text. It never fails: the stage
      index read from a code text is never negative. */
  function DecodeCode(code: string): (r: string)
    requires IsCodeText(code)
    ensures Success(r) == Decode(ReadCode(code).0, ReadCode(code).1)
    ensures |Split(r)| == 2
  {
    var (atomicNum, ionStage) := ReadCode(code);
    Decode(atomicNum, ionStage).value
  }

  // ---------------------------------------------------------------------------
  // Parsing and encoding: "<Symbol> <Stage>" -> code
  // ---------------------------------------------------------------------------

  /** `ion_part_is_decimal`: whether `int()` accepts the stage token. No
      Roman numeral of the list is such a token, so trying `int()` first
      never hides one. */
  predicate IonPartIsDecimal(ionPart: string)
    ensures IonPartIsDecimal(ionPart) ==> ionPart !in IonStages
  {
    IonStagesWellFormed();
    IsIntLiteral(ionPart)
  }

  /** `parse_symbol_and_ion`: the first word is the symbol, unchecked; the
      second word, or `"I"` when there is none, is the stage token. A token
      `int()` accepts is taken literally as the zero-based index; otherwise
      the token must be one of the Roman numerals, and its position is the
      index. Words after the second are ignored. */
  function ParseSymbolAndIon(text: string): (r: Result<(string, int)>)
    ensures r == Failure(MissingSymbol) <==> AllSpace(text)
    ensures r.Success? ==> r.value.0 == Split(text)[0]
  {
    SplitOfStrip(text);
    SplitEmpty(text);
    var parts := Split(Strip(text));
    if parts == [] then Failure(MissingSymbol)
    else
      var symbol := parts[0];
      var ionPart := if |parts| > 1 then parts[1] else "I";
      match ResolveIonStage(ionPart)
      case Success(ionStage) => Success((symbol, ionStage))
      case Failure(e) => Failure(e)
  }

  /** The stage index a stage token names: the integer itself when `int()`
      accepts the token, which is tried first; else the token's position in
      `ION_STAGES`; else an InvalidIonStage error. */
  function ResolveIonStage(ionPart: string): (r: Result<int>)
    ensures r.Failure? <==> !IsIntLiteral(ionPart) && ionPart !in IonStages
    ensures r.Failure? ==> r.error == InvalidIonStage(ionPart)
    ensures IsIntLiteral(ionPart) ==> r == Success(ParseInt(ionPart))
    ensures r.Success? && !IsIntLiteral(ionPart) ==>
      0 <= r.value < |IonStages| && IonStages[r.value] == ionPart
  {
    if IonPartIsDecimal(ionPart) then Success(ParseInt(ionPart))
    else if ionPart in IonStages then Success(IndexOf(IonStages, ionPart))
    else Failure(InvalidIonStage(ionPart))
  }

  /** The code text `f"{atomic_num}.{ion_stage:02d}"`. For a stage index in
      0..99 it is a code text that reads back as the same two numbers. */
  function FormatCode(atomicNum: int, ionStage: int): (code: string)
    ensures var n := |IntToString(atomicNum)|;
      && |code| > n + 1 && code[..n] == IntToString(atomicNum) && code[n] == '.'
      && (0 <= ionStage < 100 ==> code[n + 1..] == [DigitChar(ionStage / 10), DigitChar(ionStage % 10)])
      && (ionStage >= 100 || ionStage < 0 ==> code[n + 1..] == IntToString(ionStage))
    ensures 0 <= atomicNum < Pow10(MaxCodeDigits) && 0 <= ionStage < 100 ==>
      IsCodeText(code) && ReadCode(code) == (atomicNum, ionStage)
  {
    var code := IntToString(atomicNum) + "." + ZeroPad2(ionStage);
    assert code[..|IntToString(atomicNum)|] == IntToString(atomicNum);
    assert code[|IntToString(atomicNum)| + 1..] == ZeroPad2(ionStage);
    if 0 <= atomicNum < Pow10(MaxCodeDigits) && 0 <= ionStage < 100 then
      FormatCodeReadsBack(atomicNum, ionStage);
      code
    else
      code
  }

  lemma FormatCodeReadsBack(atomicNum: int, ionStage: int)
    requires 0 <= atomicNum < Pow10(MaxCodeDigits) && 0 <= ionStage < 100
    ensures var code := IntToString(atomicNum) + "." + ZeroPad2(ionStage);
      IsCodeText(code) && ReadCode(code) == (atomicNum, ionStage)
  {
    var whole, frac := IntToString(atomicNum), ZeroPad2(ionStage);
    NatToStringLength(atomicNum, MaxCodeDigits);
    NatToStringLength(ionStage, 2);
    assert frac[0] != '-' && frac[0] != '+';
    CodeTextParts(whole, frac);
  }

  /** Digits, a point and two digits form a code text whose parts are the
      values of the two digit strings. */
  lemma CodeTextParts(whole: string, frac: string)
    requires IsDigits(whole) && |whole| <= MaxCodeDigits
    requires IsDigits(frac) && |frac| == 2
    ensures IsCodeText(whole + "." + frac)
    ensures ReadCode(whole + "." + frac) == (DigitsValue(whole), DigitsValue(frac))
  {
    CodeTextDecimals(whole, frac);
    Hundredths(frac);
  }

  /** The decimals of a code text padded on the right with zeros to two
      digits: `"1"` becomes `"10"`, `""` becomes `"00"`. */
  function PadDecimals(frac: string): (p: string)
    requires AllDigits(frac) && |frac| <= 2
    ensures |p| == 2 && AllDigits(p)
    ensures p[..|frac|] == frac && forall i | |frac| <= i < 2 :: p[i] == '0'
  {
    frac + if |frac| == 0 then "00" else if |frac| == 1 then "0" else ""
  }

  /** A code text with a point: the integer part is the value of the digits
      before it, and the at most two digits after it are decimals, so they
      count hundredths once padded on the right with zeros (`26.` is stage
      index 0, `26.1` is 10). */
  lemma CodeTextDecimals(whole: string, frac: string)
    requires IsDigits(whole) && |whole| <= MaxCodeDigits
    requires AllDigits(frac) && |frac| <= 2
    ensures IsCodeText(whole + "." + frac)
    ensures ReadCode(whole + "." + frac) == (DigitsValue(whole), DigitsValue(PadDecimals(frac)))
  {
    var code := whole + "." + frac;
    DigitRunOfDigits(whole, "." + frac);
    AppendAssoc(whole, ".", frac);
    assert code[..|whole|] == whole;
    assert code[|whole| + 1..] == frac;
    Hundredths(frac);
  }

  /** The digits after the point, read as hundredths. */
  lemma Hundredths(frac: string)
    requires AllDigits(frac) && |frac| <= 2
    ensures var h := DigitsValue(PadDecimals(frac));
      && (|frac| == 2 ==> h == DigitsValue(frac))
      && (|frac| == 1 ==> h == 10 * DigitsValue(frac))
      && (|frac| == 0 ==> h == 0)
  {
    if |frac| == 2 {
      assert PadDecimals(frac) == frac;
    } else if |frac| == 1 {
      assert PadDecimals(frac) == frac + "0";
      AppendZero(frac);
    } else {
      assert PadDecimals(frac) == "00";
      assert DigitsValue("00") == 10 * DigitsValue("0");
    }
  }

  /** A zero digit on the right multiplies the value by ten. */
  lemma AppendZero(s: string)
    requires AllDigits(s)
    ensures AllDigits(s + "0") && DigitsValue(s + "0") == 10 * DigitsValue(s)
  {
    assert (s + "0")[..|s|] == s;
  }

  /** A code text without a point is a whole atomic number, stage index 0. */
  lemma CodeTextWhole(whole: string)
    requires IsDigits(whole) && |whole| <= MaxCodeDigits
    ensures IsCodeText(whole)
    ensures ReadCode(whole) == (DigitsValue(whole), 0)
  {
    assert whole + [] == whole;
    DigitRunOfDigits(whole, []);
    assert whole[..|whole|] == whole;
  }

  /** `symbol_to_kurucz_code`: parse, look the symbol up in `SYMBOLS`, and
      write the code. Parse errors pass through; a symbol that is not listed
      is an UnknownSymbol error. */
  function Encode(text: string): (r: Result<string>)
    ensures ParseSymbolAndIon(text).Failure? ==> r == Failure(ParseSymbolAndIon(text).error)
    ensures ParseSymbolAndIon(text).Success? ==>
      var (symbol, ionStage) := ParseSymbolAndIon(text).value;
      && (symbol !in Symbols ==> r == Failure(UnknownSymbol(symbol)))
      && (symbol in Symbols ==> r == Success(FormatCode(Symbols[symbol], ionStage)))
  {
    match ParseSymbolAndIon(text)
    case Failure(e) => Failure(e)
    case Success((symbol, ionStage)) =>
      if symbol !in Symbols then Failure(UnknownSymbol(symbol))
      else Success(FormatCode(Symbols[symbol], ionStage))
  }
}
