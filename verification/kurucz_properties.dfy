/**
 * What the ion-notation codec promises across its operations: how the
 * readable form is tokenised and its stage resolved, what an encoded code
 * reads back as, and the two round trips between codes and the readable
 * form.
 */
module KuruczProperties {
  import opened PyText
  import opened KuruczTables
  import opened KuruczAtomicSymbols

  // ---------------------------------------------------------------------------
  // Parsing
  // ---------------------------------------------------------------------------

  /** A lone symbol, with any whitespace around it, parses with the default
      stage `"I"`, index 0. The symbol itself is not checked. */
  lemma ParseSymbolOnly(pre: string, symbol: string, post: string)
    requires AllSpace(pre) && AllSpace(post) && IsWord(symbol)
    ensures ParseSymbolAndIon(pre + symbol + post) == Success((symbol, 0))
  {
    var text := pre + symbol + post;
    StripPadded(pre, symbol, post);
    assert symbol == [] + symbol + [];
    SplitFirstWord([], symbol, []);
    SplitEmpty([]);
    IonStagesWellFormed();
    assert IonStages[0] == "I";
  }

  /** How the stage token is resolved, for a symbol followed by one space,
      the token, and optionally more words: a token `int()` accepts is the
      index itself, taken before any Roman-numeral lookup; otherwise a Roman
      numeral gives its position in the list; anything else is an
      InvalidIonStage error naming the token. */
  lemma ParseStageToken(symbol: string, token: string, rest: string)
    requires IsWord(symbol) && IsWord(token)
    requires rest == [] || IsSpace(rest[0])
    ensures var r := ParseSymbolAndIon(symbol + " " + token + rest);
      && (IsIntLiteral(token) ==> r == Success((symbol, ParseInt(token))))
      && (!IsIntLiteral(token) && token in IonStages ==>
            r.Success? && r.value.0 == symbol && 0 <= r.value.1 < |IonStages| && IonStages[r.value.1] == token)
      && (!IsIntLiteral(token) && token !in IonStages ==> r == Failure(InvalidIonStage(token)))
  {
    var text := symbol + " " + token + rest;
    SplitTwoWordsThen(symbol, token, rest);
    SplitOfStrip(text);
    ParseOfWords(text);
  }

  /** What `parse_symbol_and_ion` does with text of two or more words. */
  lemma ParseOfWords(text: string)
    requires |Split(text)| >= 2
    ensures ParseSymbolAndIon(text) ==
      match ResolveIonStage(Split(text)[1])
      case Success(ionStage) => Success((Split(text)[0], ionStage))
      case Failure(e) => Failure(e)
  {
    SplitOfStrip(text);
  }

  /** A Roman numeral from the list parses to its own index. */
  lemma ParseRomanStage(symbol: string, i: int)
    requires IsWord(symbol) && 0 <= i < |IonStages|
    ensures ParseSymbolAndIon(symbol + " " + IonStages[i]) == Success((symbol, i))
  {
    IonStagesWellFormed();
    assert symbol + " " + IonStages[i] + [] == symbol + " " + IonStages[i];
    ParseStageToken(symbol, IonStages[i], []);
  }

  /** Whitespace around the readable form does not change what it parses to. */
  lemma ParseIgnoresPadding(pre: string, text: string, post: string)
    requires AllSpace(pre) && AllSpace(post)
    ensures ParseSymbolAndIon(pre + text + post) == ParseSymbolAndIon(text)
  {
    StripIgnoresPadding(pre, text, post);
  }

  /** Only the first two words matter: words after the stage are ignored. */
  lemma ParseIgnoresExtraWords(a: string, b: string)
    requires |Split(a)| >= 2 && |Split(b)| >= 2
    requires Split(a)[0] == Split(b)[0] && Split(a)[1] == Split(b)[1]
    ensures ParseSymbolAndIon(a) == ParseSymbolAndIon(b)
  {
    SplitOfStrip(a);
    SplitOfStrip(b);
  }

  // ---------------------------------------------------------------------------
  // Encoding
  // ---------------------------------------------------------------------------

  /** A successful encode with a stage index in 0..99 is a code text whose
      integer part is the atomic number listed for the parsed symbol and
      whose two decimals are the parsed stage index. */
  lemma EncodeReadsBack(text: string)
    requires Encode(text).Success?
    requires 0 <= ParseSymbolAndIon(text).value.1 < 100
    ensures IsCodeText(Encode(text).value)
    ensures var (atomicNum, ionStage) := ReadCode(Encode(text).value);
      && atomicNum in AtomicNumbers
      && AtomicNumbers[atomicNum] == ParseSymbolAndIon(text).value.0
      && ionStage == ParseSymbolAndIon(text).value.1
  {
    var (symbol, ionStage) := ParseSymbolAndIon(text).value;
    SymbolsInvertsAtomicNumbers();
    assert 0 <= Symbols[symbol] < Pow10(MaxCodeDigits) by {
      assert Pow10(3) == 1000;
      Pow10Monotone(3, MaxCodeDigits);
    }
  }

  // ---------------------------------------------------------------------------
  // Round trips
  // ---------------------------------------------------------------------------

  /** Decoding a listed atomic number and stage index gives text that parses
      back to that element's symbol and the same index. */
  lemma ParseOfDecode(atomicNum: int, ionStage: int)
    requires atomicNum in AtomicNumbers && 0 <= ionStage < |IonStages|
    ensures ParseSymbolAndIon(Decode(atomicNum, ionStage).value)
      == Success((AtomicNumbers[atomicNum], ionStage))
  {
    SymbolsInvertsAtomicNumbers();
    ParseRomanStage(AtomicNumbers[atomicNum], ionStage);
  }

  /** Decoding a code written by `FormatCode` for a listed atomic number
      and a listed stage gives the symbol and the numeral. */
  lemma DecodeFormatted(atomicNum: int, ionStage: int)
    requires 1 <= atomicNum <= MaxAtomicNumber && 0 <= ionStage < |IonStages|
    ensures IsCodeText(FormatCode(atomicNum, ionStage))
    ensures DecodeCode(FormatCode(atomicNum, ionStage))
      == AtomicNumbers[atomicNum] + " " + IonStages[ionStage]
  {
    SymbolsInvertsAtomicNumbers();
    IonStagesWellFormed();
    assert Pow10(3) == 1000;
    Pow10Monotone(3, MaxCodeDigits);
  }

  /** Code to text and back: for every listed atomic number and stage index
      0..19, encoding the decode of `f"{Z}.{S:02d}"` gives the same code. */
  lemma RoundTripFromCode(atomicNum: int, ionStage: int)
    requires 1 <= atomicNum <= MaxAtomicNumber && 0 <= ionStage < |IonStages|
    ensures var code := FormatCode(atomicNum, ionStage);
      IsCodeText(code) && Encode(DecodeCode(code)) == Success(code)
  {
    SymbolsInvertsAtomicNumbers();
    IonStagesWellFormed();
    assert atomicNum < Pow10(MaxCodeDigits) by {
      assert Pow10(3) == 1000;
      Pow10Monotone(3, MaxCodeDigits);
    }
    ParseOfDecode(atomicNum, ionStage);
  }

  /** Text to code and back: a listed symbol with a Roman numeral from the
      list encodes to a code text that decodes to the same text. */
  lemma RoundTripFromSymbol(symbol: string, i: int)
    requires symbol in Symbols && 0 <= i < |IonStages|
    ensures var text := symbol + " " + IonStages[i];
      && Encode(text).Success?
      && IsCodeText(Encode(text).value)
      && DecodeCode(Encode(text).value) == text
  {
    SymbolsInvertsAtomicNumbers();
    ParseRomanStage(symbol, i);
    var text := symbol + " " + IonStages[i];
    EncodeReadsBack(text);
  }
}
