/**
 * The worked examples the codec documents, checked against the model.
 */
module KuruczExamples {
  import opened PyText
  import opened KuruczTables
  import opened KuruczAtomicSymbols
  import opened KuruczProperties

  /** Iron is element 26, in both directions. */
  lemma IronIs26()
    ensures AtomicNumbers[26] == "Fe" && "Fe" in Symbols && Symbols["Fe"] == 26
  {
    SymbolsInvertsAtomicNumbers();
    assert AtomicNumbers[26] == "Fe";
  }

  /** `str(26)` is `"26"`. */
  lemma TwentySix()
    ensures IntToString(26) == "26"
  {
    assert NatToString(26) == NatToString(2) + [DigitChar(6)];
  }

  /** The codes of the first three stages of iron: `26.00`, `26.01` and
      `26.02`. */
  lemma IronCodeI()
    ensures FormatCode(26, 0) == "26.00"
  {
    TwentySix();
    assert ZeroPad2(0) == "00";
  }

  lemma IronCodeII()
    ensures FormatCode(26, 1) == "26.01"
  {
    TwentySix();
    assert ZeroPad2(1) == "01";
  }

  lemma IronCodeIII()
    ensures FormatCode(26, 2) == "26.02"
  {
    TwentySix();
    assert ZeroPad2(2) == "02";
  }

  /** `kurucz_code_to_symbol('26.01') == 'Fe II'`. */
  lemma DecodeIronII()
    ensures IsCodeText("26.01") && DecodeCode("26.01") == "Fe II"
  {
    IronIs26();
    DecodeFormatted(26, 1);
    IronIIText();
    IronCodeII();
  }

  /** `symbol_to_kurucz_code('Fe II') == '26.01'`. */
  lemma EncodeIronII()
    ensures Encode("Fe II") == Success("26.01")
  {
    assert Encode("Fe" + " " + IonStages[1]) == Success(FormatCode(26, 1)) by {
      PrintableWord("Fe");
      ParseRomanStage("Fe", 1);
      IronIs26();
    }
    IronIIText();
    IronCodeII();
  }

  /** The readable text of iron at stage index 1. */
  lemma IronIIText()
    ensures "Fe" + " " + IonStages[1] == "Fe II"
  {
  }

  /** An integer stage token is the zero-based index itself: `Fe 2` is
      `26.02`, the code of `Fe III`. */
  lemma IntegerStageIsZeroBased()
    ensures Encode("Fe 2") == Success("26.02")
  {
    assert Encode("Fe" + " " + "2" + []) == Success(FormatCode(26, 2)) by {
      PrintableWord("Fe");
      PrintableWord("2");
      assert IsIntLiteral("2") && ParseInt("2") == 2;
      ParseStageToken("Fe", "2", []);
      IronIs26();
    }
    IronIIIText();
    IronCodeIII();
  }

  /** The readable text of iron with the integer stage token 2. */
  lemma IronIIIText()
    ensures "Fe" + " " + "2" + [] == "Fe 2"
  {
  }

  /** A negative stage index counts from the end of the list: stage index
      -1 of iron decodes as `Fe XX`; below -20 it is an IndexError. */
  lemma NegativeStageWraps()
    ensures Decode(26, -1) == Success("Fe XX")
    ensures Decode(26, -21) == Failure(StageIndexOutOfRange(-21))
  {
    IronIs26();
    IonStagesWellFormed();
    DecodePlaceholders(26, -1);
    IronXXText();
  }

  /** The readable text of iron at stage index 19. */
  lemma IronXXText()
    ensures "Fe" + " " + IonStages[19] == "Fe XX"
  {
  }

  /** An atomic number missing from `ATOMIC_NUMBERS` decodes with the
      placeholder `Z=<atomic number>`: `999.00` is `Z=999 I`. */
  lemma UnlistedElementPlaceholder()
    ensures IsCodeText("999.00") && DecodeCode("999.00") == "Z=999 I"
  {
    ReadUnlistedCode();
    DecodeUnlisted();
  }

  /** `999.00` reads as atomic number 999, stage index 0. */
  lemma ReadUnlistedCode()
    ensures IsCodeText("999.00") && ReadCode("999.00") == (999, 0)
  {
    assert IsDigits("999") && IsDigits("00");
    CodeTextParts("999", "00");
    assert DigitsValue("999") == 999 && DigitsValue("00") == 0;
    assert "999" + "." + "00" == "999.00";
  }

  /** Atomic number 999 at stage index 0 decodes as `Z=999 I`. */
  lemma DecodeUnlisted()
    ensures Decode(999, 0) == Success("Z=999 I")
  {
    SymbolsInvertsAtomicNumbers();
    assert ElementText(999) == "Z=" + "999" by {
      assert NatToString(999) == NatToString(99) + [DigitChar(9)];
      assert NatToString(99) == NatToString(9) + [DigitChar(9)];
    }
    assert StageText(0) == Success(IonStages[0]);
    assert "Z=" + "999" + " " + IonStages[0] == "Z=999 I";
  }

  /** A stage index of 20 or more decodes with the placeholder
      `IonStage=<index>`: `26.99` is `Fe IonStage=99`. */
  lemma LargeStagePlaceholder()
    ensures IsCodeText("26.99") && DecodeCode("26.99") == "Fe IonStage=99"
  {
    ReadLargeStageCode();
    DecodeLargeStage();
  }

  /** `26.99` reads as atomic number 26, stage index 99. */
  lemma ReadLargeStageCode()
    ensures IsCodeText("26.99") && ReadCode("26.99") == (26, 99)
  {
    assert IsDigits("26") && IsDigits("99");
    CodeTextParts("26", "99");
    assert DigitsValue("26") == 26 && DigitsValue("99") == 99;
    assert "26" + "." + "99" == "26.99";
  }

  /** Iron at stage index 99 decodes as `Fe IonStage=99`. */
  lemma DecodeLargeStage()
    ensures Decode(26, 99) == Success("Fe IonStage=99")
  {
    IronIs26();
    assert ElementText(26) == "Fe";
    assert StageText(99) == Success("IonStage=" + "99") by {
      assert NatToString(99) == NatToString(9) + [DigitChar(9)];
      assert IntToString(99) == "99";
      assert |IonStages| == 20;
    }
    assert "Fe" + " " + ("IonStage=" + "99") == "Fe IonStage=99";
  }

  /** An unlisted symbol is an UnknownSymbol error. */
  lemma UnknownSymbolRejected()
    ensures Encode("Xx I") == Failure(UnknownSymbol("Xx"))
  {
    assert Encode("Xx" + " " + IonStages[0]) == Failure(UnknownSymbol("Xx")) by {
      PrintableWord("Xx");
      ParseRomanStage("Xx", 0);
      XxNotListed();
    }
    XxText();
  }

  /** `Xx` is not an element symbol. */
  lemma XxNotListed()
    ensures "Xx" !in Symbols
  {
    assert SpelledAtomicNumber("Xx") == 0;
    SymbolsSpelled();
  }

  /** The readable text of the unlisted symbol `Xx` at stage index 0. */
  lemma XxText()
    ensures "Xx" + " " + IonStages[0] == "Xx I"
  {
  }

  /** A stage token that is neither an integer nor a listed Roman numeral is
      an InvalidIonStage error, whatever the symbol. */
  lemma InvalidStageRejected()
    ensures Encode("Fe Foo") == Failure(InvalidIonStage("Foo"))
  {
    assert Encode("Fe" + " " + "Foo" + []) == Failure(InvalidIonStage("Foo")) by {
      PrintableWord("Fe");
      PrintableWord("Foo");
      IonStagesWellFormed();
      assert "Foo" !in IonStages;
      assert !IsIntLiteral("Foo");
      ParseStageToken("Fe", "Foo", []);
    }
    FooText();
  }

  /** The readable text of iron with the stage token `Foo`. */
  lemma FooText()
    ensures "Fe" + " " + "Foo" + [] == "Fe Foo"
  {
  }

  /** Text with no words is an IndexError. */
  lemma BlankRejected()
    ensures Encode(" \t") == Failure(MissingSymbol)
  {
    SpaceIsSpace();
    assert IsSpace('\t');
    assert AllSpace(" \t");
  }
}
