/**
 * The two constant tables of the Kurucz ion-notation codec: the atomic
 * numbers 1..118 with their element symbols (and the reverse table built
 * from it), and the twenty ionization stages written as Roman numerals.
 */
module KuruczTables {
  import opened PyText

  const MaxAtomicNumber := 118

  /** The element symbol listed for atomic number `z` in `ATOMIC_NUMBERS`. */
  function TableSymbol(z: int): (sym: string)
    requires 1 <= z <= MaxAtomicNumber
  {
    match z
    case 1 => "H"
    case 2 => "He"
    case 3 => "Li"
    case 4 => "Be"
    case 5 => "B"
    case 6 => "C"
    case 7 => "N"
    case 8 => "O"
    case 9 => "F"
    case 10 => "Ne"
    case 11 => "Na"
    case 12 => "Mg"
    case 13 => "Al"
    case 14 => "Si"
    case 15 => "P"
    case 16 => "S"
    case 17 => "Cl"
    case 18 => "Ar"
    case 19 => "K"
    case 20 => "Ca"
    case 21 => "Sc"
    case 22 => "Ti"
    case 23 => "V"
    case 24 => "Cr"
    case 25 => "Mn"
    case 26 => "Fe"
    case 27 => "Co"
    case 28 => "Ni"
    case 29 => "Cu"
    case 30 => "Zn"
    case 31 => "Ga"
    case 32 => "Ge"
    case 33 => "As"
    case 34 => "Se"
    case 35 => "Br"
    case 36 => "Kr"
    case 37 => "Rb"
    case 38 => "Sr"
    case 39 => "Y"
    case 40 => "Zr"
    case 41 => "Nb"
    case 42 => "Mo"
    case 43 => "Tc"
    case 44 => "Ru"
    case 45 => "Rh"
    case 46 => "Pd"
    case 47 => "Ag"
    case 48 => "Cd"
    case 49 => "In"
    case 50 => "Sn"
    case 51 => "Sb"
    case 52 => "Te"
    case 53 => "I"
    case 54 => "Xe"
    case 55 => "Cs"
    case 56 => "Ba"
    case 57 => "La"
    case 58 => "Ce"
    case 59 => "Pr"
    case 60 => "Nd"
    case 61 => "Pm"
    case 62 => "Sm"
    case 63 => "Eu"
    case 64 => "Gd"
    case 65 => "Tb"
    case 66 => "Dy"
    case 67 => "Ho"
    case 68 => "Er"
    case 69 => "Tm"
    case 70 => "Yb"
    case 71 => "Lu"
    case 72 => "Hf"
    case 73 => "Ta"
    case 74 => "W"
    case 75 => "Re"
    case 76 => "Os"
    case 77 => "Ir"
    case 78 => "Pt"
    case 79 => "Au"
    case 80 => "Hg"
    case 81 => "Tl"
    case 82 => "Pb"
    case 83 => "Bi"
    case 84 => "Po"
    case 85 => "At"
    case 86 => "Rn"
    case 87 => "Fr"
    case 88 => "Ra"
    case 89 => "Ac"
    case 90 => "Th"
    case 91 => "Pa"
    case 92 => "U"
    case 93 => "Np"
    case 94 => "Pu"
    case 95 => "Am"
    case 96 => "Cm"
    case 97 => "Bk"
    case 98 => "Cf"
    case 99 => "Es"
    case 100 => "Fm"
    case 101 => "Md"
    case 102 => "No"
    case 103 => "Lr"
    case 104 => "Rf"
    case 105 => "Db"
    case 106 => "Sg"
    case 107 => "Bh"
    case 108 => "Hs"
    case 109 => "Mt"
    case 110 => "Ds"
    case 111 => "Rg"
    case 112 => "Cn"
    case 113 => "Nh"
    case 114 => "Fl"
    case 115 => "Mc"
    case 116 => "Lv"
    case 117 => "Ts"
    case 118 => "Og"
    case _ => assert false; ""
  }

  /** `ATOMIC_NUMBERS`: atomic number to element symbol, for 1..118. */
  const AtomicNumbers: map<int, string> := map z | 1 <= z <= MaxAtomicNumber :: TableSymbol(z)

  /** An element symbol read letter by letter back to its atomic number (0
      for anything that is not a symbol). It is a second, independent
      statement of the reverse table, used to show that no two atomic
      numbers share a symbol. */
  ghost function SpelledAtomicNumber(s: string): (z: int)
  {
    if |s| == 1 then
      match s[0]
      case 'B' => 5
      case 'C' => 6
      case 'F' => 9
      case 'H' => 1
      case 'I' => 53
      case 'K' => 19
      case 'N' => 7
      case 'O' => 8
      case 'P' => 15
      case 'S' => 16
      case 'U' => 92
      case 'V' => 23
      case 'W' => 74
      case 'Y' => 39
      case _ => 0
    else if |s| == 2 then
      match s[0]
      case 'A' => (match s[1] case 'c' => 89 case 'g' => 47 case 'l' => 13 case 'm' => 95 case 'r' => 18 case 's' => 33 case 't' => 85 case 'u' => 79 case _ => 0)
      case 'B' => (match s[1] case 'a' => 56 case 'e' => 4 case 'h' => 107 case 'i' => 83 case 'k' => 97 case 'r' => 35 case _ => 0)
      case 'C' => (match s[1] case 'a' => 20 case 'd' => 48 case 'e' => 58 case 'f' => 98 case 'l' => 17 case 'm' => 96 case 'n' => 112 case 'o' => 27 case 'r' => 24 case 's' => 55 case 'u' => 29 case _ => 0)
      case 'D' => (match s[1] case 'b' => 105 case 's' => 110 case 'y' => 66 case _ => 0)
      case 'E' => (match s[1] case 'r' => 68 case 's' => 99 case 'u' => 63 case _ => 0)
      case 'F' => (match s[1] case 'e' => 26 case 'l' => 114 case 'm' => 100 case 'r' => 87 case _ => 0)
      case 'G' => (match s[1] case 'a' => 31 case 'd' => 64 case 'e' => 32 case _ => 0)
      case 'H' => (match s[1] case 'e' => 2 case 'f' => 72 case 'g' => 80 case 'o' => 67 case 's' => 108 case _ => 0)
      case 'I' => (match s[1] case 'n' => 49 case 'r' => 77 case _ => 0)
      case 'K' => (match s[1] case 'r' => 36 case _ => 0)
      case 'L' => (match s[1] case 'a' => 57 case 'i' => 3 case 'r' => 103 case 'u' => 71 case 'v' => 116 case _ => 0)
      case 'M' => (match s[1] case 'c' => 115 case 'd' => 101 case 'g' => 12 case 'n' => 25 case 'o' => 42 case 't' => 109 case _ => 0)
      case 'N' => (match s[1] case 'a' => 11 case 'b' => 41 case 'd' => 60 case 'e' => 10 case 'h' => 113 case 'i' => 28 case 'o' => 102 case 'p' => 93 case _ => 0)
      case 'O' => (match s[1] case 'g' => 118 case 's' => 76 case _ => 0)
      case 'P' => (match s[1] case 'a' => 91 case 'b' => 82 case 'd' => 46 case 'm' => 61 case 'o' => 84 case 'r' => 59 case 't' => 78 case 'u' => 94 case _ => 0)
      case 'R' => (match s[1] case 'a' => 88 case 'b' => 37 case 'e' => 75 case 'f' => 104 case 'g' => 111 case 'h' => 45 case 'n' => 86 case 'u' => 44 case _ => 0)
      case 'S' => (match s[1] case 'b' => 51 case 'c' => 21 case 'e' => 34 case 'g' => 106 case 'i' => 14 case 'm' => 62 case 'n' => 50 case 'r' => 38 case _ => 0)
      case 'T' => (match s[1] case 'a' => 73 case 'b' => 65 case 'c' => 43 case 'e' => 52 case 'h' => 90 case 'i' => 22 case 'l' => 81 case 'm' => 69 case 's' => 117 case _ => 0)
      case 'X' => (match s[1] case 'e' => 54 case _ => 0)
      case 'Y' => (match s[1] case 'b' => 70 case _ => 0)
      case 'Z' => (match s[1] case 'n' => 30 case 'r' => 40 case _ => 0)
      case _ => 0
    else 0
  }

  lemma SpellingRows1To10(z: int)
    requires 1 <= z <= 10
    ensures SpelledAtomicNumber(TableSymbol(z)) == z
  {
  }

  lemma SpellingRows11To20(z: int)
    requires 11 <= z <= 20
    ensures SpelledAtomicNumber(TableSymbol(z)) == z
  {
  }

  lemma SpellingRows21To30(z: int)
    requires 21 <= z <= 30
    ensures SpelledAtomicNumber(TableSymbol(z)) == z
  {
  }

  lemma SpellingRows31To40(z: int)
    requires 31 <= z <= 40
    ensures SpelledAtomicNumber(TableSymbol(z)) == z
  {
  }

  lemma SpellingRows41To50(z: int)
    requires 41 <= z <= 50
    ensures SpelledAtomicNumber(TableSymbol(z)) == z
  {
  }

  lemma SpellingRows51To60(z: int)
    requires 51 <= z <= 60
    ensures SpelledAtomicNumber(TableSymbol(z)) == z
  {
  }

  lemma SpellingRows61To70(z: int)
    requires 61 <= z <= 70
    ensures SpelledAtomicNumber(TableSymbol(z)) == z
  {
  }

  lemma SpellingRows71To80(z: int)
    requires 71 <= z <= 80
    ensures SpelledAtomicNumber(TableSymbol(z)) == z
  {
  }

  lemma SpellingRows81To90(z: int)
    requires 81 <= z <= 90
    ensures SpelledAtomicNumber(TableSymbol(z)) == z
  {
  }

  lemma SpellingRows91To95(z: int)
    requires 91 <= z <= 95
    ensures SpelledAtomicNumber(TableSymbol(z)) == z
  {
  }

  lemma SpellingRows96To100(z: int)
    requires 96 <= z <= 100
    ensures SpelledAtomicNumber(TableSymbol(z)) == z
  {
  }

  lemma SpellingRows101To105(z: int)
    requires 101 <= z <= 105
    ensures SpelledAtomicNumber(TableSymbol(z)) == z
  {
  }

  lemma SpellingRows106To110(z: int)
    requires 106 <= z <= 110
    ensures SpelledAtomicNumber(TableSymbol(z)) == z
  {
  }

  lemma SpellingRows111To114(z: int)
    requires 111 <= z <= 114
    ensures SpelledAtomicNumber(TableSymbol(z)) == z
  {
  }

  lemma SpellingRows115To118(z: int)
    requires 115 <= z <= 118
    ensures SpelledAtomicNumber(TableSymbol(z)) == z
  {
  }

  /** Every listed symbol is a single word, and spelling it recovers its
      atomic number. */
  lemma SpellingRecoversAtomicNumber()
    ensures forall z | z in AtomicNumbers ::
      SpelledAtomicNumber(AtomicNumbers[z]) == z && IsWord(AtomicNumbers[z])
  {
    forall z | z in AtomicNumbers
      ensures SpelledAtomicNumber(AtomicNumbers[z]) == z && IsWord(AtomicNumbers[z])
    {
      if z <= 10 { SpellingRows1To10(z); }
      else if z <= 20 { SpellingRows11To20(z); }
      else if z <= 30 { SpellingRows21To30(z); }
      else if z <= 40 { SpellingRows31To40(z); }
      else if z <= 50 { SpellingRows41To50(z); }
      else if z <= 60 { SpellingRows51To60(z); }
      else if z <= 70 { SpellingRows61To70(z); }
      else if z <= 80 { SpellingRows71To80(z); }
      else if z <= 90 { SpellingRows81To90(z); }
      else if z <= 95 { SpellingRows91To95(z); }
      else if z <= 100 { SpellingRows96To100(z); }
      else if z <= 105 { SpellingRows101To105(z); }
      else if z <= 110 { SpellingRows106To110(z); }
      else if z <= 114 { SpellingRows111To114(z); }
      else { SpellingRows115To118(z); }
      SpelledIsPrintable(AtomicNumbers[z]);
      PrintableWord(AtomicNumbers[z]);
    }
  }

  /** Whatever spells an atomic number is one or two ASCII letters. */
  lemma SpelledIsPrintable(s: string)
    requires SpelledAtomicNumber(s) != 0
    ensures IsPrintable(s)
  {
    assert |s| == 1 || |s| == 2;
    assert 'A' <= s[0] <= 'Z';
    assert |s| == 2 ==> 'a' <= s[1] <= 'z';
  }

  /** No two atomic numbers share a symbol. */
  lemma AtomicNumbersInjective()
    ensures Injective(AtomicNumbers)
  {
    SpellingRecoversAtomicNumber();
  }

  /** `SYMBOLS`: the reverse of `ATOMIC_NUMBERS`, symbol to atomic number. */
  const Symbols: map<string, int> :=
    (AtomicNumbersInjective(); Invert(AtomicNumbers))

  /** `SYMBOLS` and `ATOMIC_NUMBERS` are inverse bijections between the atomic
      numbers 1..118 and the listed symbols. */
  lemma SymbolsInvertsAtomicNumbers()
    ensures forall z :: z in AtomicNumbers <==> 1 <= z <= MaxAtomicNumber
    ensures forall z | z in AtomicNumbers :: AtomicNumbers[z] in Symbols && Symbols[AtomicNumbers[z]] == z
    ensures forall s | s in Symbols :: Symbols[s] in AtomicNumbers && AtomicNumbers[Symbols[s]] == s
    ensures forall s | s in Symbols :: IsWord(s)
  {
    forall s | s in Symbols ensures IsWord(s) {
      SpellingRecoversAtomicNumber();
    }
  }

  /** Spelling a listed symbol gives the atomic number `SYMBOLS` lists for
      it. */
  lemma SymbolsSpelled()
    ensures forall s | s in Symbols :: SpelledAtomicNumber(s) == Symbols[s] >= 1
  {
    SymbolsInvertsAtomicNumbers();
    SpellingRecoversAtomicNumber();
  }

  /** `ION_STAGES`: stage index 0..19 to the Roman numeral of stage 1..20. */
  const IonStages: seq<string> := [
    "I", "II", "III", "IV", "V", "VI", "VII", "VIII", "IX", "X",
    "XI", "XII", "XIII", "XIV", "XV", "XVI", "XVII", "XVIII", "XIX", "XX"
  ]

  /** The twenty stage names are distinct words, and none of them reads as an
      integer. */
  lemma IonStagesWellFormed()
    ensures |IonStages| == 20
    ensures forall i, j | 0 <= i < j < |IonStages| :: IonStages[i] != IonStages[j]
    ensures forall i | 0 <= i < |IonStages| :: IsWord(IonStages[i]) && !IsIntLiteral(IonStages[i])
  {
    IonStagesDistinct();
    forall i | 0 <= i < |IonStages|
      ensures IsWord(IonStages[i]) && !IsIntLiteral(IonStages[i])
    {
      IonStageIsNumeral(i);
      PrintableWord(IonStages[i]);
    }
  }

  /** Each stage name is made of the letters I, V and X. */
  lemma IonStageIsNumeral(i: int)
    requires 0 <= i < |IonStages|
    ensures IsPrintable(IonStages[i]) && IonStages[i][0] in "IVX"
  {
  }

  lemma IonStagesDistinct()
    ensures forall i, j | 0 <= i < j < |IonStages| :: IonStages[i] != IonStages[j]
  {
  }

}
