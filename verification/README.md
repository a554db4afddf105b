# Kurucz ion-notation codec

A Dafny model of `mytoolbox/kurucz_atomic_symbols.py`, the codec between a
Kurucz line-list code `Z.SS` (atomic number `Z`, zero-based ionization-stage
index `SS`) and the readable form `"<Symbol> <Stage>"`, for example `26.01`
and `"Fe II"`.

The model is pure, like the source: the tables are constants, and each
Python function is a Dafny function or predicate. An exception the
source raises is a `Failure` of a `Result` datatype.

- `pytext.dfy` (module `PyText`) holds the Python built-ins the codec relies
  on:
  - `str.strip()` and `str.split()`, over Python's whitespace set;
  - `int()` on a token, and `str()` of an integer;
  - the `:02d` format;
  - `list.index`, and the inversion of a dict.
- `kurucz_tables.dfy` (module `KuruczTables`) holds the three tables:
  - `ATOMIC_NUMBERS`, with a decision tree that recovers the atomic number
    from its symbol, so that the table is shown to be injective;
  - `SYMBOLS`, built as its inverse;
  - `ION_STAGES`.
- `kurucz_atomic_symbols.dfy` (module `KuruczAtomicSymbols`) holds the four
  operations.
  - Decoding has two layers:
    - `Decode` works from the atomic number and stage index, with the
      placeholders and Python's negative-index behaviour;
    - `DecodeCode` works from an exact decimal code text.
  - Parsing and encoding:
    - `ParseSymbolAndIon`, with its stage-token resolution;
    - `IonPartIsDecimal`;
    - `Encode`.
- `kurucz_properties.dfy` (module `KuruczProperties`) holds the cross-operation
  laws:
  - how text is tokenised and its stage resolved;
  - that padding and extra words do not matter;
  - what an encoded code reads back as;
  - the round trips code → text → code and text → code → text.
- `kurucz_examples.dfy` (module `KuruczExamples`) holds the documented
  examples, the placeholders and the error cases, each proved on concrete
  input.

Behaviour the model keeps that a reader may not expect:

- **Negative stage indices.** A negative stage index gets no placeholder.
  The code checks only `ion_stage < len(ION_STAGES)`, so Python's indexing
  applies:
  - an index from -1 to -20 counts from the end of the list (`Fe XX` for -1);
  - an index below -20 raises `IndexError`.
  `Decode` models this, with the error as `StageIndexOutOfRange`.
- **Integer stage tokens.** An integer stage token is taken as the index
  itself. It is tried before the Roman-numeral lookup. So `Fe 2` encodes as
  `26.02`.

## Model

| member | source | states |
|---|---|---|
| KuruczTables.SpellingRecoversAtomicNumber | mytoolbox/kurucz_atomic_symbols.py:6-19 | every listed symbol is one word, and spelling it gives back its atomic number, so no two atomic numbers share a symbol |
| KuruczTables.SymbolsInvertsAtomicNumbers | mytoolbox/kurucz_atomic_symbols.py:6-24 | the keys of `ATOMIC_NUMBERS` are exactly 1..118; `SYMBOLS` and `ATOMIC_NUMBERS` are inverse bijections; every symbol is one word |
| KuruczTables.SymbolsSpelled | mytoolbox/kurucz_atomic_symbols.py:24 | every key of `SYMBOLS` spells the atomic number it maps to, so text spelling no atomic number is not a symbol |
| KuruczTables.IonStagesWellFormed | mytoolbox/kurucz_atomic_symbols.py:29-32 | there are twenty stage names, pairwise distinct, each one word, none readable by `int()` |
| KuruczAtomicSymbols.Message | mytoolbox/kurucz_atomic_symbols.py:88 | a ValueError's text is `Unknown symbol: ` (raised at line 88) or `Invalid ion stage: ` (raised at line 125) followed by the offending symbol or stage token; both IndexErrors (lines 117 and 61) read `list index out of range` |
| KuruczAtomicSymbols.ElementText | mytoolbox/kurucz_atomic_symbols.py:60 | the element word determines the atomic number: a listed number's symbol spells it back, and an unlisted one becomes `Z=` followed by text `int()` reads as that number |
| KuruczAtomicSymbols.StageText | mytoolbox/kurucz_atomic_symbols.py:61 | fails exactly below -20, with an IndexError; from -20 to 19 it is the numeral at the index taken modulo 20 (Python's negative indexing); from 20 up it is `IonStage=` followed by text `int()` reads as the index |
| KuruczAtomicSymbols.Decode | mytoolbox/kurucz_atomic_symbols.py:60-62 | fails exactly when the stage index is below -20, with an IndexError; a listed atomic number with index 0..19 gives `"<symbol> <numeral>"`; any success is exactly two words joined by one space |
| KuruczAtomicSymbols.DecodePlaceholders | mytoolbox/kurucz_atomic_symbols.py:60-61 | first word: the listed symbol, else `Z=<Z>`. Second word: the numeral at the index, the numeral that far from the end for -20..-1, or `IonStage=<S>` for 20 and more |
| KuruczAtomicSymbols.ReadCode | mytoolbox/kurucz_atomic_symbols.py:56-58 | reading a code text yields an atomic number below 10^12 and a stage index in 0..99; CodeTextWhole and CodeTextDecimals give the values |
| KuruczAtomicSymbols.CodeTextWhole | mytoolbox/kurucz_atomic_symbols.py:56-58 | a code text without a point (`26`) reads as that atomic number with stage index 0 |
| KuruczAtomicSymbols.CodeTextDecimals | mytoolbox/kurucz_atomic_symbols.py:56-58 | a code text with a point reads as the value of the digits before it and, as hundredths, the at most two digits after it padded on the right with zeros (`26.` is 0, `26.1` is 10, `26.01` is 1) |
| KuruczAtomicSymbols.Hundredths | mytoolbox/kurucz_atomic_symbols.py:58 | the padded decimals are worth the two digits' value, ten times one digit's value, or 0 when there are none |
| KuruczAtomicSymbols.DecodeCode | mytoolbox/kurucz_atomic_symbols.py:56-62 | decoding a code text never fails: it is `Decode` of the atomic number and stage index read from the text, so its words are those DecodePlaceholders states, and there are always two |
| KuruczAtomicSymbols.IonPartIsDecimal | mytoolbox/kurucz_atomic_symbols.py:139-143 | a token `int()` accepts is never one of the Roman numerals, so trying `int()` first hides no numeral |
| KuruczAtomicSymbols.ParseSymbolAndIon | mytoolbox/kurucz_atomic_symbols.py:116-127 | fails with IndexError exactly when the text is all whitespace; on success the symbol is the first word |
| KuruczAtomicSymbols.ResolveIonStage | mytoolbox/kurucz_atomic_symbols.py:120-125 | fails exactly when the token is neither an integer nor a listed numeral, naming the token; an integer token gives its value; otherwise the result is the numeral's position. `int()` on a token is `PyText.IsIntLiteral` (an optional sign, then ASCII digits) with value `PyText.ParseInt` |
| KuruczAtomicSymbols.FormatCode | mytoolbox/kurucz_atomic_symbols.py:91 | the code is `str(Z)`, a point, then exactly the two digits of a stage index in 0..99 (tens, then units) or the whole of `str(S)` below 0 (`26.-1`) or from 100 up, never cut; for Z below 10^12 and S in 0..99 it reads back as (Z, S) |
| KuruczAtomicSymbols.FormatCodeReadsBack | mytoolbox/kurucz_atomic_symbols.py:91 | `f"{Z}.{S:02d}"` for Z below 10^12 and S in 0..99 is a code text reading back as (Z, S) |
| KuruczAtomicSymbols.CodeTextParts | mytoolbox/kurucz_atomic_symbols.py:56-58 | digits, a point and two digits form a code text whose parts are the values of the two digit strings |
| KuruczAtomicSymbols.Encode | mytoolbox/kurucz_atomic_symbols.py:85-91 | parse errors pass through; an unlisted symbol is an UnknownSymbol error; otherwise the code is formatted from the symbol's atomic number and the parsed stage |
| KuruczProperties.ParseSymbolOnly | mytoolbox/kurucz_atomic_symbols.py:116-118 | a lone word, with any padding, parses as that word with stage index 0 |
| KuruczProperties.ParseStageToken | mytoolbox/kurucz_atomic_symbols.py:116-127 | for `symbol token …`: an integer token is the index, a listed numeral gives its position, anything else is InvalidIonStage naming the token |
| KuruczProperties.ParseOfWords | mytoolbox/kurucz_atomic_symbols.py:116-125 | text of two or more words parses as its first word with the second word resolved as the stage |
| KuruczProperties.ParseRomanStage | mytoolbox/kurucz_atomic_symbols.py:122-123 | `symbol + " " + ION_STAGES[i]` parses as (symbol, i) |
| KuruczProperties.ParseIgnoresPadding | mytoolbox/kurucz_atomic_symbols.py:116 | whitespace around the text does not change the parse |
| KuruczProperties.ParseIgnoresExtraWords | mytoolbox/kurucz_atomic_symbols.py:116-118 | two texts with the same first two words parse alike |
| KuruczProperties.EncodeReadsBack | mytoolbox/kurucz_atomic_symbols.py:85-91 | a successful encode with stage 0..99 is a code text reading back as the parsed symbol's atomic number and the parsed stage |
| KuruczProperties.ParseOfDecode | mytoolbox/kurucz_atomic_symbols.py:60-62 | the decode of a listed atomic number and stage 0..19 parses back as that element's symbol and the same stage |
| KuruczProperties.DecodeFormatted | mytoolbox/kurucz_atomic_symbols.py:56-62 | a code formatted from Z in 1..118 and S in 0..19 decodes as the listed symbol and numeral |
| KuruczProperties.RoundTripFromCode | mytoolbox/kurucz_atomic_symbols.py:56-91 | for Z in 1..118 and S in 0..19, encoding the decode of `f"{Z}.{S:02d}"` gives the same code |
| KuruczProperties.RoundTripFromSymbol | mytoolbox/kurucz_atomic_symbols.py:56-91 | a listed symbol with a listed numeral encodes to a code text that decodes to the same text |
| KuruczExamples.IronIs26 | mytoolbox/kurucz_atomic_symbols.py:9 | iron is element 26 in both tables |
| KuruczExamples.IronCodeI | mytoolbox/kurucz_atomic_symbols.py:74 | the code of iron at stage 0 is `26.00` |
| KuruczExamples.IronCodeII | mytoolbox/kurucz_atomic_symbols.py:74 | the code of iron at stage 1 is `26.01` |
| KuruczExamples.IronCodeIII | mytoolbox/kurucz_atomic_symbols.py:91 | the code of iron at stage 2 is `26.02` |
| KuruczExamples.DecodeIronII | tests/test_kurucz_atomic_symbols.py:11-12 | `26.01` decodes as `Fe II` |
| KuruczExamples.EncodeIronII | tests/test_kurucz_atomic_symbols.py:18-19 | `Fe II` encodes as `26.01` |
| KuruczExamples.IntegerStageIsZeroBased | mytoolbox/kurucz_atomic_symbols.py:120-121 | `Fe 2` encodes as `26.02`: the integer token is the index, not the stage number |
| KuruczExamples.NegativeStageWraps | mytoolbox/kurucz_atomic_symbols.py:61 | stage index -1 of iron decodes as `Fe XX`; -21 is an IndexError |
| KuruczExamples.UnlistedElementPlaceholder | mytoolbox/kurucz_atomic_symbols.py:60 | `999.00` decodes as `Z=999 I` |
| KuruczExamples.LargeStagePlaceholder | mytoolbox/kurucz_atomic_symbols.py:61 | `26.99` decodes as `Fe IonStage=99` |
| KuruczExamples.UnknownSymbolRejected | mytoolbox/kurucz_atomic_symbols.py:87-88 | `Xx I` is an UnknownSymbol error naming `Xx` |
| KuruczExamples.InvalidStageRejected | mytoolbox/kurucz_atomic_symbols.py:124-125 | `Fe Foo` is an InvalidIonStage error naming `Foo` |
| KuruczExamples.BlankRejected | mytoolbox/kurucz_atomic_symbols.py:116-117 | whitespace-only text is an IndexError (no symbol) |
| PyText.AsciiSpace | mytoolbox/kurucz_atomic_symbols.py:116 | the whitespace `strip()` and `split()` use (`PyText.IsSpace`, Python's `isspace()` set) is, on ASCII, exactly TAB, LF, VT, FF, CR, FS, GS, RS, US and SPACE |
| PyText.Strip | mytoolbox/kurucz_atomic_symbols.py:116 | `str.strip()` yields text that neither starts nor ends with whitespace |
| PyText.StripMiddle | mytoolbox/kurucz_atomic_symbols.py:116 | the stripped text is the middle of the input, with only whitespace cut from either end |
| PyText.StripPadded | mytoolbox/kurucz_atomic_symbols.py:116 | stripping whitespace-padded trimmed text gives the text back |
| PyText.StripIgnoresPadding | mytoolbox/kurucz_atomic_symbols.py:116 | extra whitespace around the input does not change the stripped result |
| PyText.Split | mytoolbox/kurucz_atomic_symbols.py:116 | `str.split()` yields only non-empty words free of whitespace |
| PyText.SplitEmpty | mytoolbox/kurucz_atomic_symbols.py:116-117 | splitting gives no words exactly when the text is all whitespace |
| PyText.SplitFirstWord | mytoolbox/kurucz_atomic_symbols.py:116-117 | after leading whitespace, a word followed by whitespace or the end is the first word of the split |
| PyText.SplitOfStrip | mytoolbox/kurucz_atomic_symbols.py:116 | splitting the stripped text gives the same words as splitting the text |
| PyText.SplitTwoWords | mytoolbox/kurucz_atomic_symbols.py:62 | two words joined by one space split back into those two words |
| PyText.SplitTwoWordsThen | mytoolbox/kurucz_atomic_symbols.py:116-118 | two words joined by a space, then whitespace-led rest, split into the two words and then the words of the rest |
| PyText.IntToString | mytoolbox/kurucz_atomic_symbols.py:60 | `str(n)` is a single word that `int()` reads back as `n`, in canonical form: a `-` exactly when `n < 0`, never a `+`, then digits with no leading zero (so `26`, never `026`, and `0`, never `-0`) |
| PyText.ZeroPad2 | mytoolbox/kurucz_atomic_symbols.py:91 | `f"{n:02d}"` reads back as `n`; for 0..99 it is exactly the tens digit then the units digit; it is `str(n)` from 10 upward or below 0 |
| PyText.IndexOf | mytoolbox/kurucz_atomic_symbols.py:123 | `list.index` gives the first position holding the element |
| PyText.Invert | mytoolbox/kurucz_atomic_symbols.py:24 | the reversed dict of an injective dict maps each value back to its key, and nothing else |

## Left out

- The `Union[float, str]` input of `kurucz_code_to_symbol` is not modelled.
  `Decode` takes the atomic number and stage index already extracted.
  `DecodeCode` takes a code text.
- Floating point is not modelled. `float(code)`, `int()` and
  `round((x - Z) * 100)` are computed on the exact decimal value of the code
  text. This holds for code texts with at most twelve integer digits and at
  most two decimals, where a double keeps the hundredths.
- `DecodeCode` covers only texts of the form digits, optional point, at most
  two digits. Other float syntaxes are not modelled:
  - a sign;
  - exponents;
  - more decimals;
  - surrounding whitespace;
  - `inf` and `nan`.
  Negative codes reach a negative stage index only that way; `Decode`
  covers that case from integers.
- FormatCode: the read-back as a code text is stated only for stage indices
  0..99.
  - A stage of 100 or more formats as three or more decimals (`26.100`).
  - A negative stage formats with a sign (`26.-1`).
  The contract states both texts after the point; neither is a code text.
- IsIntLiteral: `int()` is modelled as an optional sign followed by ASCII
  digits. Python also accepts:
  - underscores between digits;
  - non-ASCII decimal digits;
  - surrounding whitespace.
  A token from `str.split()` never carries that whitespace. The other two
  forms are rejected by the model where Python accepts them. The model also
  puts no limit on the number of digits. Since Python 3.11 (and in the
  3.8-3.10 security releases), `int()` rejects a token of more than 4300
  digits. There `ion_part_is_decimal` is False and parsing raises "Invalid
  ion stage", whereas the model reads the number.
- IonPartIsDecimal: inherits the `int()` limits of IsIntLiteral above.
- Invert: requires the dict to be injective. `SYMBOLS` is built from
  `ATOMIC_NUMBERS`, which is proved injective, so nothing is lost.
- The exception type is kept, together with the offending symbol or token.
  The exact traceback text is not modelled.
- The package `__init__.py` and `setup.py` only re-export and package the
  codec; they are not part of this model.
