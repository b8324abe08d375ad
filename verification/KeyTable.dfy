/** The helper's key tables (native/display-helper/Input.swift): native keys and ANSI positions. */
module KeyTable {
  import opened Outcomes
  import opened InputLedger
  import InputRuns

  /** Keys with a native virtual key of their own, by X11 keysym. */
  function NativeCode(symbol: Symbol): Option<Code> {
    match symbol
    case 0xFF08 => Some(51) case 0xFF09 => Some(48) case 0xFF0D => Some(36) case 0xFF1B => Some(53)
    case 0xFFFF => Some(117) case 0xFF50 => Some(115) case 0xFF57 => Some(119) case 0xFF51 => Some(123)
    case 0xFF52 => Some(126) case 0xFF53 => Some(124) case 0xFF54 => Some(125) case 0xFF55 => Some(116)
    case 0xFF56 => Some(121) case 0xFFE1 => Some(56) case 0xFFE2 => Some(60) case 0xFFE3 => Some(59)
    case 0xFFE4 => Some(62) case 0xFFE9 => Some(58) case 0xFFEA => Some(61) case 0xFFE7 => Some(55)
    case 0xFFE8 => Some(54) case 0xFFEB => Some(55) case 0xFFEC => Some(54) case 0xFFBE => Some(122)
    case 0xFFBF => Some(120) case 0xFFC0 => Some(99) case 0xFFC1 => Some(118) case 0xFFC2 => Some(96)
    case 0xFFC3 => Some(97) case 0xFFC4 => Some(98) case 0xFFC5 => Some(100) case 0xFFC6 => Some(101)
    case 0xFFC7 => Some(109) case 0xFFC8 => Some(103) case 0xFFC9 => Some(111)
    case _ => None
  }

  /** ANSI positions of the printable keys, by lower-case ASCII scalar. */
  function AnsiCode(scalar: int): Option<Code> {
    match scalar
    case 97 => Some(0) case 115 => Some(1) case 100 => Some(2) case 102 => Some(3) case 104 => Some(4)
    case 103 => Some(5) case 122 => Some(6) case 120 => Some(7) case 99 => Some(8) case 118 => Some(9)
    case 98 => Some(11) case 113 => Some(12) case 119 => Some(13) case 101 => Some(14) case 114 => Some(15)
    case 121 => Some(16) case 116 => Some(17) case 49 => Some(18) case 33 => Some(18) case 50 => Some(19)
    case 64 => Some(19) case 51 => Some(20) case 35 => Some(20) case 52 => Some(21) case 36 => Some(21)
    case 54 => Some(22) case 94 => Some(22) case 53 => Some(23) case 37 => Some(23) case 61 => Some(24)
    case 43 => Some(24) case 57 => Some(25) case 40 => Some(25) case 55 => Some(26) case 38 => Some(26)
    case 45 => Some(27) case 95 => Some(27) case 56 => Some(28) case 42 => Some(28) case 48 => Some(29)
    case 41 => Some(29) case 93 => Some(30) case 125 => Some(30) case 111 => Some(31) case 117 => Some(32)
    case 91 => Some(33) case 123 => Some(33) case 105 => Some(34) case 112 => Some(35) case 108 => Some(37)
    case 106 => Some(38) case 39 => Some(39) case 34 => Some(39) case 107 => Some(40) case 59 => Some(41)
    case 58 => Some(41) case 92 => Some(42) case 124 => Some(42) case 44 => Some(43) case 60 => Some(43)
    case 47 => Some(44) case 63 => Some(44) case 110 => Some(45) case 109 => Some(46) case 46 => Some(47)
    case 62 => Some(47) case 32 => Some(49) case 96 => Some(50) case 126 => Some(50)
    case _ => None
  }

  /**
   Lower case as the table's string keys see it. Outside ASCII only three scalars reach the table:
   the Greek question mark, the Greek varia and the Kelvin sign equal `;`, `` ` `` and `K` canonically.
   */
  function Fold(scalar: int): int {
    if 65 <= scalar <= 90 then scalar + 32
    else if scalar == 0x37E then 59
    else if scalar == 0x1FEF then 96
    else if scalar == 0x212A then 107
    else scalar
  }

  function KeyCode(symbol: Symbol): Code {
    if NativeCode(symbol).Some? then NativeCode(symbol).value
    else if !IsScalar(ScalarValue(symbol)) then 0
    else match AnsiCode(Fold(ScalarValue(symbol)))
      case Some(code) => code
      case None => 0
  }

  function MacLayout(): Layout {
    Layout((symbol: Symbol) => NativeCode(symbol).Some?, (symbol: Symbol) => KeyCode(symbol))
  }

  /** A letter selects the same key in either case and with the Unicode tag, so shortcuts keep working. */
  lemma LettersFoldTogether(letter: Symbol)
    requires 97 <= letter <= 122
    ensures KeyCode(letter) == KeyCode(letter - 32) == KeyCode(letter + 0x100_0000) == KeyCode(letter - 32 + 0x100_0000)
  {
    assert NativeCode(letter + 0x100_0000) == None && NativeCode(letter - 32 + 0x100_0000) == None;
  }

  /** The letter on an ANSI position. */
  function LetterOn(code: Code): int {
    match code
    case 0 => 97 case 1 => 115 case 2 => 100 case 3 => 102 case 4 => 104 case 5 => 103 case 6 => 122
    case 7 => 120 case 8 => 99 case 9 => 118 case 11 => 98 case 12 => 113 case 13 => 119 case 14 => 101
    case 15 => 114 case 16 => 121 case 17 => 116 case 31 => 111 case 32 => 117 case 34 => 105 case 35 => 112
    case 37 => 108 case 38 => 106 case 40 => 107 case 45 => 110 case 46 => 109
    case _ => 0
  }

  lemma AnsiLetters(letter: int)
    requires 97 <= letter <= 122
    ensures AnsiCode(letter).Some? && LetterOn(AnsiCode(letter).value) == letter
  {
    if letter < 104 {
    } else if letter < 113 {
    } else {
    }
  }

  lemma LetterHasItsKey(letter: Symbol)
    requires 97 <= letter <= 122
    ensures LetterOn(KeyCode(letter)) == letter
  {
    assert NativeCode(letter) == None;
    AnsiLetters(letter);
  }

  /** Different letters select different keys: Command-C is not Command-A. */
  lemma LettersAreDistinct(a: Symbol, b: Symbol)
    requires 97 <= a <= 122 && 97 <= b <= 122
    ensures KeyCode(a) == KeyCode(b) <==> a == b
  {
    LetterHasItsKey(a);
    LetterHasItsKey(b);
  }

  /** The shipped layout shares codes, so a held symbol's key can be up (see InputRuns.ExactIffUnshared). */
  lemma MacLayoutSharesCodes()
    ensures !InputRuns.Unshared(MacLayout())
  {
    var layout := MacLayout();
    LettersFoldTogether(0x63);
    assert Typable(layout, 0x63) && Typable(layout, 0x43);
    assert layout.code(0x63) == KeyCode(0x63) && layout.code(0x43) == KeyCode(0x43);
  }

  /** The key a character shares with its unshifted partner on an ANSI keyboard. */
  function Unshifted(scalar: int): int {
    match scalar
    case 33 => 49 case 64 => 50 case 35 => 51 case 36 => 52 case 37 => 53 case 94 => 54 case 38 => 55
    case 42 => 56 case 40 => 57 case 41 => 48 case 95 => 45 case 43 => 61 case 123 => 91 case 125 => 93
    case 124 => 92 case 58 => 59 case 34 => 39 case 60 => 44 case 62 => 46 case 63 => 47 case 126 => 96
    case _ => if 65 <= scalar <= 90 then scalar + 32 else scalar
  }

  lemma AsciiKey(symbol: Symbol)
    requires 33 <= symbol <= 126
    ensures KeyCode(symbol) == match AnsiCode(Fold(symbol)) case Some(code) => code case None => 0
  {
    hide AnsiCode, Fold;
    assert NativeCode(symbol) == None;
  }

  lemma ShiftAnsiLow(v: int)
    requires 33 <= v < 48
    ensures AnsiCode(v) == AnsiCode(Unshifted(v))
  {
  }

  lemma ShiftAnsiMiddle(v: int)
    requires 48 <= v < 65
    ensures AnsiCode(v) == AnsiCode(Unshifted(v))
  {
  }

  lemma ShiftAnsiHigh(v: int)
    requires 91 <= v <= 126
    ensures AnsiCode(v) == AnsiCode(Unshifted(v))
  {
    if 97 <= v <= 122 { assert Unshifted(v) == v; }
  }

  lemma UnshiftedPlain(v: int)
    requires 33 <= v <= 126
    ensures 33 <= Unshifted(v) <= 126 && Fold(Unshifted(v)) == Unshifted(v)
    ensures Fold(v) == if 65 <= v <= 90 then Unshifted(v) else v
  {
  }

  /** A shifted character is on the key of its partner. */
  lemma ShiftKeepsTheKey(symbol: Symbol)
    requires 33 <= symbol <= 126
    ensures KeyCode(symbol) == KeyCode(Unshifted(symbol))
  {
    hide AnsiCode, Unshifted, KeyCode, Fold;
    UnshiftedPlain(symbol);
    AsciiKey(symbol);
    AsciiKey(Unshifted(symbol));
    if symbol < 48 { ShiftAnsiLow(symbol); }
    if 48 <= symbol < 65 { ShiftAnsiMiddle(symbol); }
    if 91 <= symbol { ShiftAnsiHigh(symbol); }
  }

  /** The three characters that equal a key's character canonically select its key; other symbols beyond ASCII select key 0. */
  lemma BeyondAscii(symbol: Symbol)
    requires 127 <= symbol < 0x100_0000 && NativeCode(symbol).None?
    ensures KeyCode(symbol) == if symbol == 0x37E then KeyCode(59) else if symbol == 0x1FEF then KeyCode(96) else if symbol == 0x212A then KeyCode(107) else 0
  {
    assert NativeCode(59) == None && NativeCode(96) == None && NativeCode(107) == None;
  }
}
