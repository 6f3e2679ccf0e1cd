/**
 * Console helpers: the text of a bounded "> section ..... msg" line, the
 * ANSI styles and the format of a sub-second duration. Printing itself,
 * the colour gradient and the clock are not modelled; whether colours are
 * enabled is passed in.
 */
module Console {
  import opened JavaText

  /** The width a bounded line fills. */
  const MaxColumns: int := 80

  // ---------------------------------------------------------------------
  // printBounded
  // ---------------------------------------------------------------------

  /**
   * How many padding characters printBounded emits: its `spaces`, the
   * columns left once "> ", the section, the message and one column of
   * slack are counted (no padding when that is not positive).
   */
  function PaddingCount(section: string, msg: string): int
  {
    var total := |section| + |msg| + 2 + 1;
    MaxColumns - total + 1
  }

  /** The padding between section and message: a space, dots, a space. */
  function Padding(n: int): (r: string)
    ensures |r| == if n > 0 then n else 0
  {
    if n <= 0 then []
    else if n == 1 then " "
    else " " + Dots(n - 2) + " "
  }

  function Dots(k: nat): string
  {
    Repeat('.', k)
  }

  /** The character printBounded appends at step `i` of `spaces`. */
  function PadChar(i: int, spaces: int): char
  {
    if i == 0 || i == spaces - 1 then ' ' else '.'
  }

  /**
   * The line printBounded prints: the prompt and section, the padding and
   * the message, filling MaxColumns unless section and message overflow it.
   */
  function BoundedLine(section: string, msg: string): (r: string)
    ensures StartsWith(r, "> " + section)
    ensures EndsWith(r, msg)
    ensures |r| == if |section| + |msg| <= 78 then MaxColumns else |section| + |msg| + 2
  {
    BoundedLineShape(section, msg);
    "> " + section + Padding(PaddingCount(section, msg)) + msg
  }

  lemma BoundedLineShape(section: string, msg: string)
    ensures StartsWith("> " + section + Padding(PaddingCount(section, msg)) + msg, "> " + section)
    ensures EndsWith("> " + section + Padding(PaddingCount(section, msg)) + msg, msg)
  {
    var p := Padding(PaddingCount(section, msg));
    Affixes("> " + section, p + msg);
    Affixes("> " + section + p, msg);
    assert "> " + section + p + msg == "> " + section + (p + msg);
  }

  /** Padding character by character: the rule the loop of printBounded applies at each step. */
  lemma PaddingAt(n: int, i: int)
    requires 0 <= i < n
    ensures |Padding(n)| == n
    ensures Padding(n)[i] == PadChar(i, n)
  {
  }

  /** Padding is a space, then dots, then a space; one column is a single space. */
  lemma PaddingShape(n: int)
    requires n >= 1
    ensures |Padding(n)| == n
    ensures Padding(n)[0] == ' ' && Padding(n)[n - 1] == ' '
    ensures forall i :: 0 < i < n - 1 ==> Padding(n)[i] == '.'
    ensures n == 1 ==> Padding(n) == " "
  {
    PaddingAt(n, 0);
    PaddingAt(n, n - 1);
    forall i | 0 < i < n - 1 ensures Padding(n)[i] == '.' {
      PaddingAt(n, i);
    }
  }

  /** The padding length is max(0, 78 - |section| - |msg|). */
  lemma PaddingLength(section: string, msg: string)
    ensures |Padding(PaddingCount(section, msg))| ==
            if |section| + |msg| <= 78 then 78 - |section| - |msg| else 0
  {
  }

  /** A section and message that fit leave a line of exactly MaxColumns characters. */
  lemma BoundedLineFillsWidth(section: string, msg: string)
    requires |section| + |msg| <= 78
    ensures |BoundedLine(section, msg)| == MaxColumns
  {
    PaddingLength(section, msg);
  }

  /** The line starts with the prompt and the section and ends with the message. */
  lemma BoundedLineFrame(section: string, msg: string)
    ensures StartsWith(BoundedLine(section, msg), "> " + section)
    ensures EndsWith(BoundedLine(section, msg), msg)
  {
  }

  /** When section and message leave no room, they are printed back to back. */
  lemma NoPaddingWhenFull(section: string, msg: string)
    requires |section| + |msg| >= 78
    ensures BoundedLine(section, msg) == "> " + section + msg
    ensures |BoundedLine(section, msg)| == |section| + |msg| + 2
  {
  }

  /**
   * printBounded, without the printing: appends the padding one character
   * at a time to "> " + section, then the message.
   */
  method PrintBounded(section: string, msg: string) returns (line: string)
    ensures line == BoundedLine(section, msg)
  {
    var total := |section| + |msg| + 2 + 1;
    var spaces := MaxColumns - total + 1;
    var sb := "> " + section;
    ghost var head := sb;
    var i := 0;
    while i < spaces
      invariant 0 <= i <= (if spaces > 0 then spaces else 0)
      invariant |sb| == |head| + i && sb[..|head|] == head
      invariant forall j :: 0 <= j < i ==> sb[|head| + j] == PadChar(j, spaces)
    {
      if i == 0 || i == spaces - 1 {
        sb := sb + [' '];
      } else {
        sb := sb + ['.'];
      }
      i := i + 1;
    }
    var pad := Padding(spaces);
    if spaces > 0 {
      forall j | 0 <= j < spaces ensures sb[|head| + j] == pad[j] {
        PaddingAt(spaces, j);
      }
      assert |pad| == spaces by { PaddingAt(spaces, 0); }
      assert sb == head + pad;
    } else {
      assert sb == head + [];
    }
    line := sb + msg;
  }

  // ---------------------------------------------------------------------
  // Style
  // ---------------------------------------------------------------------

  /** The ANSI styles. */
  datatype Style =
    | AnsiReset | AnsiUnderline | AnsiInvert | AnsiBright | AnsiBlack | AnsiRed
    | AnsiBrightGreen | AnsiBrightRed | AnsiBrightWhite | AnsiYellow | AnsiBlue
    | AnsiPurple | AnsiCyan | AnsiWhite | AnsiBrightCyan
    | AnsiBlackBackground | AnsiRedBackground | AnsiGreenBackground
    | AnsiYellowBackground | AnsiBlueBackground | AnsiPurpleBackground
    | AnsiCyanBackground | AnsiWhiteBackground
    | AnsiTitle | AnsiVscDash | AnsiVscBlue

  /** The escape sequence a style stands for. */
  function Pattern(style: Style): string
  {
    match style
    case AnsiReset => "\U{1B}[0m"
    case AnsiUnderline => "\U{1B}[4;1m"
    case AnsiInvert => "\U{1B}[7m"
    case AnsiBright => "\U{1B}[1m"
    case AnsiBlack => "\U{1B}[30m"
    case AnsiRed => "\U{1B}[31;1m"
    case AnsiBrightGreen => "\U{1B}[92;1m"
    case AnsiBrightRed => "\U{1B}[91;1m"
    case AnsiBrightWhite => "\U{1B}[97;1m"
    case AnsiYellow => "\U{1B}[33;1m"
    case AnsiBlue => "\U{1B}[34m"
    case AnsiPurple => "\U{1B}[35m"
    case AnsiCyan => "\U{1B}[36m"
    case AnsiWhite => "\U{1B}[37m"
    case AnsiBrightCyan => "\U{1B}[96m"
    case AnsiBlackBackground => "\U{1B}[40m"
    case AnsiRedBackground => "\U{1B}[41m"
    case AnsiGreenBackground => "\U{1B}[42m"
    case AnsiYellowBackground => "\U{1B}[43m"
    case AnsiBlueBackground => "\U{1B}[44m"
    case AnsiPurpleBackground => "\U{1B}[45m"
    case AnsiCyanBackground => "\U{1B}[46m"
    case AnsiWhiteBackground => "\U{1B}[47m"
    case AnsiTitle => "\U{1B}[33;4;1m"
    case AnsiVscDash => "\U{1B}[38;2;249;38;114m"
    case AnsiVscBlue => "\U{1B}[38;2;97;202;220m"
  }

  /** A Select Graphic Rendition sequence: ESC, '[', digits and ';', then 'm'. */
  predicate IsSgr(s: string) {
    && |s| >= 3
    && s[0] == '\U{1B}' && s[1] == '['
    && s[|s| - 1] == 'm'
    && forall i :: 2 <= i < |s| - 1 ==> IsDigit(s[i]) || s[i] == ';'
  }

  /** Every style's pattern is a well-formed SGR escape sequence. */
  lemma PatternIsSgr(style: Style)
    ensures IsSgr(Pattern(style))
  {
  }

  /** Style.toString: the escape sequence when colours are enabled, nothing otherwise. */
  function StyleToString(style: Style, enableColors: bool): (r: string)
    ensures enableColors ==> r == Pattern(style) && IsSgr(r)
    ensures !enableColors ==> r == ""
  {
    PatternIsSgr(style);
    if enableColors then Pattern(style) else ""
  }

  /** A style prints something exactly when colours are enabled, and then it prints its own escape. */
  lemma StyleToStringSwitch(style: Style, enableColors: bool)
    ensures StyleToString(style, enableColors) != [] <==> enableColors
    ensures enableColors ==> StyleToString(style, enableColors) == Pattern(style)
    ensures enableColors ==> IsSgr(StyleToString(style, enableColors))
    ensures !enableColors ==> StyleToString(style, enableColors) == ""
  {
    PatternIsSgr(style);
  }

  /** No two styles share an escape sequence, so the enabled text identifies the style. */
  lemma PatternInjective(s: Style, t: Style)
    requires Pattern(s) == Pattern(t)
    ensures s == t
  {
  }

  // ---------------------------------------------------------------------
  // getDurationSince, below one second
  // ---------------------------------------------------------------------

  /** getDurationSince when fewer than 1000 ms have elapsed: "0." + `%03d` of the milliseconds + "s". */
  function SubSecondDuration(elapsedMillis: int): (r: string)
    requires elapsedMillis < 1000
    ensures StartsWith(r, "0.") && r[|r| - 1] == 's'
    ensures 0 <= elapsedMillis ==> |r| == 6
    ensures elapsedMillis < 0 ==> r[2] == '-'
  {
    var digits := FormatZeroPadded(elapsedMillis, 3);
    assert 0 <= elapsedMillis ==> |digits| == 3 by {
      if 0 <= elapsedMillis { ThreeDigits(elapsedMillis); }
    }
    assert elapsedMillis < 0 ==> |digits| >= 1 && digits[0] == '-' by {
      if elapsedMillis < 0 { NegativeZeroPadded(elapsedMillis, 3); }
    }
    "0." + digits + "s"
  }

  /** For 0 <= ms < 1000 the text is "0.", three digits that spell ms, then "s". */
  lemma SubSecondDurationDigits(elapsedMillis: int)
    requires 0 <= elapsedMillis < 1000
    ensures |SubSecondDuration(elapsedMillis)| == 6
    ensures StartsWith(SubSecondDuration(elapsedMillis), "0.")
    ensures SubSecondDuration(elapsedMillis)[5] == 's'
    ensures AllDigits(SubSecondDuration(elapsedMillis)[2..5])
    ensures DecimalValue(SubSecondDuration(elapsedMillis)[2..5]) == elapsedMillis
  {
    var digits := FormatZeroPadded(elapsedMillis, 3);
    ThreeDigits(elapsedMillis);
    var r := SubSecondDuration(elapsedMillis);
    assert r[2..5] == digits;
    Affixes("0.", digits + "s");
    assert r == "0." + (digits + "s");
  }

  /** A negative elapsed time (a clock set back) keeps its sign: "0.-" and the rest. */
  lemma SubSecondDurationNegative(elapsedMillis: int)
    requires elapsedMillis < 0
    ensures StartsWith(SubSecondDuration(elapsedMillis), "0.-")
  {
  }
}
