/**
 Visible spellings of text: the escape sequences of Go's `strconv`, the rendering of tool descriptions
 that must not hide anything, and quoted strings. Texts are sequences of runes.
 */
module Quoting {
  import opened Base

  /** Which runes are printable is a table of the Unicode library; the ASCII part is fixed. */
  type Printable = char -> bool

  ghost predicate AsciiRules(isPrint: Printable) {
    forall c: char | c < '\U{80}' :: isPrint(c) <==> ' ' <= c <= '~'
  }

  /***** Hexadecimal *****/

  function HexDigit(d: nat): char
    requires d < 16
  {
    if d < 10 then ('0' as int + d) as char else ('a' as int + d - 10) as char
  }

  function HexValue(c: char): Option<nat> {
    if '0' <= c <= '9' then Some(c as int - '0' as int)
    else if 'a' <= c <= 'f' then Some(c as int - 'a' as int + 10)
    else if 'A' <= c <= 'F' then Some(c as int - 'A' as int + 10)
    else None
  }

  /** The last `width` digits of a number. */
  function Hex(n: nat, width: nat): (s: string)
    ensures |s| == width
    ensures forall i | 0 <= i < |s| :: '0' <= s[i] <= '9' || 'a' <= s[i] <= 'f'
  {
    if width == 0 then "" else Hex(n / 16, width - 1) + [HexDigit(n % 16)]
  }

  function ParseHex(s: string): Option<nat> {
    if s == "" then Some(0)
    else
      var front, last := ParseHex(s[..|s| - 1]), HexValue(s[|s| - 1]);
      if front.Some? && last.Some? then Some(16 * front.value + last.value) else None
  }

  function Pow16(width: nat): nat {
    if width == 0 then 1 else 16 * Pow16(width - 1)
  }

  lemma HexDigitRoundTrip(d: nat)
    requires d < 16
    ensures HexValue(HexDigit(d)) == Some(d)
  {
  }

  lemma {:induction false} HexRoundTrip(n: nat, width: nat)
    requires n < Pow16(width)
    ensures ParseHex(Hex(n, width)) == Some(n)
  {
    if width > 0 {
      var s := Hex(n, width);
      var front := Hex(n / 16, width - 1);
      HexRoundTrip(n / 16, width - 1);
      HexDigitRoundTrip(n % 16);
      assert s == front + [HexDigit(n % 16)];
      assert s[..|s| - 1] == front && s[|s| - 1] == HexDigit(n % 16);
    }
  }

  lemma Powers()
    ensures Pow16(2) == 0x100 && Pow16(4) == 0x1_0000 && Pow16(8) == 0x1_0000_0000
  {
    assert Pow16(2) == 16 * Pow16(1) && Pow16(1) == 16 * Pow16(0);
    assert Pow16(4) == 16 * Pow16(3) && Pow16(3) == 16 * Pow16(2);
    assert Pow16(6) == 16 * Pow16(5) && Pow16(5) == 16 * Pow16(4);
    assert Pow16(8) == 16 * Pow16(7) && Pow16(7) == 16 * Pow16(6);
  }

  /***** Escape sequences *****/

  /** The letter of a short escape sequence. */
  function Letter(c: char): Option<char> {
    match c as int
    case 7 => Some('a')
    case 8 => Some('b')
    case 9 => Some('t')
    case 10 => Some('n')
    case 11 => Some('v')
    case 12 => Some('f')
    case 13 => Some('r')
    case _ => None
  }

  /** The rune a letter stands for after a backslash. */
  function FromLetter(letter: char): Option<char> {
    match letter
    case 'a' => Some(7 as char)
    case 'b' => Some(8 as char)
    case 't' => Some(9 as char)
    case 'n' => Some(10 as char)
    case 'v' => Some(11 as char)
    case 'f' => Some(12 as char)
    case 'r' => Some(13 as char)
    case '\\' => Some('\\')
    case '"' => Some('"')
    case _ => None
  }

  /** What follows the backslash of a rune that is not printable. */
  function Hidden(c: char): (s: string)
    ensures s != ""
  {
    if Letter(c).Some? then [Letter(c).value]
    else if c < ' ' || c == '\U{7F}' then "x" + Hex(c as int, 2)
    else if c as int < 0x10000 then "u" + Hex(c as int, 4)
    else "U" + Hex(c as int, 8)
  }

  predicate IsRune(n: int) { 0 <= n < 0xD800 || 0xE000 <= n < 0x11_0000 }

  /** Number of hexadecimal digits after the letter. */
  function Width(letter: char): nat {
    match letter
    case 'x' => 2
    case 'u' => 4
    case 'U' => 8
    case _ => 0
  }

  /** Reads an escape sequence after its backslash: the rune and the number of letters used. */
  function ReadEscape(s: string): (r: Option<(char, nat)>)
    ensures r.Some? ==> 0 < r.value.1 <= |s|
  {
    if s == "" then None
    else if FromLetter(s[0]).Some? then Some((FromLetter(s[0]).value, 1))
    else
      var w := Width(s[0]);
      if w == 0 || |s| < 1 + w then None
      else
        var n := ParseHex(s[1..1 + w]);
        if n.None? || !IsRune(n.value) || (w == 2 && n.value >= 0x80) then None
        else Some((n.value as char, 1 + w))
  }

  lemma ReadsHex(letter: char, n: nat, rest: string)
    requires FromLetter(letter).None? && Width(letter) > 0 && n < Pow16(Width(letter))
    requires IsRune(n) && (Width(letter) == 2 ==> n < 0x80)
    ensures ReadEscape([letter] + Hex(n, Width(letter)) + rest) == Some((n as char, 1 + Width(letter)))
  {
    var w := Width(letter);
    var s := [letter] + Hex(n, w) + rest;
    HexRoundTrip(n, w);
    assert s[0] == letter && s[1..1 + w] == Hex(n, w);
  }

  lemma HiddenReadsBack(c: char, rest: string)
    ensures ReadEscape(Hidden(c) + rest) == Some((c, |Hidden(c)|))
  {
    var s := Hidden(c) + rest;
    Powers();
    if Letter(c).Some? {
      assert s[0] == Letter(c).value;
    } else if c < ' ' || c == '\U{7F}' {
      ReadsHex('x', c as int, rest);
    } else if c as int < 0x10000 {
      ReadsHex('u', c as int, rest);
    } else {
      ReadsHex('U', c as int, rest);
    }
  }

  /** The sequences Go prints: seven letters, and hexadecimal digits for the others. */
  lemma LettersAre()
    ensures Hidden(7 as char) == "a" && Hidden(8 as char) == "b" && Hidden('\t') == "t" && Hidden('\n') == "n"
    ensures Hidden(11 as char) == "v" && Hidden(12 as char) == "f" && Hidden('\r') == "r"
  {
  }

  lemma HexTwo(n: nat, width: nat)
    ensures Hex(n, width + 2) == Hex(n / 256, width) + [HexDigit(n / 16 % 16), HexDigit(n % 16)]
  {
    assert n / 16 / 16 == n / 256;
    assert Hex(n, width + 2) == Hex(n / 16, width + 1) + [HexDigit(n % 16)];
    assert Hex(n / 16, width + 1) == Hex(n / 256, width) + [HexDigit(n / 16 % 16)];
  }

  lemma HexFour(n: nat, width: nat)
    ensures Hex(n, width + 4) == Hex(n / 0x10000, width) + Low(n)
  {
    HexTwo(n, width + 2);
    HexTwo(n / 256, width);
    assert n / 256 / 256 == n / 0x10000 && n / 256 / 16 == n / 0x1000;
  }

  lemma DigitsAre(d: nat)
    requires d < 16
    ensures HexDigit(d) == "0123456789abcdef"[d]
  {
  }

  /** The last four digits of a rune. */
  function Low(n: nat): string {
    [HexDigit(n / 0x1000 % 16), HexDigit(n / 0x100 % 16)] + [HexDigit(n / 16 % 16), HexDigit(n % 16)]
  }

  /** Two digits below 128, four for the other runes of the first plane, eight beyond. */
  lemma NumbersAre(c: char)
    requires c as int < 7 || 13 < c as int
    ensures c as int < 0x20 || c as int == 0x7F ==>
              Hidden(c) == ['x'] + [HexDigit(c as int / 16 % 16), HexDigit(c as int % 16)]
    ensures 0x80 <= c as int < 0x10000 ==> Hidden(c) == ['u'] + Low(c as int)
    ensures c as int >= 0x10000 ==> Hidden(c) == ['U'] + (Hex(c as int / 0x10000, 4) + Low(c as int))
  {
    var n := c as int;
    assert Letter(c).None?;
    if n < 0x20 || n == 0x7F {
      HexTwo(n, 0);
    } else {
      HexFour(n, if n < 0x10000 then 0 else 4);
    }
  }

  /***** Texts *****/

  /** One rune, spelled out: a backslash before a marked rune, an escape sequence for what is not printable. */
  function Spelled(isPrint: Printable, marks: set<char>, c: char): string {
    if c in marks then ['\\', c] else if isPrint(c) then [c] else ['\\'] + Hidden(c)
  }

  function Show(isPrint: Printable, marks: set<char>, s: string): string {
    if s == "" then "" else Spelled(isPrint, marks, s[0]) + Show(isPrint, marks, s[1..])
  }

  /** Reads a text with escape sequences; the forbidden runes must not stand for themselves. */
  function Read(s: string, forbidden: set<char>): Option<string>
    decreases |s|
  {
    if s == "" then Some("")
    else if s[0] == '\\' then
      var e := ReadEscape(s[1..]);
      if e.None? then None else Prepend(e.value.0, Read(s[1 + e.value.1..], forbidden))
    else if s[0] in forbidden then None
    else Prepend(s[0], Read(s[1..], forbidden))
  }

  function Prepend(c: char, rest: Option<string>): Option<string> {
    if rest.None? then None else Some([c] + rest.value)
  }

  /** Marks that can be read back: the backslash, and every forbidden rune that is printable. */
  ghost predicate Fits(isPrint: Printable, marks: set<char>, forbidden: set<char>) {
    && '\\' in marks && marks <= {'\\', '"'}
    && forall c <- forbidden :: c in marks || !isPrint(c)
  }

  lemma ReadsSequence(e: string, c: char, rest: string, forbidden: set<char>)
    requires ReadEscape(e + rest) == Some((c, |e|))
    ensures Read(['\\'] + e + rest, forbidden) == Prepend(c, Read(rest, forbidden))
  {
    var s := ['\\'] + e + rest;
    assert s[0] == '\\' && s[1..] == e + rest && s[1 + |e|..] == rest;
  }

  lemma ReadsPlain(c: char, rest: string, forbidden: set<char>)
    requires c != '\\' && c !in forbidden
    ensures Read([c] + rest, forbidden) == Prepend(c, Read(rest, forbidden))
  {
    assert ([c] + rest)[1..] == rest;
  }

  lemma ReadsSpelled(isPrint: Printable, marks: set<char>, forbidden: set<char>, c: char, rest: string)
    requires Fits(isPrint, marks, forbidden)
    ensures Read(Spelled(isPrint, marks, c) + rest, forbidden) == Prepend(c, Read(rest, forbidden))
  {
    if c in marks {
      assert ReadEscape([c] + rest) == Some((c, 1)) && ['\\', c] == ['\\'] + [c];
      ReadsSequence([c], c, rest, forbidden);
    } else if isPrint(c) {
      ReadsPlain(c, rest, forbidden);
    } else {
      HiddenReadsBack(c, rest);
      ReadsSequence(Hidden(c), c, rest, forbidden);
    }
  }

  /** Reading undoes spelling out, so different texts are spelled differently. */
  lemma {:induction false} ReadUndoesShow(isPrint: Printable, marks: set<char>, forbidden: set<char>, s: string)
    requires Fits(isPrint, marks, forbidden)
    ensures Read(Show(isPrint, marks, s), forbidden) == Some(s)
  {
    if s != "" {
      ReadUndoesShow(isPrint, marks, forbidden, s[1..]);
      ReadsSpelled(isPrint, marks, forbidden, s[0], Show(isPrint, marks, s[1..]));
      assert s == [s[0]] + s[1..];
    }
  }

  lemma HexIsPrintable(isPrint: Printable, letter: char, n: nat, width: nat)
    requires AsciiRules(isPrint) && letter in {'x', 'u', 'U'}
    ensures forall i | 0 <= i < 1 + width :: isPrint(([letter] + Hex(n, width))[i])
  {
    var s := [letter] + Hex(n, width);
    forall i | 0 <= i < 1 + width ensures isPrint(s[i]) {
      if i > 0 { assert s[i] == Hex(n, width)[i - 1]; }
    }
  }

  lemma HiddenIsPrintable(isPrint: Printable, c: char)
    requires AsciiRules(isPrint)
    ensures forall i | 0 <= i < |Hidden(c)| :: isPrint(Hidden(c)[i])
  {
    HexIsPrintable(isPrint, 'x', c as int, 2);
    HexIsPrintable(isPrint, 'u', c as int, 4);
    HexIsPrintable(isPrint, 'U', c as int, 8);
  }

  /** Only printable runes come out. */
  lemma {:induction false} ShowIsPrintable(isPrint: Printable, marks: set<char>, s: string)
    requires AsciiRules(isPrint) && marks <= {'\\', '"'}
    ensures forall i | 0 <= i < |Show(isPrint, marks, s)| :: isPrint(Show(isPrint, marks, s)[i])
  {
    if s != "" {
      ShowIsPrintable(isPrint, marks, s[1..]);
      HiddenIsPrintable(isPrint, s[0]);
    }
  }

  /** A text that needs no escapes is spelled as it is. */
  lemma {:induction false} PlainIsShown(isPrint: Printable, marks: set<char>, s: string)
    requires forall i | 0 <= i < |s| :: isPrint(s[i]) && s[i] !in marks
    ensures Show(isPrint, marks, s) == s
  {
    if s != "" {
      PlainIsShown(isPrint, marks, s[1..]);
      assert s == [s[0]] + s[1..];
    }
  }

  /***** Tool descriptions *****/

  method EscapeRune(isPrint: Printable, c: char) returns (piece: string)
    ensures piece == Spelled(isPrint, {'\\'}, c)
  {
    if c == '\\' { return ['\\', '\\']; }
    if isPrint(c) { return [c]; }
    return ['\\'] + Hidden(c);
  }

  /** `escapeNonPrintable`: the early return and the rune loop give one and the same rendering. */
  method EscapeNonPrintable(isPrint: Printable, s: string) returns (r: string)
    ensures r == Show(isPrint, {'\\'}, s)
  {
    if forall i | 0 <= i < |s| :: s[i] != '\\' && isPrint(s[i]) {
      PlainIsShown(isPrint, {'\\'}, s);
      return s;
    }
    r := EscapeRunes(isPrint, s);
  }

  method EscapeRunes(isPrint: Printable, s: string) returns (r: string)
    ensures r == Show(isPrint, {'\\'}, s)
  {
    r := "";
    for i := 0 to |s|
      invariant r + Show(isPrint, {'\\'}, s[i..]) == Show(isPrint, {'\\'}, s)
    {
      ShowNext(isPrint, {'\\'}, r, s, i);
      var piece := EscapeRune(isPrint, s[i]);
      r := r + piece;
    }
  }

  lemma ShowNext(isPrint: Printable, marks: set<char>, r: string, s: string, i: nat)
    requires i < |s|
    ensures r + Show(isPrint, marks, s[i..]) == (r + Spelled(isPrint, marks, s[i])) + Show(isPrint, marks, s[i + 1..])
  {
    assert s[i..][0] == s[i] && s[i..][1..] == s[i + 1..];
    assert Show(isPrint, marks, s[i..]) == Spelled(isPrint, marks, s[i]) + Show(isPrint, marks, s[i + 1..]);
  }

  /** A rendered description shows printable runes only and determines the description. */
  lemma NothingIsHidden(isPrint: Printable, s: string, t: string)
    requires AsciiRules(isPrint)
    ensures forall i | 0 <= i < |Show(isPrint, {'\\'}, s)| :: isPrint(Show(isPrint, {'\\'}, s)[i])
    ensures Read(Show(isPrint, {'\\'}, s), {}) == Some(s)
    ensures Show(isPrint, {'\\'}, s) == Show(isPrint, {'\\'}, t) ==> s == t
  {
    ShowIsPrintable(isPrint, {'\\'}, s);
    ReadUndoesShow(isPrint, {'\\'}, {}, s);
    ReadUndoesShow(isPrint, {'\\'}, {}, t);
  }

  /***** Quoted strings *****/

  const QUOTED := {'\\', '"'}

  function Quote(isPrint: Printable, s: string): string {
    "\"" + Show(isPrint, QUOTED, s) + "\""
  }

  /** Double-quoted strings only. */
  function Unquote(s: string): Option<string> {
    if |s| < 2 || s[0] != '"' || s[|s| - 1] != '"' then None else Read(s[1..|s| - 1], {'"', '\n'})
  }

  lemma UnquoteUndoesQuote(isPrint: Printable, s: string)
    requires AsciiRules(isPrint)
    ensures Unquote(Quote(isPrint, s)) == Some(s)
  {
    var q := Quote(isPrint, s);
    assert q[1..|q| - 1] == Show(isPrint, QUOTED, s);
    ReadUndoesShow(isPrint, QUOTED, {'"', '\n'}, s);
  }
}
