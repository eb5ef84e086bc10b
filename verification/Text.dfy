/** Small text functions of the Go and Python libraries that the modelled code relies on. */
module Text {
  import opened Base

  /***** Numbers *****/

  function Digit(d: nat): char
    requires d < 10
  {
    ('0' as int + d) as char
  }

  /** Decimal digits, as `%d` prints them. */
  function Decimal(n: nat): (s: string)
    ensures s != ""
    ensures forall i | 0 <= i < |s| :: '0' <= s[i] <= '9'
  {
    if n < 10 then [Digit(n)] else Decimal(n / 10) + [Digit(n % 10)]
  }

  lemma {:induction false} DecimalInjective(m: nat, n: nat)
    requires Decimal(m) == Decimal(n)
    ensures m == n
    decreases m
  {
    var s := Decimal(m);
    assert s[|s| - 1] == Digit(m % 10) && s[|s| - 1] == Digit(n % 10);
    if m < 10 {
      assert |s| == 1;
      assert n >= 10 ==> |Decimal(n)| >= 2;
    } else {
      assert n < 10 ==> |s| == 1;
      assert Decimal(m / 10) == s[..|s| - 1] == Decimal(n / 10);
      DecimalInjective(m / 10, n / 10);
    }
  }

  /***** White space *****/

  /** `unicode.IsSpace`. */
  predicate IsSpace(c: char) {
    || c in {'\t', '\n', '\U{0B}', '\U{0C}', '\r', ' ', '\U{85}', '\U{A0}', '\U{1680}', '\U{2028}', '\U{2029}',
        '\U{202F}', '\U{205F}', '\U{3000}'}
    || '\U{2000}' <= c <= '\U{200A}'
  }

  /** White space by code point, as the Unicode standard lists it. */
  lemma SpacesAre(c: char)
    ensures IsSpace(c) <==>
              || 0x09 <= c as int <= 0x0D || c as int == 0x20 || c as int == 0x85 || c as int == 0xA0
              || c as int == 0x1680 || 0x2000 <= c as int <= 0x200A || c as int == 0x2028 || c as int == 0x2029
              || c as int == 0x202F || c as int == 0x205F || c as int == 0x3000
  {
  }

  function TrimLeft(s: string): string {
    if s != "" && IsSpace(s[0]) then TrimLeft(s[1..]) else s
  }

  function TrimRight(s: string): string {
    if s != "" && IsSpace(s[|s| - 1]) then TrimRight(s[..|s| - 1]) else s
  }

  /** `strings.TrimSpace`. */
  function TrimSpace(s: string): string {
    TrimRight(TrimLeft(s))
  }

  predicate IsTrimmed(s: string) {
    s == "" || (!IsSpace(s[0]) && !IsSpace(s[|s| - 1]))
  }

  lemma {:induction false} TrimmedStays(s: string)
    ensures |TrimLeft(s)| <= |s| && |TrimRight(s)| <= |s| && |TrimSpace(s)| <= |s|
    ensures TrimLeft(s) == s <==> s == "" || !IsSpace(s[0])
    ensures TrimRight(s) == s <==> s == "" || !IsSpace(s[|s| - 1])
    ensures TrimSpace(s) == s <==> IsTrimmed(s)
  {
    TrimLeftStays(s);
    TrimRightStays(s);
    TrimRightStays(TrimLeft(s));
  }

  lemma {:induction false} TrimLeftStays(s: string)
    ensures |TrimLeft(s)| <= |s|
    ensures TrimLeft(s) == s <==> s == "" || !IsSpace(s[0])
    ensures forall c :: c !in s ==> c !in TrimLeft(s)
  {
    if s != "" && IsSpace(s[0]) {
      TrimLeftStays(s[1..]);
      assert |TrimLeft(s)| < |s|;
      assert forall c :: c in s[1..] ==> c in s;
    }
  }

  lemma {:induction false} TrimRightStays(s: string)
    ensures |TrimRight(s)| <= |s|
    ensures |TrimRight(s)| == |s| <==> TrimRight(s) == s
    ensures TrimRight(s) == s <==> s == "" || !IsSpace(s[|s| - 1])
    ensures forall c :: c !in s ==> c !in TrimRight(s)
  {
    if s != "" && IsSpace(s[|s| - 1]) {
      TrimRightStays(s[..|s| - 1]);
      assert |TrimRight(s)| < |s|;
      assert forall c :: c in s[..|s| - 1] ==> c in s;
    }
  }

  lemma {:induction false} TrimSpaceIsTrimmed(s: string)
    ensures IsTrimmed(TrimSpace(s))
  {
    TrimLeftEnds(s);
    TrimRightEnds(TrimLeft(s));
  }

  lemma {:induction false} TrimLeftEnds(s: string)
    ensures TrimLeft(s) == "" || !IsSpace(TrimLeft(s)[0])
  {
    if s != "" && IsSpace(s[0]) { TrimLeftEnds(s[1..]); }
  }

  lemma {:induction false} TrimRightEnds(s: string)
    ensures TrimRight(s) == "" || !IsSpace(TrimRight(s)[|TrimRight(s)| - 1])
    ensures TrimRight(s) <= s
  {
    if s != "" && IsSpace(s[|s| - 1]) { TrimRightEnds(s[..|s| - 1]); }
  }

  lemma TrimKeepsOut(s: string, c: char)
    requires c !in s
    ensures c !in TrimSpace(s)
  {
    TrimLeftStays(s);
    TrimRightStays(TrimLeft(s));
  }

  /** Trimming stops at the last letter of `a`. */
  lemma {:induction false} TrimRightConcat(a: string, b: string)
    requires a != "" && !IsSpace(a[|a| - 1])
    ensures TrimRight(a + b) == a + TrimRight(b)
    decreases |b|
  {
    if b == "" {
      assert a + b == a;
      TrimRightStays(a);
    } else if IsSpace(b[|b| - 1]) {
      assert (a + b)[..|a + b| - 1] == a + b[..|b| - 1];
      TrimRightConcat(a, b[..|b| - 1]);
    }
  }

  /** Spaces, tabs and line ends. */
  ghost predicate IsBlank(s: string) {
    forall c <- s :: c == ' ' || c == '\t' || c == '\n' || c == '\r'
  }

  /** Begins and ends with visible ASCII. */
  ghost predicate IsSolid(s: string) {
    s != "" && '!' <= s[0] <= '~' && '!' <= s[|s| - 1] <= '~'
  }

  lemma {:induction false} TrimLeftBlank(l: string, s: string)
    requires IsBlank(l) && (s == "" || !IsSpace(s[0]))
    ensures TrimLeft(l + s) == s
  {
    if l == "" {
      assert l + s == s;
      TrimLeftStays(s);
    } else {
      assert l[0] in l && (forall c <- l[1..] :: c in l) && (l + s)[1..] == l[1..] + s;
      TrimLeftBlank(l[1..], s);
    }
  }

  lemma {:induction false} TrimRightBlank(r: string)
    requires IsBlank(r)
    ensures TrimRight(r) == ""
  {
    if r != "" {
      var most := r[..|r| - 1];
      assert r == most + [r[|r| - 1]];
      assert r[|r| - 1] in r && forall c <- most :: c in r;
      TrimRightBlank(most);
    }
  }

  /** Trimming takes the blanks off both ends and nothing else. */
  lemma TrimText(l: string, s: string, r: string)
    requires IsBlank(l) && IsBlank(r)
    ensures IsSolid(s) ==> TrimSpace(l + s + r) == s
    ensures TrimSpace(l) == ""
  {
    TrimLeftBlank(l, "");
    assert l + "" == l;
    if IsSolid(s) {
      assert l + s + r == l + (s + r) && (s + r)[0] == s[0];
      TrimLeftBlank(l, s + r);
      TrimRightConcat(s, r);
      TrimRightBlank(r);
    }
  }

  predicate HasSpace(s: string) {
    exists i | 0 <= i < |s| :: IsSpace(s[i])
  }

  /***** Splitting *****/

  /** Position of the first `c`, or the length. */
  function IndexOf(s: string, c: char): (i: nat)
    ensures i <= |s|
    ensures i < |s| ==> s[i] == c
    ensures c !in s[..i]
  {
    if s == "" || s[0] == c then 0 else
      var i := IndexOf(s[1..], c);
      assert s[..i + 1] == [s[0]] + s[1..][..i];
      i + 1
  }

  lemma {:induction false} IndexOfFirst(s: string, c: char, rest: string)
    requires c !in s
    ensures IndexOf(s + [c] + rest, c) == |s|
  {
    var all := s + [c] + rest;
    if s != "" {
      assert all[0] == s[0] && all[1..] == s[1..] + [c] + rest;
      IndexOfFirst(s[1..], c, rest);
    }
  }

  /** `strings.Fields`: the parts between runs of white space. */
  function Fields(s: string): seq<string>
    decreases |s|
  {
    if s == "" then []
    else if IsSpace(s[0]) then Fields(s[1..])
    else
      var n := WordLength(s);
      [s[..n]] + Fields(s[n..])
  }

  /** Length of the word a text begins with. */
  function WordLength(s: string): (n: nat)
    ensures n <= |s|
    ensures s != "" && !IsSpace(s[0]) ==> n > 0
  {
    if s == "" || IsSpace(s[0]) then 0 else 1 + WordLength(s[1..])
  }

  lemma {:induction false} WordLengthOf(word: string, rest: string)
    requires !HasSpace(word) && (rest == "" || IsSpace(rest[0]))
    ensures WordLength(word + rest) == |word|
  {
    if word == "" {
      assert word + rest == rest;
    } else {
      assert forall i | 0 <= i < |word[1..]| :: word[1..][i] == word[i + 1];
      assert (word + rest)[1..] == word[1..] + rest;
      assert !IsSpace(word[0]);
      WordLengthOf(word[1..], rest);
    }
  }

  lemma FieldsOfWord(word: string, rest: string)
    requires word != "" && !HasSpace(word) && (rest == "" || IsSpace(rest[0]))
    ensures Fields(word + rest) == [word] + Fields(rest)
  {
    WordLengthOf(word, rest);
    assert (word + rest)[0] == word[0] && !IsSpace(word[0]);
    assert (word + rest)[..|word|] == word && (word + rest)[|word|..] == rest;
  }

  lemma TwoFields(a: string, b: string)
    requires a != "" && b != "" && !HasSpace(a) && !HasSpace(b)
    ensures Fields(a + "  " + b) == [a, b]
  {
    assert a + "  " + b == a + ("  " + b) && b + "" == b;
    FieldsOfWord(a, "  " + b);
    FieldsOfWord(b, "");
    var t := "  " + b;
    assert t[1..] == " " + b && t[1..][1..] == b;
    assert Fields(t) == Fields(t[1..]) == Fields(b);
  }

  /** A line without a trailing carriage return. */
  function DropCarriageReturn(s: string): string {
    if s != "" && s[|s| - 1] == '\r' then s[..|s| - 1] else s
  }

  /** The lines of a text, as `bufio.Scanner` reports them: no empty last line, no carriage returns at the end. */
  function ScannedLines(s: string): seq<string>
    decreases |s|
  {
    if s == "" then []
    else
      var i := IndexOf(s, '\n');
      [DropCarriageReturn(s[..i])] + if i < |s| then ScannedLines(s[i + 1..]) else []
  }

  lemma ScannedLine(line: string, rest: string)
    requires '\n' !in line && DropCarriageReturn(line) == line
    ensures ScannedLines(line + "\n" + rest) == [line] + ScannedLines(rest)
  {
    IndexOfFirst(line, '\n', rest);
    var all := line + "\n" + rest;
    assert all[..|line|] == line && all[|line| + 1..] == rest;
  }

  /***** Joining *****/

  /** The lines, each with a line end. */
  function Unlines(lines: seq<string>): string {
    if lines == [] then "" else lines[0] + "\n" + Unlines(lines[1..])
  }

  lemma {:induction false} UnlinesConcat(a: seq<string>, b: seq<string>)
    ensures Unlines(a + b) == Unlines(a) + Unlines(b)
  {
    if a == [] {
      assert a + b == b;
    } else {
      UnlinesConcat(a[1..], b);
      assert (a + b)[0] == a[0] && (a + b)[1..] == a[1..] + b;
      Associative(a[0] + "\n", Unlines(a[1..]), Unlines(b));
    }
  }
}
