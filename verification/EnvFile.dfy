/**
 Variables as a .env file: the unmasked export writes KEY=VALUE lines under comment lines that carry type,
 visibility and metadata; the import reads them back.
 */
module EnvFile {
  import opened Base
  import opened Text
  import opened Variables
  import opened Quoting

  /***** Export *****/

  function Comment(name: string, value: string): string { "# @" + name + "=" + value }

  function Marker(isPrint: Printable, name: string, value: string): seq<string> {
    if value == "" then [] else [Comment(name, Quote(isPrint, value))]
  }

  /** The comment lines above a variable; secret strings need none. */
  function Markers(isPrint: Printable, v: Variable): seq<string> {
    (if v.isSecret then [] else ["# @public"]) +
    (if v.typ == "" || v.typ == TYPE_STRING then [] else [Comment("type", v.typ)]) +
    Marker(isPrint, "description", v.description) + Marker(isPrint, "docs", v.docs) +
    Marker(isPrint, "example", v.example) + Marker(isPrint, "deprecated", v.deprecated)
  }

  function KeyLine(v: Variable): string { v.key + "=" + v.value }

  function ExportLines(isPrint: Printable, vars: seq<Variable>): seq<string> {
    if vars == [] then [] else Markers(isPrint, vars[0]) + [KeyLine(vars[0])] + ExportLines(isPrint, vars[1..])
  }

  /** The exported text; without variables a notice is printed instead. */
  function Export(isPrint: Printable, vars: seq<Variable>): string {
    if vars == [] then "No exportable variables stored\n" else Unlines(ExportLines(isPrint, vars))
  }

  lemma PrintOneMore(isPrint: Printable, text: string, vars: seq<Variable>, i: nat)
    requires i < |vars|
    ensures var lines := Markers(isPrint, vars[i]) + [KeyLine(vars[i])];
            text + Unlines(ExportLines(isPrint, vars[i..]))
                == (text + Unlines(lines)) + Unlines(ExportLines(isPrint, vars[i + 1..]))
  {
    var lines := Markers(isPrint, vars[i]) + [KeyLine(vars[i])];
    var rest := ExportLines(isPrint, vars[i + 1..]);
    assert vars[i..][0] == vars[i] && vars[i..][1..] == vars[i + 1..];
    UnlinesConcat(lines, rest);
    Associative(text, Unlines(lines), Unlines(rest));
  }

  /** The printing loop of the unmasked export. */
  method PrintVariables(isPrint: Printable, vars: seq<Variable>) returns (text: string)
    ensures text == Export(isPrint, vars)
  {
    if vars == [] { return "No exportable variables stored\n"; }
    text := "";
    for i := 0 to |vars|
      invariant text + Unlines(ExportLines(isPrint, vars[i..])) == Unlines(ExportLines(isPrint, vars))
    {
      PrintOneMore(isPrint, text, vars, i);
      text := text + Unlines(Markers(isPrint, vars[i]) + [KeyLine(vars[i])]);
    }
    assert vars[|vars|..] == [];
  }

  /***** Import *****/

  /** What the comment lines seen so far say about the next variable. */
  datatype Pending = Pending(typ: string, isSecret: bool, description: string, docs: string, example: string,
      deprecated: string)

  const NOTHING := Pending(TYPE_STRING, true, "", "", "", "")

  datatype ParseError = BadMarker(typ: string) | NoPairs

  /** `strings.Split` at line ends. */
  function SplitLines(s: string): (lines: seq<string>)
    ensures lines != []
    decreases |s|
  {
    var i := IndexOf(s, '\n');
    if i == |s| then [s] else [s[..i]] + SplitLines(s[i + 1..])
  }

  /** A marker value is a quoted string, or stands for itself. */
  function MarkerValue(value: string): string {
    if Unquote(value).Some? then Unquote(value).value else value
  }

  /** A comment's text may be a marker `@public` or `@name=value`; other comments are ignored. */
  function ReadMarker(p: Pending, marker: string): Result<Pending, ParseError> {
    if marker == "@public" then Ok(p.(isSecret := false))
    else
      var i := IndexOf(marker, '=');
      if i == |marker| || marker[0] != '@' then Ok(p) else ReadNamed(p, marker[1..i], marker[i + 1..])
  }

  function ReadNamed(p: Pending, name: string, value: string): Result<Pending, ParseError> {
    match name
    case "type" => if IsValidType(value) then Ok(p.(typ := value)) else Err(BadMarker(value))
    case "description" => Ok(p.(description := MarkerValue(value)))
    case "docs" => Ok(p.(docs := MarkerValue(value)))
    case "example" => Ok(p.(example := MarkerValue(value)))
    case "deprecated" => Ok(p.(deprecated := MarkerValue(value)))
    case _ => Ok(p)
  }

  predicate Wrapped(value: string) {
    |value| >= 2 && value[0] == value[|value| - 1] && value[0] in {'"', '\''}
  }

  function Unwrap(value: string): string {
    if Wrapped(value) then value[1..|value| - 1] else value
  }

  const EXPORT := "export "

  function DropExport(line: string): string {
    if EXPORT <= line then line[|EXPORT|..] else line
  }

  /** The key and value of a line, if it has any. */
  function ReadPair(text: string): Option<(string, string)> {
    var line := DropExport(text);
    var i := IndexOf(line, '=');
    if i == |line| || TrimSpace(line[..i]) == "" then None
    else Some((TrimSpace(line[..i]), Unwrap(TrimSpace(line[i + 1..]))))
  }

  function Made(p: Pending, pair: (string, string)): Variable {
    Variable(pair.0, pair.1, p.typ, p.isSecret, "", p.description, p.docs, p.example, p.deprecated)
  }

  datatype State = State(out: seq<Variable>, pending: Pending)

  function ReadLine(s: State, raw: string): Result<State, ParseError> {
    var line := TrimSpace(raw);
    if line == "" then Ok(s.(pending := NOTHING))
    else if line[0] == '#' then
      var p := ReadMarker(s.pending, TrimSpace(line[1..]));
      if p.Err? then Err(p.error) else Ok(s.(pending := p.value))
    else
      var pair := ReadPair(line);
      if pair.None? then Ok(s) else Ok(State(s.out + [Made(s.pending, pair.value)], NOTHING))
  }

  function ReadLines(s: State, lines: seq<string>): Result<State, ParseError>
    decreases |lines|
  {
    if lines == [] then Ok(s)
    else
      var next := ReadLine(s, lines[0]);
      if next.Err? then next else ReadLines(next.value, lines[1..])
  }

  function Parse(content: string): Result<seq<Variable>, ParseError> {
    var s := ReadLines(State([], NOTHING), SplitLines(content));
    if s.Err? then Err(s.error) else if s.value.out == [] then Err(NoPairs) else Ok(s.value.out)
  }

  /** The line loop of `parseVariablesEnv`. */
  method ParseVariables(content: string) returns (r: Result<seq<Variable>, ParseError>)
    ensures r == Parse(content)
  {
    var out: seq<Variable>, pending := [], NOTHING;
    var lines := SplitLines(content);
    for i := 0 to |lines|
      invariant ReadLines(State([], NOTHING), lines) == ReadLines(State(out, pending), lines[i..])
    {
      assert lines[i..][0] == lines[i] && lines[i..][1..] == lines[i + 1..];
      var line := TrimSpace(lines[i]);
      if line == "" {
        pending := NOTHING;
        continue;
      }
      if line[0] == '#' {
        var p := ReadMarker(pending, TrimSpace(line[1..]));
        if p.Err? { return Err(p.error); }
        pending := p.value;
        continue;
      }
      var pair := ReadPair(line);
      if pair.None? { continue; }
      out := out + [Made(pending, pair.value)];
      pending := NOTHING;
    }
    if out == [] { return Err(NoPairs); }
    return Ok(out);
  }

  /***** Round trip *****/

  /** What an import makes of a variable: sets are not exported, and an empty type is read as string. */
  function Imported(v: Variable): Variable {
    v.(typ := if v.typ == "" then "string" else v.typ, group := "")
  }

  function AllImported(vars: seq<Variable>): seq<Variable> {
    seq(|vars|, i requires 0 <= i < |vars| => Imported(vars[i]))
  }

  ghost predicate CleanKey(key: string) {
    key != "" && IsTrimmed(key) && '\n' !in key && '=' !in key && key[0] != '#' && !("export " <= key)
  }

  ghost predicate CleanValue(value: string) {
    && IsTrimmed(value) && '\n' !in value
    && !(|value| >= 2 && value[0] == value[|value| - 1] && (value[0] == '"' || value[0] == '\''))
  }

  /** A variable whose lines can be read back. */
  ghost predicate Clean(v: Variable) {
    CleanKey(v.key) && CleanValue(v.value) && v.typ in ["", "string", "json", "list", "number", "bool"]
  }

  /** A line `key=value` whose key is trimmed and holds no equals sign loses only spaces at its end. */
  lemma KeyLineTrims(key: string, value: string)
    requires key != "" && IsTrimmed(key)
    ensures TrimSpace(key + "=" + value) == key + "=" + TrimRight(value)
  {
    var line := key + "=" + value;
    assert line[0] == key[0];
    TrimLeftStays(line);
    assert IsSpace('=') == false;
    TrimRightConcat(key + "=", value);
  }

  lemma PairOf(key: string, value: string)
    requires '=' !in key && !(EXPORT <= key)
    ensures ReadPair(key + "=" + value) ==
            if TrimSpace(key) == "" then None else Some((TrimSpace(key), Unwrap(TrimSpace(value))))
  {
    var line := key + "=" + value;
    NoExport(key, value);
    IndexOfFirst(key, '=', value);
    assert line[..|key|] == key && line[|key| + 1..] == value;
  }

  lemma NoExport(key: string, value: string)
    requires '=' !in key
    ensures EXPORT <= key + "=" + value <==> EXPORT <= key
  {
    var line := key + "=" + value;
    assert line[|key|] == '=' && forall i | 0 <= i < |EXPORT| :: EXPORT[i] != '=';
    assert |key| >= |EXPORT| ==> line[..|EXPORT|] == key[..|EXPORT|];
  }

  /** The key line of a clean variable reads back as its key and value. */
  lemma CleanLine(s: State, v: Variable)
    requires CleanKey(v.key) && CleanValue(v.value)
    ensures ReadLine(s, KeyLine(v)) == Ok(State(s.out + [Made(s.pending, (v.key, v.value))], NOTHING))
  {
    KeyLineTrims(v.key, v.value);
    TrimmedStays(v.value);
    TrimmedStays(v.key);
    PairOf(v.key, v.value);
    assert KeyLine(v)[0] == v.key[0];
  }

  /** What a line yields never has an equals sign in the key, and the key is trimmed and not empty. */
  lemma PairIsTidy(text: string)
    requires ReadPair(text).Some?
    ensures var key := ReadPair(text).value.0; key != "" && IsTrimmed(key) && '=' !in key
  {
    var line := DropExport(text);
    var i := IndexOf(line, '=');
    TrimSpaceIsTrimmed(line[..i]);
    TrimKeepsOut(line[..i], '=');
  }

  lemma PrefixDropped(p: string, key: string, rest: string)
    requires p <= key
    ensures p <= key + rest && (key + rest)[|p|..] == key[|p|..] + rest
  {
  }

  lemma ExportIsDropped(key: string, value: string)
    requires '=' !in key && EXPORT <= key && ReadPair(key + "=" + value).Some?
    ensures |ReadPair(key + "=" + value).value.0| < |key|
  {
    var line, rest := key + "=" + value, key[|EXPORT|..];
    PrefixDropped(EXPORT, key, "=" + value);
    assert line == key + ("=" + value);
    assert DropExport(line) == rest + "=" + value;
    KeyPart(rest, value);
    TrimmedStays(rest);
    assert |rest| < |key|;
  }

  lemma KeyPart(key: string, value: string)
    requires '=' !in key
    ensures var line := key + "=" + value;
            IndexOf(line, '=') == |key| && line[..|key|] == key && line[|key| + 1..] == value
  {
    IndexOfFirst(key, '=', value);
  }

  lemma UnwrapShortens(value: string)
    ensures |Unwrap(value)| <= |value| && (|Unwrap(value)| == |value| ==> !Wrapped(value) && Unwrap(value) == value)
  {
  }

  lemma ValueIsClean(value: string)
    requires Unwrap(TrimSpace(TrimRight(value))) == value
    ensures IsTrimmed(value) && !Wrapped(value)
  {
    var t := TrimRight(value);
    TrimRightStays(value);
    TrimmedStays(t);
    UnwrapShortens(TrimSpace(t));
    assert t == value;
  }

  /** A key line that reads back as its key and value comes from a clean pair. */
  lemma OnlyCleanLines(s: State, v: Variable, p: Pending)
    requires '\n' !in v.key && '\n' !in v.value
    requires ReadLine(s, KeyLine(v)) == Ok(State(s.out + [Made(p, (v.key, v.value))], NOTHING))
    ensures CleanKey(v.key) && CleanValue(v.value)
  {
    var line := TrimSpace(KeyLine(v));
    var pair := ReadPair(line);
    assert s.out + [Made(p, (v.key, v.value))] != s.out;
    assert line != "" && line[0] != '#' && pair.Some?;
    assert (s.out + [Made(s.pending, pair.value)])[|s.out|] == (s.out + [Made(p, (v.key, v.value))])[|s.out|];
    assert pair.value == (v.key, v.value);
    PairIsTidy(line);
    KeyLineTrims(v.key, v.value);
    if EXPORT <= v.key {
      ExportIsDropped(v.key, TrimRight(v.value));
    } else {
      PairOf(v.key, TrimRight(v.value));
      ValueIsClean(v.value);
    }
  }

  /***** Comment lines *****/

  /** A comment line `# text` whose text is trimmed. */
  lemma CommentText(text: string)
    requires text != "" && IsTrimmed(text)
    ensures var line := "# " + text; TrimSpace(line) == line && line[0] == '#' && TrimSpace(line[1..]) == text
  {
    var line := "# " + text;
    assert line[|line| - 1] == text[|text| - 1] && line[0] == '#';
    TrimmedStays(line);
    TrimmedStays(text);
    assert line[1..] == " " + text && (" " + text)[1..] == text;
    assert TrimLeft(" " + text) == TrimLeft(text);
  }

  lemma MarkerParts(name: string, value: string)
    requires '=' !in name
    ensures var marker := "@" + name + "=" + value;
            && IndexOf(marker, '=') == 1 + |name| < |marker| && marker[0] == '@'
            && marker[1..1 + |name|] == name && marker[2 + |name|..] == value
            && marker != "@public"
  {
    var marker := "@" + name + "=" + value;
    assert marker == ("@" + name) + ['='] + value;
    IndexOfFirst("@" + name, '=', value);
    assert marker[1 + |name|] == '=' && forall i | 0 <= i < |"@public"| :: "@public"[i] != '=';
  }

  /** A marker line is read as its name and value. */
  lemma MarkerLine(s: State, name: string, value: string)
    requires '=' !in name && value != "" && !IsSpace(value[|value| - 1])
    ensures var marker := "@" + name + "=" + value;
            var p := ReadMarker(s.pending, marker);
            ReadLine(s, Comment(name, value)) == if p.Err? then Err(p.error) else Ok(s.(pending := p.value))
  {
    var marker := "@" + name + "=" + value;
    assert marker[|marker| - 1] == value[|value| - 1] && !IsSpace(marker[0]);
    CommentText(marker);
    assert Comment(name, value) == "# " + marker;
  }

  lemma TypeLine(s: State, typ: string)
    requires IsValidType(typ)
    ensures ReadLine(s, Comment("type", typ)) == Ok(s.(pending := s.pending.(typ := typ)))
  {
    assert |TYPE_STRING| == 6 && |"json"| == 4 && |"list"| == 4 && |"number"| == 6 && |"bool"| == 4;
    assert typ != "" && !IsSpace(typ[|typ| - 1]);
    MarkerLine(s, "type", typ);
    MarkerIsNamed(s.pending, "type", typ);
  }

  /** The markers a metadata field leaves, applied. */
  function WithField(p: Pending, name: string, value: string): Pending {
    match name
    case "description" => p.(description := value)
    case "docs" => p.(docs := value)
    case "example" => p.(example := value)
    case "deprecated" => p.(deprecated := value)
    case _ => p
  }

  lemma FieldLine(isPrint: Printable, s: State, name: string, value: string)
    requires AsciiRules(isPrint) && name in ["description", "docs", "example", "deprecated"]
    ensures ReadLine(s, Comment(name, Quote(isPrint, value))) == Ok(s.(pending := WithField(s.pending, name, value)))
  {
    var q := Quote(isPrint, value);
    assert q[|q| - 1] == '"' && !IsSpace('"');
    assert |"description"| == 11 && |"docs"| == 4 && |"example"| == 7 && |"deprecated"| == 10;
    MarkerLine(s, name, q);
    FieldMarker(isPrint, s.pending, name, value);
  }

  lemma FieldMarker(isPrint: Printable, p: Pending, name: string, value: string)
    requires AsciiRules(isPrint) && name in ["description", "docs", "example", "deprecated"]
    ensures ReadMarker(p, "@" + name + "=" + Quote(isPrint, value)) == Ok(WithField(p, name, value))
  {
    MarkerIsNamed(p, name, Quote(isPrint, value));
    UnquoteUndoesQuote(isPrint, value);
  }

  lemma MarkerIsNamed(p: Pending, name: string, value: string)
    requires '=' !in name
    ensures ReadMarker(p, "@" + name + "=" + value) == ReadNamed(p, name, value)
  {
    MarkerParts(name, value);
  }

  /***** Blocks of lines *****/

  lemma {:induction false} ReadConcat(s: State, a: seq<string>, b: seq<string>)
    ensures var first := ReadLines(s, a); ReadLines(s, a + b) == if first.Err? then first else ReadLines(first.value, b)
    decreases |a|
  {
    if a == [] {
      assert a + b == b;
    } else {
      assert (a + b)[0] == a[0] && (a + b)[1..] == a[1..] + b;
      var next := ReadLine(s, a[0]);
      if next.Ok? { ReadConcat(next.value, a[1..], b); }
    }
  }

  lemma ReadOne(s: State, line: string)
    ensures ReadLines(s, [line]) == ReadLine(s, line)
  {
    assert [line][1..] == [];
  }

  /** What the comment lines of a variable say. */
  function PendingOf(v: Variable): Pending {
    Pending(Typed(v).typ, v.isSecret, v.description, v.docs, v.example, v.deprecated)
  }

  lemma MarkerRead(isPrint: Printable, s: State, name: string, value: string)
    requires AsciiRules(isPrint) && name in ["description", "docs", "example", "deprecated"]
    ensures ReadLines(s, Marker(isPrint, name, value))
            == Ok(if value == "" then s else s.(pending := WithField(s.pending, name, value)))
  {
    if value != "" {
      FieldLine(isPrint, s, name, value);
      ReadOne(s, Comment(name, Quote(isPrint, value)));
    }
  }

  lemma PublicLine(s: State)
    ensures ReadLine(s, "# @public") == Ok(s.(pending := s.pending.(isSecret := false)))
  {
    CommentText("@public");
    assert "# " + "@public" == "# @public";
  }

  function TypeMarkers(v: Variable): seq<string> {
    (if v.isSecret then [] else ["# @public"]) +
    (if v.typ == "" || v.typ == TYPE_STRING then [] else [Comment("type", v.typ)])
  }

  lemma TypeMarkersRead(v: Variable, out: seq<Variable>)
    requires IsValidType(Typed(v).typ)
    ensures ReadLines(State(out, NOTHING), TypeMarkers(v))
            == Ok(State(out, NOTHING.(typ := Typed(v).typ, isSecret := v.isSecret)))
  {
    var s := State(out, NOTHING);
    var a: seq<string> := if v.isSecret then [] else ["# @public"];
    var b: seq<string> := if v.typ == "" || v.typ == TYPE_STRING then [] else [Comment("type", v.typ)];
    ReadConcat(s, a, b);
    PublicLine(s);
    ReadOne(s, "# @public");
    var s1 := s.(pending := NOTHING.(isSecret := v.isSecret));
    assert ReadLines(s, a) == Ok(s1);
    if b != [] {
      TypeLine(s1, v.typ);
      ReadOne(s1, Comment("type", v.typ));
    }
  }

  /** The comment lines of a variable are read as what they were written for. */
  lemma MarkersRead(isPrint: Printable, v: Variable, out: seq<Variable>)
    requires AsciiRules(isPrint) && IsValidType(Typed(v).typ)
    ensures ReadLines(State(out, NOTHING), Markers(isPrint, v)) == Ok(State(out, PendingOf(v)))
  {
    var s0 := State(out, NOTHING);
    var s1 := State(out, NOTHING.(typ := Typed(v).typ, isSecret := v.isSecret));
    var s2 := s1.(pending := s1.pending.(description := v.description));
    var s3 := s2.(pending := s2.pending.(docs := v.docs));
    var s4 := s3.(pending := s3.pending.(example := v.example));
    var t := TypeMarkers(v);
    var d, o := Marker(isPrint, "description", v.description), Marker(isPrint, "docs", v.docs);
    var e, x := Marker(isPrint, "example", v.example), Marker(isPrint, "deprecated", v.deprecated);
    TypeMarkersRead(v, out);
    ReadField(isPrint, s0, t, s1, "description", v.description, s2);
    ReadField(isPrint, s0, t + d, s2, "docs", v.docs, s3);
    ReadField(isPrint, s0, t + d + o, s3, "example", v.example, s4);
    ReadField(isPrint, s0, t + d + o + e, s4, "deprecated", v.deprecated, State(out, PendingOf(v)));
    assert Markers(isPrint, v) == t + d + o + e + x;
  }

  /** One more metadata field after the lines read so far. */
  lemma ReadField(isPrint: Printable, s: State, lines: seq<string>, now: State, name: string, value: string,
                  next: State)
    requires AsciiRules(isPrint) && name in ["description", "docs", "example", "deprecated"]
    requires ReadLines(s, lines) == Ok(now)
    requires next == if value == "" then now else now.(pending := WithField(now.pending, name, value))
    ensures ReadLines(s, lines + Marker(isPrint, name, value)) == Ok(next)
  {
    MarkerRead(isPrint, now, name, value);
    ReadConcat(s, lines, Marker(isPrint, name, value));
  }

  /** A comment line yields no variable. */
  lemma HashLine(s: State, line: string)
    requires line != "" && line[0] == '#'
    ensures ReadLine(s, line).Ok? ==> ReadLine(s, line).value.out == s.out
  {
    TrimLeftStays(line);
    TrimRightConcat("#", line[1..]);
    assert line == "#" + line[1..];
  }

  lemma {:induction false} HashLines(s: State, lines: seq<string>)
    requires forall i | 0 <= i < |lines| :: lines[i] != "" && lines[i][0] == '#'
    ensures ReadLines(s, lines).Ok? ==> ReadLines(s, lines).value.out == s.out
    decreases |lines|
  {
    if lines != [] {
      HashLine(s, lines[0]);
      if ReadLine(s, lines[0]).Ok? { HashLines(ReadLine(s, lines[0]).value, lines[1..]); }
    }
  }

  ghost predicate AllComments(lines: seq<string>) {
    forall i | 0 <= i < |lines| :: lines[i] != "" && lines[i][0] == '#'
  }

  lemma CommentsConcat(a: seq<string>, b: seq<string>)
    requires AllComments(a) && AllComments(b)
    ensures AllComments(a + b)
  {
  }

  lemma TypeMarkersAreComments(v: Variable)
    ensures AllComments(TypeMarkers(v))
  {
  }

  lemma MarkersAreComments(isPrint: Printable, v: Variable)
    ensures AllComments(Markers(isPrint, v))
  {
    var t := TypeMarkers(v);
    var d, o := Marker(isPrint, "description", v.description), Marker(isPrint, "docs", v.docs);
    var e, x := Marker(isPrint, "example", v.example), Marker(isPrint, "deprecated", v.deprecated);
    TypeMarkersAreComments(v);
    CommentsConcat(t, d);
    CommentsConcat(t + d, o);
    CommentsConcat(t + d + o, e);
    CommentsConcat(t + d + o + e, x);
    assert Markers(isPrint, v) == t + d + o + e + x;
  }

  /** The block of a variable yields at most one variable. */
  lemma BlockYieldsOne(isPrint: Printable, s: State, v: Variable)
    ensures var r := ReadLines(s, Markers(isPrint, v) + [KeyLine(v)]); r.Ok? ==>
            |s.out| <= |r.value.out| <= |s.out| + 1 && s.out <= r.value.out
  {
    MarkersAreComments(isPrint, v);
    HashLines(s, Markers(isPrint, v));
    ReadConcat(s, Markers(isPrint, v), [KeyLine(v)]);
    var first := ReadLines(s, Markers(isPrint, v));
    if first.Ok? {
      ReadOne(first.value, KeyLine(v));
      LineYieldsOne(first.value, KeyLine(v));
    }
  }

  lemma LineYieldsOne(s: State, line: string)
    ensures ReadLine(s, line).Ok? ==>
            s.out <= ReadLine(s, line).value.out && |ReadLine(s, line).value.out| <= |s.out| + 1
  {
  }

  lemma ExportStep(isPrint: Printable, s: State, vars: seq<Variable>)
    requires vars != []
    ensures var block := ReadLines(s, Markers(isPrint, vars[0]) + [KeyLine(vars[0])]);
            ReadLines(s, ExportLines(isPrint, vars)) == if block.Err? then block
                else ReadLines(block.value, ExportLines(isPrint, vars[1..]))
  {
    ReadConcat(s, Markers(isPrint, vars[0]) + [KeyLine(vars[0])], ExportLines(isPrint, vars[1..]));
  }

  /** No more variables come out than blocks were written. */
  lemma {:induction false} AtMostAsMany(isPrint: Printable, s: State, vars: seq<Variable>)
    ensures var r := ReadLines(s, ExportLines(isPrint, vars)); r.Ok? ==>
            |r.value.out| <= |s.out| + |vars| && s.out <= r.value.out
    decreases |vars|
  {
    if vars != [] {
      ExportStep(isPrint, s, vars);
      BlockYieldsOne(isPrint, s, vars[0]);
      var block := ReadLines(s, Markers(isPrint, vars[0]) + [KeyLine(vars[0])]);
      if block.Ok? { AtMostAsMany(isPrint, block.value, vars[1..]); }
    }
  }

  /***** Text and lines *****/

  lemma {:induction false} SplitUndoesUnlines(lines: seq<string>)
    requires forall line <- lines :: '\n' !in line
    ensures SplitLines(Unlines(lines)) == lines + [""]
  {
    if lines != [] {
      var rest := Unlines(lines[1..]);
      SplitUndoesUnlines(lines[1..]);
      IndexOfFirst(lines[0], '\n', rest);
      var all := lines[0] + "\n" + rest;
      assert all[..|lines[0]|] == lines[0] && all[|lines[0]| + 1..] == rest;
      assert lines + [""] == [lines[0]] + (lines[1..] + [""]);
    }
  }

  lemma {:induction false} SplitHasNoLineEnds(s: string)
    ensures forall k | 0 <= k < |SplitLines(s)| :: '\n' !in SplitLines(s)[k]
    decreases |s|
  {
    var i := IndexOf(s, '\n');
    if i < |s| {
      var rest := SplitLines(s[i + 1..]);
      SplitHasNoLineEnds(s[i + 1..]);
      assert SplitLines(s) == [s[..i]] + rest;
    } else {
      assert s[..i] == s;
    }
  }

  /** What every import yields: single-line keys and values and valid types. */
  ghost predicate Tidy(v: Variable) {
    '\n' !in v.key && '\n' !in v.value && IsValidType(v.typ)
  }

  ghost predicate TidyState(s: State) {
    (forall i | 0 <= i < |s.out| :: Tidy(s.out[i])) && IsValidType(s.pending.typ)
  }

  lemma PairHasNoLineEnds(text: string)
    requires '\n' !in text && ReadPair(text).Some?
    ensures '\n' !in ReadPair(text).value.0 && '\n' !in ReadPair(text).value.1
  {
    var line := DropExport(text);
    var i := IndexOf(line, '=');
    TrimKeepsOut(line[..i], '\n');
    TrimKeepsOut(line[i + 1..], '\n');
  }

  lemma MarkerKeepsType(p: Pending, marker: string)
    requires IsValidType(p.typ)
    ensures ReadMarker(p, marker).Ok? ==> IsValidType(ReadMarker(p, marker).value.typ)
  {
  }

  lemma LineKeepsTidy(s: State, line: string)
    requires TidyState(s) && '\n' !in line
    ensures ReadLine(s, line).Ok? ==> TidyState(ReadLine(s, line).value)
  {
    var text := TrimSpace(line);
    TrimKeepsOut(line, '\n');
    if text != "" && text[0] == '#' {
      MarkerKeepsType(s.pending, TrimSpace(text[1..]));
    } else if text != "" && ReadPair(text).Some? {
      PairHasNoLineEnds(text);
      assert Tidy(Made(s.pending, ReadPair(text).value));
    }
  }

  lemma {:induction false} LinesKeepTidy(s: State, lines: seq<string>)
    requires TidyState(s) && forall line <- lines :: '\n' !in line
    ensures ReadLines(s, lines).Ok? ==> TidyState(ReadLines(s, lines).value)
    decreases |lines|
  {
    if lines != [] {
      LineKeepsTidy(s, lines[0]);
      if ReadLine(s, lines[0]).Ok? { LinesKeepTidy(ReadLine(s, lines[0]).value, lines[1..]); }
    }
  }

  lemma ParseIsTidy(content: string)
    ensures Parse(content).Ok? ==> forall i | 0 <= i < |Parse(content).value| :: Tidy(Parse(content).value[i])
  {
    SplitHasNoLineEnds(content);
    LinesKeepTidy(State([], NOTHING), SplitLines(content));
  }

  lemma QuoteHasNoLineEnds(isPrint: Printable, s: string)
    requires AsciiRules(isPrint)
    ensures '\n' !in Quote(isPrint, s)
  {
    ShowIsPrintable(isPrint, QUOTED, s);
    assert !isPrint('\n');
  }

  lemma CommentHasNoLineEnds(name: string, value: string)
    requires '\n' !in name && '\n' !in value
    ensures '\n' !in Comment(name, value)
  {
  }

  lemma MarkerHasNoLineEnds(isPrint: Printable, name: string, value: string)
    requires AsciiRules(isPrint) && '\n' !in name
    ensures forall line <- Marker(isPrint, name, value) :: '\n' !in line
  {
    QuoteHasNoLineEnds(isPrint, value);
    CommentHasNoLineEnds(name, Quote(isPrint, value));
  }

  lemma TypeMarkersHaveNoLineEnds(v: Variable)
    requires IsValidType(Typed(v).typ)
    ensures forall line <- TypeMarkers(v) :: '\n' !in line
  {
    CommentHasNoLineEnds("type", v.typ);
  }

  lemma MarkersHaveNoLineEnds(isPrint: Printable, v: Variable)
    requires AsciiRules(isPrint) && IsValidType(Typed(v).typ)
    ensures forall line <- Markers(isPrint, v) :: '\n' !in line
  {
    TypeMarkersHaveNoLineEnds(v);
    MarkerHasNoLineEnds(isPrint, "description", v.description);
    MarkerHasNoLineEnds(isPrint, "docs", v.docs);
    MarkerHasNoLineEnds(isPrint, "example", v.example);
    MarkerHasNoLineEnds(isPrint, "deprecated", v.deprecated);
  }

  lemma {:induction false} ExportHasNoLineEnds(isPrint: Printable, vars: seq<Variable>)
    requires AsciiRules(isPrint) && forall i | 0 <= i < |vars| :: Tidy(Imported(vars[i]))
    ensures forall line <- ExportLines(isPrint, vars) :: '\n' !in line
  {
    if vars != [] {
      assert Tidy(Imported(vars[0]));
      MarkersHaveNoLineEnds(isPrint, vars[0]);
      assert forall i | 0 <= i < |vars[1..]| :: vars[1..][i] == vars[i + 1];
      ExportHasNoLineEnds(isPrint, vars[1..]);
    }
  }

  /** Tidy variables: reading the export is reading the lines that were written. */
  lemma ParseExport(isPrint: Printable, vars: seq<Variable>)
    requires AsciiRules(isPrint) && vars != [] && forall i | 0 <= i < |vars| :: Tidy(Imported(vars[i]))
    ensures var r := ReadLines(State([], NOTHING), ExportLines(isPrint, vars));
            Parse(Export(isPrint, vars)) == if r.Err? then Err(r.error) else if r.value.out == [] then Err(NoPairs)
                else Ok(r.value.out)
  {
    var lines := ExportLines(isPrint, vars);
    ExportHasNoLineEnds(isPrint, vars);
    SplitUndoesUnlines(lines);
    ReadConcat(State([], NOTHING), lines, [""]);
    var r := ReadLines(State([], NOTHING), lines);
    if r.Ok? { ReadOne(r.value, ""); }
  }

  /***** The round trip *****/

  lemma CleanBlock(isPrint: Printable, v: Variable, out: seq<Variable>)
    requires AsciiRules(isPrint) && Clean(v)
    ensures ReadLines(State(out, NOTHING), Markers(isPrint, v) + [KeyLine(v)])
            == Ok(State(out + [Imported(v)], NOTHING))
  {
    var s := State(out, PendingOf(v));
    MarkersRead(isPrint, v, out);
    ReadConcat(State(out, NOTHING), Markers(isPrint, v), [KeyLine(v)]);
    ReadOne(s, KeyLine(v));
    CleanLine(s, v);
    assert Made(PendingOf(v), (v.key, v.value)) == Imported(v);
  }

  lemma ImportedStep(out: seq<Variable>, vars: seq<Variable>)
    requires vars != []
    ensures out + [Imported(vars[0])] + AllImported(vars[1..]) == out + AllImported(vars)
    ensures (out + AllImported(vars))[..|out| + 1] == out + [Imported(vars[0])]
  {
    assert AllImported(vars) == [Imported(vars[0])] + AllImported(vars[1..]);
  }

  lemma {:induction false} CleanExport(isPrint: Printable, vars: seq<Variable>, out: seq<Variable>)
    requires AsciiRules(isPrint) && forall i | 0 <= i < |vars| :: Clean(vars[i])
    ensures ReadLines(State(out, NOTHING), ExportLines(isPrint, vars)) == Ok(State(out + AllImported(vars), NOTHING))
    decreases |vars|
  {
    if vars == [] {
      assert out + AllImported(vars) == out;
    } else {
      CleanBlock(isPrint, vars[0], out);
      ExportStep(isPrint, State(out, NOTHING), vars);
      CleanExport(isPrint, vars[1..], out + [Imported(vars[0])]);
      ImportedStep(out, vars);
    }
  }

  /** A block that reads back as its variable is clean, and leaves nothing pending. */
  lemma OnlyCleanBlocks(isPrint: Printable, v: Variable, out: seq<Variable>)
    requires AsciiRules(isPrint) && Tidy(Imported(v))
    requires var r := ReadLines(State(out, NOTHING), Markers(isPrint, v) + [KeyLine(v)]);
             r.Ok? && r.value.out == out + [Imported(v)]
    ensures Clean(v)
  {
    var s := State(out, PendingOf(v));
    MarkersRead(isPrint, v, out);
    ReadConcat(State(out, NOTHING), Markers(isPrint, v), [KeyLine(v)]);
    ReadOne(s, KeyLine(v));
    assert Made(PendingOf(v), (v.key, v.value)) == Imported(v);
    OneMoreMeansReset(s, KeyLine(v), Imported(v));
    OnlyCleanLines(s, v, PendingOf(v));
  }

  /** A line that yields a variable leaves nothing pending. */
  lemma OneMoreMeansReset(s: State, line: string, v: Variable)
    requires ReadLine(s, line).Ok? && ReadLine(s, line).value.out == s.out + [v]
    ensures ReadLine(s, line) == Ok(State(s.out + [v], NOTHING))
  {
    assert |s.out + [v]| > |s.out|;
  }

  /** If all variables come back, each block yields one, the first block the first variable. */
  lemma FirstBlock(isPrint: Printable, vars: seq<Variable>, out: seq<Variable>)
    requires vars != []
    requires var r := ReadLines(State(out, NOTHING), ExportLines(isPrint, vars));
             r.Ok? && r.value.out == out + AllImported(vars)
    ensures var r := ReadLines(State(out, NOTHING), Markers(isPrint, vars[0]) + [KeyLine(vars[0])]);
            r.Ok? && r.value.out == out + [Imported(vars[0])]
  {
    var s, v := State(out, NOTHING), vars[0];
    ExportStep(isPrint, s, vars);
    BlockYieldsOne(isPrint, s, v);
    var block := ReadLines(s, Markers(isPrint, v) + [KeyLine(v)]).value;
    AtMostAsMany(isPrint, block, vars[1..]);
    assert |block.out| == |out| + 1;
    ImportedStep(out, vars);
  }

  /** The list came back from `out` on. */
  ghost predicate CameBack(isPrint: Printable, vars: seq<Variable>, out: seq<Variable>) {
    var r := ReadLines(State(out, NOTHING), ExportLines(isPrint, vars));
    r.Ok? && r.value.out == out + AllImported(vars)
  }

  lemma FirstIsClean(isPrint: Printable, vars: seq<Variable>, out: seq<Variable>)
    requires AsciiRules(isPrint) && vars != [] && Tidy(Imported(vars[0])) && CameBack(isPrint, vars, out)
    ensures Clean(vars[0]) && CameBack(isPrint, vars[1..], out + [Imported(vars[0])])
  {
    FirstBlock(isPrint, vars, out);
    OnlyCleanBlocks(isPrint, vars[0], out);
    CleanBlock(isPrint, vars[0], out);
    ExportStep(isPrint, State(out, NOTHING), vars);
    ImportedStep(out, vars);
  }

  lemma {:induction false} OnlyCleanExports(isPrint: Printable, vars: seq<Variable>, out: seq<Variable>)
    requires AsciiRules(isPrint) && CameBack(isPrint, vars, out)
    requires forall i | 0 <= i < |vars| :: Tidy(Imported(vars[i]))
    ensures forall i | 0 <= i < |vars| :: Clean(vars[i])
    decreases |vars|
  {
    if vars != [] {
      FirstIsClean(isPrint, vars, out);
      OnlyCleanExports(isPrint, vars[1..], out + [Imported(vars[0])]);
      forall i | 0 <= i < |vars| ensures Clean(vars[i]) {
        if i > 0 { assert vars[1..][i - 1] == vars[i]; }
      }
    }
  }

  lemma CleanRoundTrip(isPrint: Printable, vars: seq<Variable>)
    requires AsciiRules(isPrint) && vars != [] && forall i | 0 <= i < |vars| :: Clean(vars[i])
    ensures Parse(Export(isPrint, vars)) == Ok(AllImported(vars))
  {
    assert forall i | 0 <= i < |vars| :: Clean(vars[i]) ==> Tidy(Imported(vars[i]));
    ParseExport(isPrint, vars);
    CleanExport(isPrint, vars, []);
    assert [] + AllImported(vars) == AllImported(vars) && AllImported(vars) != [];
  }

  lemma RoundTripIsClean(isPrint: Printable, vars: seq<Variable>)
    requires AsciiRules(isPrint) && vars != [] && Parse(Export(isPrint, vars)) == Ok(AllImported(vars))
    ensures forall i | 0 <= i < |vars| :: Clean(vars[i])
  {
    ParseIsTidy(Export(isPrint, vars));
    assert forall i | 0 <= i < |vars| :: AllImported(vars)[i] == Imported(vars[i]);
    ParseExport(isPrint, vars);
    assert [] + AllImported(vars) == AllImported(vars);
    OnlyCleanExports(isPrint, vars, []);
  }

  /** An exported list of variables reads back as that list, without sets, exactly when every variable is clean. */
  lemma RoundTrip(isPrint: Printable, vars: seq<Variable>)
    requires AsciiRules(isPrint) && vars != []
    ensures Parse(Export(isPrint, vars)) == Ok(AllImported(vars)) <==> forall i | 0 <= i < |vars| :: Clean(vars[i])
  {
    if Parse(Export(isPrint, vars)) == Ok(AllImported(vars)) { RoundTripIsClean(isPrint, vars); }
    if forall i | 0 <= i < |vars| :: Clean(vars[i]) { CleanRoundTrip(isPrint, vars); }
  }

  /***** Files written by hand *****/

  /** A blank line ends the reach of the markers above it. */
  lemma BlankLineClears(s: State, v: Variable)
    requires CleanKey(v.key) && CleanValue(v.value)
    ensures ReadLines(s, ["", KeyLine(v)]) == Ok(State(s.out + [Made(NOTHING, (v.key, v.value))], NOTHING))
  {
    var cleared := s.(pending := NOTHING);
    assert ["", KeyLine(v)] == [""] + [KeyLine(v)];
    ReadConcat(s, [""], [KeyLine(v)]);
    ReadOne(s, "");
    ReadOne(cleared, KeyLine(v));
    CleanLine(cleared, v);
  }

  lemma ExportedPair(key: string, value: string)
    requires '=' !in key && TrimSpace(key) != ""
    ensures ReadPair(EXPORT + key + "=" + value) == Some((TrimSpace(key), Unwrap(TrimSpace(value))))
  {
    ExportDropped(key + "=" + value);
    assert EXPORT + key + "=" + value == EXPORT + (key + "=" + value);
    KeyPart(key, value);
  }

  lemma ExportDropped(line: string)
    ensures DropExport(EXPORT + line) == line
  {
    assert (EXPORT + line)[..|EXPORT|] == EXPORT && (EXPORT + line)[|EXPORT|..] == line;
  }

  lemma PrefixedLine(s: State, key: string, value: string)
    requires key != "" && IsTrimmed(key) && '=' !in key && IsTrimmed(value)
    ensures ReadLine(s, EXPORT + key + "=" + value)
            == Ok(State(s.out + [Made(s.pending, (key, Unwrap(value)))], NOTHING))
  {
    var all := EXPORT + key;
    assert |EXPORT| == 7 && all[0] == EXPORT[0] == 'e' && all[|all| - 1] == key[|key| - 1];
    KeyLineTrims(all, value);
    TrimmedStays(value);
    TrimmedStays(key);
    ExportedPair(key, value);
    assert (all + "=" + value)[0] == 'e';
  }

  /** A leading `export ` makes no difference. */
  lemma ExportedLine(s: State, v: Variable)
    requires CleanKey(v.key) && CleanValue(v.value)
    ensures ReadLine(s, "export " + v.key + "=" + v.value)
            == Ok(State(s.out + [Made(s.pending, (v.key, v.value))], NOTHING))
  {
    PrefixedLine(s, v.key, v.value);
  }

  /** Quotes around a value are taken off. */
  lemma QuotedLine(s: State, v: Variable, quote: char)
    requires CleanKey(v.key) && '\n' !in v.value && quote in {'"', '\''}
    ensures ReadLine(s, v.key + "=" + ([quote] + v.value + [quote]))
            == Ok(State(s.out + [Made(s.pending, (v.key, v.value))], NOTHING))
  {
    var value := [quote] + v.value + [quote];
    assert !IsSpace(quote);
    KeyLineTrims(v.key, value);
    TrimmedStays(value);
    TrimmedStays(v.key);
    PairOf(v.key, value);
    assert Unwrap(value) == v.value;
    assert (v.key + "=" + value)[0] == v.key[0];
  }

  /** A line `export =value` reads as the prefix and an empty key. */
  ghost predicate LooksExported(key: string, gap: string) {
    key == "export" && gap != "" && gap[0] == ' '
  }

  /** Blanks around the line, the key and the value make no difference, unless the key then looks like the prefix. */
  lemma SpacedLine(s: State, v: Variable, l: string, a: string, b: string, r: string)
    requires CleanKey(v.key) && CleanValue(v.value) && IsSolid(v.key) && IsSolid(v.value)
    requires IsBlank(l) && IsBlank(a) && IsBlank(b) && IsBlank(r)
    ensures ReadLine(s, l + (v.key + a + "=" + b + v.value) + r)
            == Ok(if LooksExported(v.key, a) then s else State(s.out + [Made(s.pending, (v.key, v.value))], NOTHING))
  {
    var line := v.key + a + "=" + b + v.value;
    assert line == (v.key + a) + "=" + (b + v.value) && line[0] == v.key[0];
    assert line[|line| - 1] == v.value[|v.value| - 1];
    TrimText(l, line, r);
    SpacedPair(v.key, a, b, v.value);
  }

  lemma SpacedPair(key: string, a: string, b: string, value: string)
    requires CleanKey(key) && CleanValue(value) && IsSolid(key) && IsSolid(value) && IsBlank(a) && IsBlank(b)
    ensures ReadPair((key + a) + "=" + (b + value)) == if LooksExported(key, a) then None else Some((key, value))
  {
    assert key + a == "" + key + a && b + value == b + value + "";
    TrimText("", key, a);
    TrimText(b, value, "");
    SpacedKey(key, a);
    if LooksExported(key, a) {
      var gap := a[1..];
      assert (forall c <- gap :: c in a) && '=' !in gap;
      TrimText(gap, "", "");
      assert key + a == EXPORT + gap && EXPORT + gap + "=" + (b + value) == EXPORT + (gap + "=" + (b + value));
      ExportDropped(gap + "=" + (b + value));
      KeyPart(gap, b + value);
    } else {
      PairOf(key + a, b + value);
    }
  }

  lemma SpacedKey(key: string, a: string)
    requires CleanKey(key) && IsBlank(a)
    ensures '=' !in key + a
    ensures EXPORT <= key + a <==> LooksExported(key, a)
  {
    assert |EXPORT| == 7 && |"export"| == 6 && EXPORT[..6] == "export" && EXPORT[6] == ' ';
    assert forall i | 0 <= i < 6 :: EXPORT[i] != ' ' && EXPORT[i] > ' ';
    assert |key| >= 7 ==> (key + a)[..7] == key[..7];
    assert |key| < 6 && a != "" ==> (key + a)[|key|] == a[0] && a[0] in a;
    assert |key| == 6 && a != "" ==> (key + a)[..7] == key + [a[0]] && (key + [a[0]])[..6] == key;
    assert EXPORT <= key + a ==> |key| + |a| >= 7 && (key + a)[..7] == EXPORT;
  }

  /** A type marker names one of the five types, or the import fails. */
  lemma TypeMarkerLine(s: State, typ: string)
    requires typ != "" && !IsSpace(typ[|typ| - 1])
    ensures ReadLine(s, "# @type=" + typ) ==
            if typ in ["string", "json", "list", "number", "bool"] then Ok(s.(pending := s.pending.(typ := typ)))
            else Err(BadMarker(typ))
  {
    assert "# @type=" + typ == Comment("type", typ) && |"type"| == 4;
    MarkerLine(s, "type", typ);
    MarkerIsNamed(s.pending, "type", typ);
  }

  /** A description that is not quoted stands for itself. */
  lemma PlainMarker(s: State, text: string)
    requires text != "" && !IsSpace(text[|text| - 1]) && text[0] != '"'
    ensures ReadLine(s, "# @description=" + text) == Ok(s.(pending := s.pending.(description := text)))
  {
    assert "# @description=" + text == Comment("description", text) && |"description"| == 11;
    MarkerLine(s, "description", text);
    MarkerIsNamed(s.pending, "description", text);
  }

  /** Other comments say nothing. */
  lemma OtherComment(s: State, text: string)
    requires text != "" && IsTrimmed(text) && text[0] != '@'
    ensures ReadLine(s, "# " + text) == Ok(s)
  {
    CommentText(text);
  }

  /***** The exported text *****/

  function MarkerText(isPrint: Printable, name: string, value: string): string {
    if value == "" then "" else "# @" + name + "=" + Quote(isPrint, value) + "\n"
  }

  lemma MarkerIsText(isPrint: Printable, lines: seq<string>, name: string, value: string)
    ensures Unlines(lines + Marker(isPrint, name, value)) == Unlines(lines) + MarkerText(isPrint, name, value)
  {
    var line := Comment(name, Quote(isPrint, value));
    UnlinesConcat(lines, Marker(isPrint, name, value));
    assert Unlines([line]) == line + "\n";
  }

  lemma TypeMarkersText(v: Variable)
    ensures Unlines(TypeMarkers(v)) ==
            (if v.isSecret then "" else "# @public\n") +
            (if v.typ == "" || v.typ == "string" then "" else "# @type=" + v.typ + "\n")
  {
    var a: seq<string> := if v.isSecret then [] else ["# @public"];
    var b: seq<string> := if v.typ == "" || v.typ == TYPE_STRING then [] else [Comment("type", v.typ)];
    UnlinesConcat(a, b);
    assert Unlines(["# @public"]) == "# @public" + "\n" == "# @public\n";
    assert Comment("type", v.typ) == "# @type=" + v.typ;
    assert Unlines([Comment("type", v.typ)]) == "# @type=" + v.typ + "\n";
  }

  lemma MarkersText(isPrint: Printable, v: Variable)
    ensures Unlines(Markers(isPrint, v)) ==
            Unlines(TypeMarkers(v)) + MarkerText(isPrint, "description", v.description) +
            MarkerText(isPrint, "docs", v.docs) + MarkerText(isPrint, "example", v.example) +
            MarkerText(isPrint, "deprecated", v.deprecated)
  {
    var t := TypeMarkers(v);
    var d, o := Marker(isPrint, "description", v.description), Marker(isPrint, "docs", v.docs);
    var e, x := Marker(isPrint, "example", v.example), Marker(isPrint, "deprecated", v.deprecated);
    MarkerIsText(isPrint, t, "description", v.description);
    MarkerIsText(isPrint, t + d, "docs", v.docs);
    MarkerIsText(isPrint, t + d + o, "example", v.example);
    MarkerIsText(isPrint, t + d + o + e, "deprecated", v.deprecated);
    assert Markers(isPrint, v) == t + d + o + e + x;
  }

  /** The file letter by letter: the variables one after the other, a variable as its markers and its line. */
  lemma ExportedText(isPrint: Printable, v: Variable, rest: seq<Variable>)
    ensures Export(isPrint, [v] + rest) ==
            (if v.isSecret then "" else "# @public\n") +
            (if v.typ == "" || v.typ == "string" then "" else "# @type=" + v.typ + "\n") +
            MarkerText(isPrint, "description", v.description) + MarkerText(isPrint, "docs", v.docs) +
            MarkerText(isPrint, "example", v.example) + MarkerText(isPrint, "deprecated", v.deprecated) +
            (v.key + "=" + v.value + "\n") + if rest == [] then "" else Export(isPrint, rest)
  {
    assert ([v] + rest)[0] == v && ([v] + rest)[1..] == rest;
    UnlinesConcat(Markers(isPrint, v) + [KeyLine(v)], ExportLines(isPrint, rest));
    UnlinesConcat(Markers(isPrint, v), [KeyLine(v)]);
    assert Unlines([KeyLine(v)]) == v.key + "=" + v.value + "\n";
    MarkersText(isPrint, v);
    TypeMarkersText(v);
  }
}
