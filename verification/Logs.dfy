/** `gridctl logs`: the last lines of the daemon's log, then what is appended to it. */
module Logs {
  import opened Base
  import opened Text
  import opened Streams

  /***** The last lines *****/

  function WithoutEnd(line: string): string {
    if line != "" && line[|line| - 1] == '\n' then line[..|line| - 1] else line
  }

  /** The lines of a text without their ends; a last line may be unfinished. */
  function AllLines(s: string): seq<string> {
    var lines := CompleteLines(s);
    seq(|lines|, i requires 0 <= i < |lines| => WithoutEnd(lines[i])) + if Rest(s) == "" then [] else [Rest(s)]
  }

  /** The last `n` elements, all of them when `n` is not positive. */
  function LastOf(n: int, lines: seq<string>): seq<string> {
    if n <= 0 || |lines| <= n then lines else lines[|lines| - n..]
  }

  lemma LastOfIs(n: int, lines: seq<string>, i: nat)
    ensures |LastOf(n, lines)| == if 0 < n < |lines| then n else |lines|
    ensures i < |LastOf(n, lines)| ==> LastOf(n, lines)[|LastOf(n, lines)| - 1 - i] == lines[|lines| - 1 - i]
  {
  }

  /** The window slides over one more line. */
  function Slide(n: int, window: seq<string>, line: string): seq<string> {
    (if n > 0 && |window| == n then window[1..] else window) + [line]
  }

  lemma SlideIsLast(n: int, lines: seq<string>, line: string)
    ensures Slide(n, LastOf(n, lines), line) == LastOf(n, lines + [line])
  {
  }

  lemma OneMoreOfAll(s: string, chunk: string)
    requires Rest(s) == "" && chunk != "" && (IsLine(chunk) || Cut(chunk) == 0)
    ensures AllLines(s + chunk) == AllLines(s) + [WithoutEnd(chunk)]
    ensures IsLine(chunk) ==> Rest(s + chunk) == ""
  {
    OneMoreChunk(s, chunk);
    assert "" + chunk == chunk;
    CutMeans(chunk);
    if IsLine(chunk) {
      var a, b := CompleteLines(s), CompleteLines(s + chunk);
      assert b == a + [chunk];
    }
  }

  lemma WindowStep(n: int, text: string, chunk: string)
    requires Rest(text) == "" && (IsLine(chunk) || Cut(chunk) == 0)
    ensures LastOf(n, AllLines(text + chunk)) == if chunk == "" then LastOf(n, AllLines(text))
            else Slide(n, LastOf(n, AllLines(text)), WithoutEnd(chunk))
    ensures IsLine(chunk) ==> Rest(text + chunk) == ""
  {
    if chunk == "" {
      assert text + chunk == text;
    } else {
      OneMoreOfAll(text, chunk);
      SlideIsLast(n, AllLines(text), WithoutEnd(chunk));
    }
  }

  /** Reads to the end, keeping the last lines. `text` is what was read. */
  method LastLines(file: File, n: int) returns (ok: bool, lines: seq<string>, ghost text: string)
    modifies file
    ensures old(file.bytes) <= file.bytes
    ensures ok ==> lines == LastOf(n, AllLines(text)) && text == file.bytes
    ensures file.steady ==> ok
  {
    var reader := new Reader(file, 0);
    lines, text := [], "";
    var end := Line;
    LineNone();
    while end == Line
      invariant fresh(reader) && reader.file == file && reader.Valid() && old(file.bytes) <= file.bytes
      invariant text == file.bytes[..reader.Used()]
      invariant lines == LastOf(n, AllLines(text))
      invariant end == Line ==> Rest(text) == ""
      invariant end == AtEnd ==> reader.Used() == |file.bytes|
      invariant file.steady ==> end != Failed
      decreases end == Line, |file.calls|, |file.bytes| - reader.Used()
    {
      ghost var before, used := file.bytes, reader.Used();
      var line;
      line, end := reader.ReadString();
      assert text + line == file.bytes[..reader.Used()] by { Slices(before, file.bytes, 0, used, reader.Used()); }
      WindowStep(n, text, line);
      text := text + line;
      if line != "" {
        if n > 0 && |lines| == n { lines := lines[1..]; }
        lines := lines + [WithoutEnd(line)];
      }
    }
    ok := end == AtEnd;
  }

  /**
   Prints the last lines and reports where following has to begin. The file may grow while it is read;
   `late` is appended after the last read and before the position is taken. `text` is what was read.
   */
  method PrintTail(file: File, n: int, late: string) returns (ok: bool, out: string, offset: nat, ghost text: string)
    modifies file
    ensures old(file.bytes) <= file.bytes
    ensures ok ==> old(file.bytes) <= text && out == Unlines(LastOf(n, AllLines(text)))
    ensures ok ==> file.bytes == text + late && offset == |file.bytes|
    ensures file.steady ==> ok
  {
    var lines;
    out, offset := "", 0;
    ok, lines, text := LastLines(file, n);
    if !ok { return; }
    out := PrintAll(lines);
    file.bytes := file.bytes + late;
    offset := |file.bytes|;
  }

  method PrintAll(lines: seq<string>) returns (out: string)
    ensures out == Unlines(lines)
  {
    out := "";
    for i := 0 to |lines|
      invariant out + Unlines(lines[i..]) == Unlines(lines)
    {
      assert lines[i..][0] == lines[i] && lines[i..][1..] == lines[i + 1..];
      out := out + (lines[i] + "\n");
    }
  }

  /***** Following *****/

  datatype Trouble = NoTrouble | StatFails | SeekFails | CopyFails(copied: nat)

  /** One poll: the file when its size is taken, and when the copy meets its end. */
  datatype Tick = Tick(seen: string, after: string, trouble: Trouble)

  datatype Poll = Poll(out: string, offset: nat, ok: bool)

  function OnTick(offset: nat, t: Tick): Poll {
    var size := |t.seen|;
    if t.trouble == StatFails then Poll("", offset, false)
    else if size < offset then Poll("", size, true)
    else if size == offset then Poll("", offset, true)
    else if t.trouble == SeekFails then Poll("", offset, false)
    else
      var bytes := if offset <= |t.after| then t.after[offset..] else "";
      if t.trouble.CopyFails?
          then Poll(bytes[..if t.trouble.copied < |bytes| then t.trouble.copied else |bytes|], offset, false)
      else Poll(bytes, offset + |bytes|, true)
  }

  function Followed(offset: nat, ticks: seq<Tick>): Poll
    decreases |ticks|
  {
    if ticks == [] then Poll("", offset, true)
    else
      var first := OnTick(offset, ticks[0]);
      if !first.ok then first
      else
        var more := Followed(first.offset, ticks[1..]);
        Poll(first.out + more.out, more.offset, more.ok)
  }

  /** Polls until cancelled, that is to the end of the ticks, or until the file cannot be read. */
  method FollowLog(start: nat, ticks: seq<Tick>) returns (p: Poll)
    ensures p == Followed(start, ticks)
  {
    var out, offset := "", start;
    for i := 0 to |ticks|
      invariant Followed(start, ticks) == var more := Followed(offset, ticks[i..]); more.(out := out + more.out)
    {
      assert ticks[i..][0] == ticks[i] && ticks[i..][1..] == ticks[i + 1..];
      var tick := OnTick(offset, ticks[i]);
      Associative(out, tick.out, Followed(tick.offset, ticks[i + 1..]).out);
      out := out + tick.out;
      if !tick.ok { return Poll(out, tick.offset, false); }
      offset := tick.offset;
    }
    return Poll(out, offset, true);
  }

  /** The file only grows. */
  ghost predicate Grows(content: string, ticks: seq<Tick>)
    decreases |ticks|
  {
    ticks != [] ==> content <= ticks[0].seen <= ticks[0].after && Grows(ticks[0].after, ticks[1..])
  }

  function Latest(content: string, ticks: seq<Tick>): string {
    if ticks == [] then content else ticks[|ticks| - 1].after
  }

  lemma {:induction false} LatestExtends(content: string, ticks: seq<Tick>)
    requires Grows(content, ticks)
    ensures content <= Latest(content, ticks)
    decreases |ticks|
  {
    if ticks != [] { LatestExtends(ticks[0].after, ticks[1..]); }
  }

  /** The output is a stretch of the file from the position on, and the position has moved past it. */
  ghost predicate Once(p: Poll, offset: nat, content: string) {
    && offset + |p.out| <= |content| && p.out == content[offset..offset + |p.out|]
    && (p.ok ==> p.offset == offset + |p.out|)
  }

  lemma TickOnce(content: string, offset: nat, t: Tick)
    requires content <= t.seen <= t.after && offset <= |content|
    ensures Once(OnTick(offset, t), offset, t.after) && (OnTick(offset, t).ok ==> |t.seen| <= OnTick(offset, t).offset)
  {
  }

  lemma OnceThenOnce(first: Poll, more: Poll, offset: nat, content: string, last: string)
    requires Once(first, offset, content) && content <= last
    ensures Once(first, offset, last)
    ensures first.ok && Once(more, first.offset, last) ==>
            Once(Poll(first.out + more.out, more.offset, more.ok), offset, last)
  {
    var mid := offset + |first.out|;
    Slices(content, last, offset, mid, if mid + |more.out| <= |last| then mid + |more.out| else mid);
  }

  /**
   A file that only grows: every byte from the start position on is written exactly once and in order, however
   the file grows during a copy, and a poll that succeeds has written everything present at its beginning.
   */
  lemma {:induction false} EachByteOnce(content: string, offset: nat, ticks: seq<Tick>)
    requires Grows(content, ticks) && offset <= |content|
    ensures Once(Followed(offset, ticks), offset, Latest(content, ticks))
    ensures Followed(offset, ticks).ok && ticks != [] ==> |ticks[|ticks| - 1].seen| <= Followed(offset, ticks).offset
    decreases |ticks|
  {
    if ticks != [] {
      var t, rest := ticks[0], ticks[1..];
      var first := OnTick(offset, t);
      var more := Followed(first.offset, rest);
      TickOnce(content, offset, t);
      LatestExtends(t.after, rest);
      if first.ok { EachByteOnce(t.after, first.offset, rest); }
      OnceThenOnce(first, more, offset, t.after, Latest(content, ticks));
    }
  }

  /** The troubles that keep a poll from copying what is new. */
  ghost predicate Blocks(content: string, t: Tick) {
    t.trouble.StatFails? || (!t.trouble.NoTrouble? && |content| < |t.seen|)
  }

  /** The file as the poll at `i` finds it, before anything is appended. */
  ghost function Previous(content: string, ticks: seq<Tick>, i: nat): string
    requires i < |ticks|
  {
    if i == 0 then content else ticks[i - 1].after
  }

  /** Following a growing file succeeds only if no poll was kept from copying. */
  lemma {:induction false} TroubleIsReported(content: string, offset: nat, ticks: seq<Tick>, i: nat)
    requires Grows(content, ticks) && offset <= |content| && i < |ticks|
    ensures Followed(offset, ticks).ok ==> !Blocks(Previous(content, ticks, i), ticks[i])
    decreases |ticks|
  {
    var t, first := ticks[0], OnTick(offset, ticks[0]);
    TickOnce(content, offset, t);
    if first.ok && i > 0 {
      assert ticks[1..][i - 1] == ticks[i] && (i > 1 ==> ticks[1..][i - 2] == ticks[i - 1]);
      TroubleIsReported(t.after, first.offset, ticks[1..], i - 1);
    }
  }

  /** Without trouble following goes on to the end of the polls. */
  lemma {:induction false} QuietFollow(offset: nat, ticks: seq<Tick>)
    requires forall t <- ticks :: t.trouble == NoTrouble
    ensures Followed(offset, ticks).ok
    decreases |ticks|
  {
    if ticks != [] { QuietFollow(OnTick(offset, ticks[0]).offset, ticks[1..]); }
  }

  /** A file found shorter than the position was truncated: from there on its new bytes are shown, each once. */
  lemma AfterTruncation(offset: nat, short: Tick, ticks: seq<Tick>)
    requires |short.seen| < offset && short.trouble == NoTrouble && short.seen <= short.after
    requires Grows(short.after, ticks)
    ensures Once(Followed(offset, [short] + ticks), |short.seen|, Latest(short.after, ticks))
  {
    assert ([short] + ticks)[0] == short && ([short] + ticks)[1..] == ticks;
    assert OnTick(offset, short) == Poll("", |short.seen|, true);
    EachByteOnce(short.after, |short.seen|, ticks);
    assert Followed(offset, [short] + ticks).out == Followed(|short.seen|, ticks).out;
  }

  /***** Both together *****/

  /** The line end that printing adds to an unfinished last line. */
  function AddedEnd(text: string): string {
    if Rest(text) == "" then "" else "\n"
  }

  lemma {:induction false} PrintedLines(lines: seq<string>)
    requires forall line <- lines :: IsLine(line)
    ensures Unlines(seq(|lines|, i requires 0 <= i < |lines| => WithoutEnd(lines[i]))) == Flat(lines)
  {
    if lines != [] {
      var cut := seq(|lines|, i requires 0 <= i < |lines| => WithoutEnd(lines[i]));
      PrintedLines(lines[1..]);
      assert cut[1..] == seq(|lines[1..]|, i requires 0 <= i < |lines[1..]| => WithoutEnd(lines[1..][i]));
      var line := lines[0];
      assert line in lines;
      CutMeans(line);
      assert line == line[..|line| - 1] + "\n";
    }
  }

  /** All lines, printed, are the text with its last line finished. */
  lemma PrintedIsText(text: string)
    ensures Unlines(AllLines(text)) == text + AddedEnd(text)
  {
    var lines := CompleteLines(text);
    var cut := seq(|lines|, i requires 0 <= i < |lines| => WithoutEnd(lines[i]));
    LinesAreLines(text);
    LinesAndRest(text);
    PrintedLines(lines);
    if Rest(text) == "" {
      assert cut + [] == cut;
    } else {
      UnlinesConcat(cut, [Rest(text)]);
      assert Unlines([Rest(text)]) == Rest(text) + "\n";
      Associative(Flat(lines), Rest(text), "\n");
    }
  }

  /**
   The whole log, printed and then followed while it only grows. What was appended between the last read and
   the moment the position was taken is not shown: the output is the file exactly when that was nothing, or
   just the line end that printing had added to the unfinished last line.
   */
  lemma WholeLog(n: int, text: string, late: string, ticks: seq<Tick>)
    requires n <= 0 && Grows(text + late, ticks)
    ensures var start := |text| + |late|;
            var p, last := Followed(start, ticks), Latest(text + late, ticks);
            && start + |p.out| <= |last| && text + late <= last
            && Unlines(LastOf(n, AllLines(text))) + p.out == text + AddedEnd(text) + last[start..start + |p.out|]
            && (Unlines(LastOf(n, AllLines(text))) + p.out == last[..start + |p.out|] <==> late == AddedEnd(text))
  {
    PrintedIsText(text);
    FollowShows(text, AddedEnd(text), late, ticks);
  }

  lemma FollowShows(text: string, added: string, late: string, ticks: seq<Tick>)
    requires Grows(text + late, ticks)
    ensures Continues(text, added, late, Followed(|text| + |late|, ticks).out, Latest(text + late, ticks))
  {
    var p, last := Followed(|text| + |late|, ticks), Latest(text + late, ticks);
    EachByteOnce(text + late, |text| + |late|, ticks);
    LatestExtends(text + late, ticks);
    OnceContinues(text, added, late, p, last);
  }

  /** The output goes on where the file was when following began, and makes the text the file or not. */
  ghost predicate Continues(text: string, added: string, late: string, out: string, last: string) {
    var start := |text| + |late|;
    && start + |out| <= |last| && text + late <= last && out == last[start..start + |out|]
    && (text + added + out == last[..start + |out|] <==> late == added)
  }

  lemma OnceContinues(text: string, added: string, late: string, p: Poll, last: string)
    requires Once(p, |text| + |late|, last) && text + late <= last
    ensures Continues(text, added, late, p.out, last)
  {
    ShownIsFile(text, added, late, last, p.out);
  }

  /** A text with something added, and a stretch of the file: together a beginning of the file, or not. */
  lemma ShownIsFile(text: string, added: string, late: string, last: string, out: string)
    requires var start := |text| + |late|;
             text + late <= last && start + |out| <= |last| && out == last[start..start + |out|]
    ensures text + added + out == last[..|text| + |late| + |out|] <==> late == added
  {
    Stretch(text, late, last, out);
    Cancel(text, added, late, out);
  }

  lemma Stretch(text: string, late: string, last: string, out: string)
    requires var start := |text| + |late|;
             text + late <= last && start + |out| <= |last| && out == last[start..start + |out|]
    ensures last[..|text| + |late| + |out|] == text + late + out
  {
    var start := |text| + |late|;
    Slices(text + late, last, 0, start, start + |out|);
    assert (text + late)[0..start] == text + late;
  }

  lemma Cancel(a: string, b: string, c: string, d: string)
    ensures a + b + d == a + c + d <==> b == c
  {
    var l, r := a + b + d, a + c + d;
    if l == r {
      assert |b| == |c|;
      assert l[|a|..|a| + |b|] == b && r[|a|..|a| + |c|] == c;
    }
  }

  /** One byte appended in that moment is shown by neither. */
  lemma LateByteIsLost()
    ensures var p := Followed(3, [Tick("a\nb", "a\nb", NoTrouble)]);
            Grows("a\n" + "b", [Tick("a\nb", "a\nb", NoTrouble)])
                && Unlines(LastOf(0, AllLines("a\n"))) + p.out == "a\n"
  {
    var ticks := [Tick("a\nb", "a\nb", NoTrouble)];
    assert "a\n" + "b" == "a\nb" && |"a\nb"| == 3 && ticks[1..] == [];
    assert Followed(3, ticks).out == "";
    assert Cut("a\n"[1..]) == 1;
    assert Cut("a\n") == 2 && "a\n"[2..] == "";
    assert Rest("a\n") == "";
    PrintedIsText("a\n");
  }
}
