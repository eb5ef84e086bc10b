/**
 Log files that grow while they are read: a buffered line reader, the follower of telemetry files and
 the tail of the daemon's log.
 */
module Streams {
  import opened Base

  /** One read call on a file: what was appended before it, how many bytes it may return, whether it fails. */
  datatype Call = Call(appended: string, limit: nat, fails: bool)

  /** An open file. `calls` is what the next read calls meet; after that the file rests. */
  class File {
    var bytes: string
    var calls: seq<Call>
    /** No read of this file fails. */
    const steady: bool

    constructor (bytes: string, calls: seq<Call>, steady: bool)
      ensures this.bytes == bytes && this.calls == calls && this.steady == steady
    {
      this.bytes, this.calls, this.steady := bytes, calls, steady;
    }

    /** Reads at a position: some bytes, none at the end of the file, or an error. */
    method ReadAt(pos: nat) returns (r: Option<string>)
      requires pos <= |bytes|
      modifies this
      ensures old(bytes) <= bytes
      ensures r.Some? ==> pos + |r.value| <= |bytes| && r.value == bytes[pos..pos + |r.value|]
      ensures r == Some("") ==> pos == |bytes|
      ensures steady ==> r.Some?
      ensures |calls| < old(|calls|) || (calls == old(calls) && bytes == old(bytes))
    {
      var limit := |bytes| - pos;
      if calls != [] {
        var call := calls[0];
        calls := calls[1..];
        bytes := bytes + call.appended;
        if call.fails && !steady { return None; }
        limit := if call.limit == 0 then 1 else call.limit;
      }
      var end := if pos + limit <= |bytes| then pos + limit else |bytes|;
      return Some(bytes[pos..end]);
    }
  }

  datatype End = Line | AtEnd | Failed

  /** Length of the line a text begins with, line end included; 0 when there is no line end. */
  function Cut(s: string): (n: nat)
    ensures n <= |s|
  {
    if s == "" then 0
    else if s[0] == '\n' then 1
    else if Cut(s[1..]) == 0 then 0
    else 1 + Cut(s[1..])
  }

  lemma {:induction false} CutMeans(s: string)
    ensures Cut(s) == 0 <==> '\n' !in s
    ensures Cut(s) > 0 ==> s[Cut(s) - 1] == '\n' && '\n' !in s[..Cut(s) - 1]
  {
    if s != "" && s[0] != '\n' {
      var n := Cut(s[1..]);
      CutMeans(s[1..]);
      assert s == [s[0]] + s[1..];
      if n > 0 { assert s[..n] == [s[0]] + s[1..][..n - 1]; }
    }
  }

  lemma {:induction false} CutConcat(s: string, t: string)
    ensures Cut(s) > 0 ==> Cut(s + t) == Cut(s)
    ensures Cut(s) == 0 ==> Cut(s + t) == if Cut(t) == 0 then 0 else |s| + Cut(t)
  {
    if s == "" {
      assert s + t == t;
    } else {
      assert (s + t)[0] == s[0] && (s + t)[1..] == s[1..] + t;
      CutConcat(s[1..], t);
    }
  }

  lemma {:induction false} CutPrefix(s: string)
    ensures Cut(s) > 0 ==> Cut(s[..Cut(s)]) == Cut(s)
  {
    var n := Cut(s);
    if n > 0 {
      CutConcat(s[..n], s[n..]);
      assert s == s[..n] + s[n..];
      CutMeans(s);
      CutMeans(s[..n]);
      assert s[..n][n - 1] == '\n';
    }
  }

  /** Slices of a text that grew, joined and cut. */
  lemma Slices(before: string, now: string, from: nat, mid: nat, end: nat)
    requires before <= now && from <= mid <= end <= |now|
    ensures now[from..mid] + now[mid..end] == now[from..end]
    ensures mid <= |before| ==> before[from..mid] == now[from..mid]
    ensures from == 0 ==> now[..mid] + now[mid..] == now
    ensures now[from..end][..mid - from] == now[from..mid] && now[from..end][mid - from..] == now[mid..end]
  {
  }

  /** A buffered reader. */
  class Reader {
    const file: File
    var pos: nat
    var buffer: string

    ghost predicate Valid() reads this, file {
      |buffer| <= pos <= |file.bytes| && buffer == file.bytes[pos - |buffer|..pos]
    }

    /** How far the text handed out reaches. */
    ghost function Used(): nat reads this, file requires Valid() { pos - |buffer| }

    constructor (file: File, pos: nat)
      requires pos <= |file.bytes|
      ensures Valid() && this.file == file && this.pos == pos && buffer == ""
    {
      this.file, this.pos, this.buffer := file, pos, "";
    }

    /** One read call. `Line` only says that bytes came. */
    method FillOnce() returns (end: End)
      requires Valid()
      modifies this, file
      ensures Valid() && old(file.bytes) <= file.bytes && Used() == old(Used())
      ensures end == Line <==> pos > old(pos)
      ensures end != Line ==> buffer == old(buffer)
      ensures end == AtEnd ==> pos == |file.bytes|
      ensures |file.calls| < old(|file.calls|) || (file.calls == old(file.calls) && file.bytes == old(file.bytes))
      ensures file.steady ==> end != Failed
    {
      ghost var before, used := file.bytes, Used();
      var more := file.ReadAt(pos);
      assert buffer == file.bytes[used..pos] by { Slices(before, file.bytes, used, pos, pos); }
      if more.None? { return Failed; }
      if more.value == "" { return AtEnd; }
      assert buffer + more.value == file.bytes[used..pos + |more.value|] by {
        Slices(file.bytes, file.bytes, used, pos, pos + |more.value|);
      }
      buffer := buffer + more.value;
      pos := pos + |more.value|;
      return Line;
    }

    /** Reads on until a line is complete. */
    method Fill() returns (end: End)
      requires Valid()
      modifies this, file
      ensures Valid() && old(file.bytes) <= file.bytes && Used() == old(Used())
      ensures end == Line <==> Cut(buffer) > 0
      ensures end == AtEnd ==> pos == |file.bytes|
      ensures |file.calls| < old(|file.calls|) || (file.calls == old(file.calls) && file.bytes == old(file.bytes))
      ensures file.steady ==> end != Failed
    {
      while Cut(buffer) == 0
        invariant Valid() && Used() == old(Used()) && old(file.bytes) <= file.bytes
        invariant |file.calls| < old(|file.calls|) || (file.calls == old(file.calls) && file.bytes == old(file.bytes))
        decreases |file.calls|, |file.bytes| - pos
      {
        end := FillOnce();
        if end != Line { return; }
      }
      return Line;
    }

    /** The next line with its end, or what is left when the file ends or a read fails. */
    method ReadString() returns (chunk: string, end: End)
      requires Valid()
      modifies this, file
      ensures Valid() && old(file.bytes) <= file.bytes
      ensures Used() == old(Used()) + |chunk| && chunk == file.bytes[old(Used())..Used()]
      ensures end == Line ==> IsLine(chunk)
      ensures end != Line ==> Cut(chunk) == 0 && buffer == ""
      ensures end == AtEnd ==> Used() == |file.bytes|
      ensures |file.calls| < old(|file.calls|) || (file.calls == old(file.calls) && file.bytes == old(file.bytes))
      ensures file.steady ==> end != Failed
    {
      end := Fill();
      chunk := Take(if end == Line then Cut(buffer) else |buffer|);
      if end == Line { CutPrefix(chunk + buffer); }
    }

    /** Hands out the first bytes of the buffer. */
    method Take(n: nat) returns (chunk: string)
      requires Valid() && n <= |buffer|
      modifies this
      ensures Valid() && pos == old(pos) && Used() == old(Used()) + n
      ensures chunk == file.bytes[old(Used())..Used()] && chunk + buffer == old(buffer) && |chunk| == n
    {
      Slices(file.bytes, file.bytes, Used(), Used() + n, pos);
      chunk, buffer := buffer[..n], buffer[n..];
    }
  }

  /** One line, with its line end. */
  predicate IsLine(s: string) { s != "" && Cut(s) == |s| }

  /***** Lines of a text *****/

  /** The complete lines of a text, with their line ends. */
  function CompleteLines(s: string): seq<string>
    decreases |s|
  {
    if Cut(s) == 0 then [] else [s[..Cut(s)]] + CompleteLines(s[Cut(s)..])
  }

  /** What follows the last line end. */
  function Rest(s: string): string
    decreases |s|
  {
    if Cut(s) == 0 then s else Rest(s[Cut(s)..])
  }

  function Flat(lines: seq<string>): string {
    if lines == [] then "" else lines[0] + Flat(lines[1..])
  }

  lemma {:induction false} RestHasNoLine(s: string)
    ensures Cut(Rest(s)) == 0
    decreases |s|
  {
    if Cut(s) > 0 { RestHasNoLine(s[Cut(s)..]); }
  }

  lemma {:induction false} LinesAreLines(s: string)
    ensures forall line <- CompleteLines(s) :: IsLine(line)
    decreases |s|
  {
    if Cut(s) > 0 {
      LinesAreLines(s[Cut(s)..]);
      CutPrefix(s);
    }
  }

  /** The lines and the rest are the text, cut at its line ends. */
  lemma {:induction false} LinesAndRest(s: string)
    ensures Flat(CompleteLines(s)) + Rest(s) == s
    decreases |s|
  {
    var n := Cut(s);
    if n > 0 {
      var first, more, rest := s[..n], CompleteLines(s[n..]), Rest(s[n..]);
      LinesAndRest(s[n..]);
      FlatCons(first, more, rest);
      Slices(s, s, 0, n, |s|);
    }
  }

  lemma FlatCons(first: string, more: seq<string>, rest: string)
    ensures Flat([first] + more) + rest == first + (Flat(more) + rest)
  {
    assert ([first] + more)[1..] == more;
  }

  /** Reading on: the rest of what was read goes before what comes. */
  lemma {:induction false} LinesInPieces(s: string, t: string)
    ensures CompleteLines(s + t) == CompleteLines(s) + CompleteLines(Rest(s) + t)
    ensures Rest(s + t) == Rest(Rest(s) + t)
    decreases |s|
  {
    var n := Cut(s);
    if n > 0 {
      CutConcat(s, t);
      assert (s + t)[..n] == s[..n] && (s + t)[n..] == s[n..] + t;
      LinesInPieces(s[n..], t);
    }
  }

  /** A text without line end, continued by a line, is a line; continued without, it stays a rest. */
  lemma OneMoreChunk(s: string, chunk: string)
    requires IsLine(chunk) || Cut(chunk) == 0
    ensures IsLine(chunk) ==>
            && CompleteLines(s + chunk) == CompleteLines(s) + [Rest(s) + chunk]
            && Rest(s + chunk) == "" && IsLine(Rest(s) + chunk)
    ensures Cut(chunk) == 0 ==> CompleteLines(s + chunk) == CompleteLines(s) && Rest(s + chunk) == Rest(s) + chunk
  {
    LinesInPieces(s, chunk);
    RestHasNoLine(s);
    CutConcat(Rest(s), chunk);
    if IsLine(chunk) { LineAlone(Rest(s) + chunk); }
  }

  lemma LineNone()
    ensures CompleteLines("") == [] && Rest("") == ""
  {
  }

  lemma LineAlone(line: string)
    requires IsLine(line)
    ensures CompleteLines(line) == [line] && Rest(line) == ""
  {
    assert line[..|line|] == line && line[|line|..] == "";
    assert CompleteLines("") == [];
  }

  /***** Following a telemetry file *****/

  /** What the directory watch reports about the path; `found` is the file there by then. */
  datatype Notice = Created(found: File?) | Written(found: File?) | Gone

  /** A file that was opened, where reading began and what was taken from it. */
  datatype Handle = Handle(file: File, start: nat, taken: string)

  /** The complete lines of what was taken from each file, one file after the other. */
  ghost function LinesOf(handles: seq<Handle>): seq<string> {
    if handles == [] then []
    else LinesOf(handles[..|handles| - 1]) + CompleteLines(handles[|handles| - 1].taken)
  }

  lemma LinesOfOneMore(handles: seq<Handle>, h: Handle)
    ensures LinesOf(handles + [h]) == LinesOf(handles) + CompleteLines(h.taken)
  {
    assert (handles + [h])[..|handles|] == handles;
  }

  /** Only complete single lines are ever written. */
  lemma {:induction false} LinesOfAreLines(handles: seq<Handle>)
    ensures forall line <- LinesOf(handles) :: IsLine(line)
  {
    if handles != [] {
      LinesOfAreLines(handles[..|handles| - 1]);
      LinesAreLines(handles[|handles| - 1].taken);
    }
  }

  /** What was taken is a stretch of these bytes, from the start position on. */
  ghost predicate StretchOf(bytes: string, h: Handle) {
    h.start + |h.taken| <= |bytes| && h.taken == bytes[h.start..h.start + |h.taken|]
  }

  ghost predicate IsStretch(h: Handle) reads h.file { StretchOf(h.file.bytes, h) }

  /** The file a notice makes the reader open, if it does. */
  function Opens(isOpen: bool, n: Notice): seq<File> {
    if n.Gone? || n.found == null || (n.Written? && isOpen) then [] else [n.found]
  }

  predicate OpenAfter(isOpen: bool, n: Notice) {
    !n.Gone? && (n.found != null || (n.Written? && isOpen))
  }

  /** The same over a sequence of notices. */
  function AllOpens(isOpen: bool, notices: seq<Notice>): seq<File> {
    if notices == [] then []
    else
      var most := notices[..|notices| - 1];
      AllOpens(isOpen, most) + Opens(OpenAtLast(isOpen, most), notices[|notices| - 1])
  }

  predicate OpenAtLast(isOpen: bool, notices: seq<Notice>) {
    if notices == [] then isOpen
    else OpenAfter(OpenAtLast(isOpen, notices[..|notices| - 1]), notices[|notices| - 1])
  }

  /** A file that is only written to is opened once, and read on from then; a created one is always opened. */
  lemma {:induction false} OpensAre(isOpen: bool, notices: seq<Notice>)
    requires notices != [] && forall n <- notices :: !n.Gone? && n.found != null
    ensures (forall n <- notices :: n.Written?) ==>
              AllOpens(isOpen, notices) == if isOpen then [] else [notices[0].found]
    ensures (forall n <- notices :: !n.Written?) ==>
              AllOpens(isOpen, notices) == seq(|notices|, i requires 0 <= i < |notices| => notices[i].found as File)
    ensures OpenAtLast(isOpen, notices)
  {
    var most, last := notices[..|notices| - 1], notices[|notices| - 1];
    assert last in notices && forall n <- most :: n in notices;
    if most != [] {
      OpensAre(isOpen, most);
    }
  }

  /** A file that is gone is not read on, and a notice without a file opens nothing. */
  lemma NothingOpens(isOpen: bool, n: Notice)
    requires n.Gone? || n.found == null
    ensures Opens(isOpen, n) == [] && (n.Gone? ==> !OpenAfter(isOpen, n))
  {
  }

  /**
   How the handles go on: the first `done` are closed for good, an open one may have taken more, and then come
   new handles for exactly these files, each read from its start.
   */
  ghost predicate GoOn(before: seq<Handle>, done: nat, after: seq<Handle>, newly: seq<File>) {
    && done <= |before| && |after| == |before| + |newly|
    && (forall k | 0 <= k < done :: after[k] == before[k])
    && (forall k | done <= k < |before| ::
          after[k].file == before[k].file && after[k].start == before[k].start && before[k].taken <= after[k].taken)
    && (forall k | 0 <= k < |newly| :: after[|before| + k].file == newly[k] && after[|before| + k].start == 0)
  }

  lemma GoOnTwice(a: seq<Handle>, done: nat, b: seq<Handle>, more: nat, c: seq<Handle>, first: seq<File>,
                  second: seq<File>)
    requires GoOn(a, done, b, first) && GoOn(b, more, c, second) && done <= more
    ensures GoOn(a, done, c, first + second)
  {
    forall k | 0 <= k < |first + second|
      ensures c[|a| + k].file == (first + second)[k] && c[|a| + k].start == 0
    {
      if k < |first| {
        assert b[|a| + k].file == first[k] && b[|a| + k].start == 0;
      } else {
        var m := k - |first|;
        assert c[|b| + m].file == second[m] && c[|b| + m].start == 0 && |b| + m == |a| + k;
      }
    }
  }

  lemma Prefixes<T>(s: seq<T>, i: nat)
    requires i < |s|
    ensures s[..i + 1] == s[..i] + [s[i]]
  {
  }

  /** From the handle `first` on, each was taken at least this far. */
  ghost predicate TakenTo(reach: map<File, string>, handles: seq<Handle>, first: nat) {
    forall k | first <= k < |handles| :: handles[k].file in reach && reach[handles[k].file] <= handles[k].taken
  }

  lemma TakenOn(reach: map<File, string>, first: nat, a: seq<Handle>, done: nat, b: seq<Handle>, newly: seq<File>)
    requires GoOn(a, done, b, newly) && first <= |a| && TakenTo(reach, a, first) && TakenTo(reach, b, |a|)
    ensures TakenTo(reach, b, first)
  {
    forall k | first <= k < |a| ensures b[k].file in reach && reach[b[k].file] <= b[k].taken {
      assert b[k].file == a[k].file && a[k].taken <= b[k].taken;
    }
  }

  lemma StretchGrows(before: string, now: string, start: nat, taken: string)
    requires before <= now && start + |taken| <= |before| && taken == before[start..start + |taken|]
    ensures taken == now[start..start + |taken|]
  {
  }

  lemma GoOnSame(handles: seq<Handle>, done: nat)
    requires done <= |handles|
    ensures GoOn(handles, done, handles, [])
  {
  }

  lemma GoOnNew(handles: seq<Handle>, done: nat, h: Handle)
    requires done <= |handles| && h.start == 0
    ensures GoOn(handles, done, handles + [h], [h.file])
  {
  }

  lemma GoOnReading(closed: seq<Handle>, h: Handle, more: string)
    requires h.taken <= more
    ensures GoOn(closed + [h], |closed|, closed + [h.(taken := more)], [])
  {
  }

  ghost function Contents(files: set<File>): map<File, string> reads files {
    map f: File | f in files :: f.bytes
  }

  /** Follows one path. `file` is the open file, if any. */
  class TailReader {
    var reader: Reader?
    var partial: string
    /** The chunks written so far; each write is one chunk. */
    var out: seq<string>
    /** Where reading of the open file began, what was taken from it since, the files closed and the lines of those. */
    ghost var start: nat
    ghost var taken: string
    ghost var closed: seq<Handle>
    ghost var past: seq<string>

    /** What was taken from the open file has been written up to its last line end; the rest is held back. */
    ghost predicate Going() reads this, reader, if reader != null then {reader.file} else {} {
      && reader != null && reader.Valid() && start <= reader.Used()
      && taken == reader.file.bytes[start..reader.Used()]
      && past == LinesOf(closed)
      && out == past + CompleteLines(taken)
      && partial == Rest(taken)
    }

    /** Between two calls nothing is left in the buffer. */
    ghost predicate Valid() reads this, reader, if reader != null then {reader.file} else {} {
      if reader == null then partial == "" && past == out == LinesOf(closed) else Going() && reader.buffer == ""
    }

    /** The files opened so far, the open one last. */
    ghost function Handles(): seq<Handle> reads this, reader {
      closed + if reader == null then [] else [Handle(reader.file, start, taken)]
    }

    /** What was written is, file by file, the complete lines of what was taken. */
    lemma WrittenLines()
      requires Valid()
      ensures out == LinesOf(Handles())
    {
      if reader == null {
        assert closed + [] == closed;
      } else {
        LinesOfOneMore(closed, Handle(reader.file, start, taken));
      }
    }

    constructor ()
      ensures Valid() && reader == null && out == [] && closed == []
    {
      reader, partial, out, start, taken, closed, past := null, "", [], 0, "", [], [];
    }

    /** Drops the open file and what was held back of it. */
    method Close()
      requires Valid()
      modifies this
      ensures Valid() && reader == null && out == old(out) && Handles() == closed == old(Handles())
    {
      WrittenLines();
      closed := Handles();
      reader, partial := null, "";
      past := out;
    }

    /** Opens the file at the path, if there is one, at its start or at its end. */
    method Open(found: File?, atEnd: bool) returns (ok: bool)
      requires Valid()
      modifies this
      ensures Valid() && out == old(out) && ok == (found != null) && closed == old(Handles())
      ensures !ok ==> reader == null
      ensures ok ==>
              && reader != null && fresh(reader) && reader.file == found
              && taken == "" && start == if atEnd then |found.bytes| else 0
    {
      Close();
      if found == null { return false; }
      Attach(found, if atEnd then |found.bytes| else 0);
      return true;
    }

    /** Takes up a file at a position; nothing is open. */
    method Attach(found: File, at: nat)
      requires Valid() && reader == null && at <= |found.bytes|
      modifies this
      ensures Valid() && out == old(out) && closed == old(closed)
      ensures reader != null && fresh(reader) && reader.file == found && taken == "" && start == at
    {
      var r := new Reader(found, at);
      LineNone();
      assert found.bytes[at..at] == "" && out == past + CompleteLines("");
      reader, start, taken := r, at, "";
    }

    /** One round: a line is written, or the rest is put aside. */
    method DrainOne() returns (end: End)
      requires Going()
      modifies this, reader, reader.file
      ensures reader == old(reader) && start == old(start) && past == old(past) && closed == old(closed) && Going()
      ensures old(reader.file.bytes) <= reader.file.bytes && reader.Used() >= old(reader.Used()) && old(taken) <= taken
      ensures end != Line ==> reader.buffer == ""
      ensures end == AtEnd ==> reader.Used() == |reader.file.bytes|
      ensures reader.file.steady ==> end != Failed
      ensures end == Line ==>
              || |reader.file.calls| < old(|reader.file.calls|)
              || (reader.file.calls == old(reader.file.calls) && reader.file.bytes == old(reader.file.bytes)
                  && reader.Used() > old(reader.Used()))
    {
      ghost var before, used := reader.file.bytes, reader.Used();
      var chunk;
      chunk, end := reader.ReadString();
      assert taken + chunk == reader.file.bytes[start..reader.Used()] by {
        Slices(before, reader.file.bytes, start, used, reader.Used());
      }
      Absorb(chunk, end);
    }

    /** A line is written with what was held back before it; anything else is held back. */
    method Absorb(chunk: string, end: End)
      requires out == past + CompleteLines(taken) && partial == Rest(taken)
      requires if end == Line then IsLine(chunk) else Cut(chunk) == 0
      modifies this`out, this`partial, this`taken
      ensures taken == old(taken) + chunk && out == past + CompleteLines(taken) && partial == Rest(taken)
    {
      OneMoreChunk(taken, chunk);
      taken := taken + chunk;
      partial := partial + chunk;
      if end == Line {
        out := out + [partial];
        partial := "";
      }
    }

    /** Writes what is complete by now. What is appended while it runs is read as well. */
    method Drain() returns (end: End)
      requires Valid()
      modifies this, reader, if reader != null then {reader.file} else {}
      ensures Valid() && reader == old(reader) && start == old(start) && past == old(past) && closed == old(closed)
      ensures reader == null ==> out == old(out)
      ensures reader != null ==> old(reader.file.bytes) <= reader.file.bytes && old(taken) <= taken
      ensures reader != null && end == AtEnd ==> taken == reader.file.bytes[start..]
      ensures reader != null && reader.file.steady ==> end == AtEnd
    {
      end := Line;
      if reader == null { return; }
      while end == Line
        invariant reader == old(reader) && start == old(start) && past == old(past) && closed == old(closed) && Going()
        invariant old(reader.file.bytes) <= reader.file.bytes && old(taken) <= taken
        invariant end != Line ==> reader.buffer == ""
        invariant end == AtEnd ==> reader.Used() == |reader.file.bytes|
        invariant reader.file.steady ==> end != Failed
        decreases end == Line, |reader.file.calls|, |reader.file.bytes| - reader.Used()
      {
        end := DrainOne();
      }
    }

    /** Opens the file at the path, if there is one, and writes what is complete in it. */
    method ReadNew(found: File?)
      requires Valid()
      modifies this, found
      ensures Valid() && closed == old(Handles()) && (reader == null <==> found == null)
      ensures found != null ==>
              && fresh(reader) && reader.file == found && start == 0 && old(found.bytes) <= found.bytes
              && (found.steady ==> taken == found.bytes)
    {
      var _ := Open(found, false);
      var _ := Drain();
    }

    /** Writes what has become complete in the open file. */
    method ReadOn()
      requires Valid() && reader != null
      modifies this, reader, reader.file
      ensures Valid() && reader == old(reader) && closed == old(closed) && start == old(start) && old(taken) <= taken
      ensures old(reader.file.bytes) <= reader.file.bytes
      ensures reader.file.steady ==> taken == reader.file.bytes[start..]
    {
      var _ := Drain();
    }

    /** A new file is read from its start, a written one read on, a file that went is dropped. */
    method OnNotice(notice: Notice)
      requires Valid()
      modifies this, reader, if reader != null then {reader.file} else {}, if notice.Gone? then null else notice.found
      ensures Valid() && closed == (if notice.Written? && old(reader != null) then old(closed) else old(Handles()))
      ensures GoOn(old(Handles()), old(|closed|), Handles(), Opens(old(reader != null), notice))
      ensures reader != null <==> OpenAfter(old(reader != null), notice)
      ensures reader != null ==>
              if notice.Written? && old(reader != null) then reader == old(reader)
              else !notice.Gone? && fresh(reader) && reader.file == notice.found
      ensures old(reader) != null ==> old(reader.file.bytes) <= old(reader).file.bytes
      ensures !notice.Gone? && notice.found != null ==> old(notice.found.bytes) <= notice.found.bytes
      ensures reader != null && reader.file.steady ==> taken == reader.file.bytes[start..]
    {
      ghost var handles, done := Handles(), |closed|;
      match notice {
        case Created(found) =>
          ReadNew(found);
          if found == null { GoOnSame(handles, done); } else { GoOnNew(handles, done, Handle(found, 0, taken)); }
        case Written(found) =>
          if reader == null {
            ReadNew(found);
            if found == null { GoOnSame(handles, done); } else { GoOnNew(handles, done, Handle(found, 0, taken)); }
          } else {
            ghost var h := Handle(reader.file, start, taken);
            ReadOn();
            GoOnReading(closed, h, taken);
          }
        case Gone =>
          Close();
          GoOnSame(handles, done);
      }
    }

    /** Every handle is on one of these files, and what was taken through it is a stretch of the file. */
    ghost predicate Grounded(files: set<File>) reads this, reader, files {
      forall k | 0 <= k < |Handles()| :: Handles()[k].file in files && IsStretch(Handles()[k])
    }

    /** One event, and what becomes of the files that matter: they only grow. */
    method OnNoticeAmong(notice: Notice, ghost files: set<File>, ghost were: map<File, string>)
      requires Valid() && (reader != null ==> reader.file in files)
      requires notice.Gone? || notice.found == null || notice.found in files
      requires forall f <- files :: f in were && were[f] == f.bytes
      modifies this, reader, files
      ensures Valid() && closed == (if notice.Written? && old(reader != null) then old(closed) else old(Handles()))
      ensures GoOn(old(Handles()), old(|closed|), Handles(), Opens(old(reader != null), notice))
      ensures reader != null <==> OpenAfter(old(reader != null), notice)
      ensures reader != null ==> reader.file in files && (reader == old(reader) || fresh(reader))
      ensures forall f <- files :: were[f] <= f.bytes
      ensures reader != null && reader.file.steady ==> taken == reader.file.bytes[start..]
    {
      ghost var first := reader;
      OnNotice(notice);
      forall f | f in files ensures were[f] <= f.bytes {
        if (first == null || f != first.file) && (notice.Gone? || f != notice.found) { assert f.bytes == were[f]; }
      }
    }

    /** One event, with the handles on the files that matter. */
    method FollowOne(notice: Notice, ghost files: set<File>)
      requires Valid() && Grounded(files)
      requires notice.Gone? || notice.found == null || notice.found in files
      modifies this, reader, files
      ensures Valid() && Grounded(files) && old(|closed|) <= |closed|
      ensures GoOn(old(Handles()), old(|closed|), Handles(), Opens(old(reader != null), notice))
      ensures reader != null <==> OpenAfter(old(reader != null), notice)
      ensures reader != null ==> reader == old(reader) || fresh(reader)
      ensures forall f <- files :: old(f.bytes) <= f.bytes
      ensures reader != null && reader.file.steady ==> taken == reader.file.bytes[start..]
    {
      assert reader != null ==> Handles()[|closed|].file == reader.file;
      ghost var handles := Handles();
      ghost var were := Contents(files);
      assert forall k | 0 <= k < |handles| :: handles[k].file in files && StretchOf(were[handles[k].file], handles[k]);
      OnNoticeAmong(notice, files, were);
      assert closed <= handles;
      StillGrounded(files, handles, were);
    }

    /** Closed handles stay grounded while files grow. */
    lemma StillGrounded(files: set<File>, handles: seq<Handle>, were: map<File, string>)
      requires Valid() && (reader != null ==> reader.file in files) && closed <= handles
      requires forall f <- files :: f in were && were[f] <= f.bytes
      requires forall k | 0 <= k < |handles| :: handles[k].file in files && StretchOf(were[handles[k].file], handles[k])
      ensures Grounded(files)
    {
      forall k | 0 <= k < |Handles()| ensures Handles()[k].file in files && IsStretch(Handles()[k]) {
        if k < |closed| {
          var h := handles[k];
          assert Handles()[k] == h;
          StretchGrows(were[h.file], h.file.bytes, h.start, h.taken);
        }
      }
    }

    /**
     Where the reader stands after some events that began with these handles, `done` of them closed, and with files
     that reached this far: what it has opened, what it has taken, and that the files only grew.
     */
    ghost predicate Stands(handles: seq<Handle>, done: nat, isOpen: bool, seen: seq<Notice>, files: set<File>,
                           reach: map<File, string>)
      reads this, reader, files
    {
      && Grounded(files) && done <= |closed|
      && GoOn(handles, done, Handles(), AllOpens(isOpen, seen))
      && (reader != null <==> OpenAtLast(isOpen, seen))
      && (forall f <- files :: f in reach && reach[f] <= f.bytes)
      && ((forall f <- files :: f.steady) ==>
            && TakenTo(reach, Handles(), |handles|)
            && (reader != null && reader.file in files && seen != [] ==>
                  start <= |reader.file.bytes| && taken == reader.file.bytes[start..]))
    }

    lemma NewIsTaken(files: set<File>, reach: map<File, string>, were: seq<Handle>, done: nat, newly: seq<File>)
      requires Grounded(files) && GoOn(were, done, Handles(), newly) && |newly| <= 1
      requires forall f <- files :: f in reach && reach[f] <= f.bytes
      requires newly != [] ==> reader != null && start <= |reader.file.bytes| && taken == reader.file.bytes[start..]
      ensures TakenTo(reach, Handles(), |were|)
    {
      if newly != [] {
        assert Handles()[|were| + 0].file == newly[0] && Handles()[|were| + 0].start == 0 && |were| == |closed|;
        assert Handles()[|closed|].file in files;
      }
    }

    lemma StandsAfter(handles: seq<Handle>, done: nat, isOpen: bool, seen: seq<Notice>, notice: Notice,
                      files: set<File>, reach: map<File, string>, were: seq<Handle>, closedThen: nat)
      requires GoOn(handles, done, were, AllOpens(isOpen, seen)) && done <= closedThen <= |closed|
      requires Grounded(files) && (reader != null ==> start <= |reader.file.bytes| && reader.file in files)
      requires GoOn(were, closedThen, Handles(), Opens(OpenAtLast(isOpen, seen), notice))
      requires reader != null <==> OpenAfter(OpenAtLast(isOpen, seen), notice)
      requires forall f <- files :: f in reach && reach[f] <= f.bytes
      requires (forall f <- files :: f.steady) ==> TakenTo(reach, were, |handles|)
      requires reader != null && reader.file.steady ==> taken == reader.file.bytes[start..]
      ensures Stands(handles, done, isOpen, seen + [notice], files, reach)
    {
      var newly := Opens(OpenAtLast(isOpen, seen), notice);
      assert (seen + [notice])[..|seen|] == seen && (seen + [notice])[|seen|] == notice;
      GoOnTwice(handles, done, were, closedThen, Handles(), AllOpens(isOpen, seen), newly);
      if forall f <- files :: f.steady {
        NewIsTaken(files, reach, were, closedThen, newly);
        TakenOn(reach, |handles|, were, closedThen, Handles(), newly);
      }
    }

    lemma StandsAtFirst(files: set<File>)
      requires Grounded(files)
      ensures Stands(Handles(), |closed|, reader != null, [], files, Contents(files))
    {
      GoOnSame(Handles(), |closed|);
    }

    method FollowNext(ghost handles: seq<Handle>, ghost done: nat, ghost isOpen: bool, ghost seen: seq<Notice>,
                      notice: Notice,
                      ghost files: set<File>, ghost reach: map<File, string>)
      requires Valid() && Stands(handles, done, isOpen, seen, files, reach)
      requires notice.Gone? || notice.found == null || notice.found in files
      modifies this, reader, files
      ensures Valid() && Stands(handles, done, isOpen, seen + [notice], files, reach)
      ensures reader != null ==> reader == old(reader) || fresh(reader)
    {
      ghost var were, closedThen, bytes := Handles(), |closed|, Contents(files);
      FollowOne(notice, files);
      assert reader != null ==> Handles()[|closed|].file == reader.file;
      forall f | f in files ensures reach[f] <= f.bytes { assert reach[f] <= bytes[f] <= f.bytes; }
      StandsAfter(handles, done, isOpen, seen, notice, files, reach, were, closedThen);
    }

    /**
     The event loop, over any events and any growth of the files it meets. The files opened are exactly those the
     events call for, each read from its start; from each a stretch is taken, and what is written is the complete
     lines of those stretches, file after file. When no read fails, each new file is taken at least as far as it
     reached when the loop began, and the one open at the end is taken completely.
     */
    method Follow(notices: seq<Notice>, ghost files: set<File>)
      requires Valid() && Grounded(files)
      requires forall n <- notices :: n.Gone? || n.found == null || n.found in files
      modifies this, reader, files
      ensures Valid() && out == LinesOf(Handles())
      ensures Stands(old(Handles()), old(|closed|), old(reader != null), notices, files, old(Contents(files)))
    {
      ghost var handles, done, isOpen, reach := Handles(), |closed|, reader != null, Contents(files);
      StandsAtFirst(files);
      assert notices[..0] == [];
      for i := 0 to |notices|
        invariant Valid() && Stands(handles, done, isOpen, notices[..i], files, reach)
        invariant reader != null ==> reader == old(reader) || fresh(reader)
      {
        Prefixes(notices, i);
        FollowNext(handles, done, isOpen, notices[..i], notices[i], files, reach);
      }
      assert notices[..|notices|] == notices;
      WrittenLines();
    }
  }
}
