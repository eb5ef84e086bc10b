/**
 The files of a release: their names, the checksum file that lists them, and the lookup the upgrade
 command does in it. Contents are compared and listed by their digest, a function of the contents.
 */
module ReleaseFiles {
  import opened Base
  import opened Text

  /** A directory, or the assets of a release. */
  type Files = map<string, string>

  const CHECKSUMS := "checksums.txt"
  const BUNDLE := "provenance.sigstore.json"
  const FRONTEND := "frontend-build.spdx.json"
  const INVENTORY := "release-inventory.json"
  const CASK := "gridctl.rb"
  const CASK_SOURCE := "homebrew/Casks/gridctl.rb"
  const SUBJECTS := "attestation-subjects.txt"

  predicate TagChar(c: char) {
    'A' <= c <= 'Z' || 'a' <= c <= 'z' || '0' <= c <= '9' || c in {'.', '+', '-'}
  }

  /** A version tag: `v`, a digit, then letters, digits and `.+-`. */
  predicate ValidTag(tag: string) {
    |tag| >= 2 && tag[0] == 'v' && '0' <= tag[1] <= '9' && forall i | 2 <= i < |tag| :: TagChar(tag[i])
  }

  predicate IsCommit(sha: string) {
    |sha| == 40 && forall i | 0 <= i < |sha| :: '0' <= sha[i] <= '9' || 'a' <= sha[i] <= 'f'
  }

  function ArchiveName(version: string, system: string, arch: string): string {
    "gridctl_" + version + "_" + system + "_" + arch + ".tar.gz"
  }

  function ArchiveNames(tag: string): seq<string>
    requires ValidTag(tag)
  {
    var v := tag[1..];
    [ArchiveName(v, "darwin", "amd64"), ArchiveName(v, "darwin", "arm64"), ArchiveName(v, "linux", "amd64"),
        ArchiveName(v, "linux", "arm64")]
  }

  function Inventories(names: seq<string>): seq<string> {
    seq(|names|, i requires 0 <= i < |names| => names[i] + ".spdx.json")
  }

  function ExpectedAssets(tag: string): seq<string>
    requires ValidTag(tag)
  {
    var names := ArchiveNames(tag);
    names + Inventories(names) + [FRONTEND, INVENTORY, CASK, CHECKSUMS, BUNDLE]
  }

  /** What the preparation depends on: digests, the check of an inventory and the text of the index. */
  datatype Tools = Tools(digest: string -> string, isInventory: (string, bool) -> bool,
      index: (string, Files) -> string)

  /** Digests are printed in hexadecimal. */
  ghost predicate IsHex(s: string) {
    s != "" && forall i | 0 <= i < |s| :: '0' <= s[i] <= '9' || 'a' <= s[i] <= 'f'
  }

  datatype Problem = BadTag | MissingAsset(name: string) | BadInventory(name: string) | NoCask

  function ChecksumLine(digest: string, name: string): string { digest + "  " + name }

  function ChecksumText(digest: string -> string, files: Files, names: seq<string>): string
    requires forall name <- names :: name in files
  {
    if names == [] then ""
    else ChecksumLine(digest(files[names[0]]), names[0]) + "\n" + ChecksumText(digest, files, names[1..])
  }

  /** The text as `sha256sum` writes it. */
  lemma {:induction false} ChecksumTextIs(digest: string -> string, files: Files, names: seq<string>, last: string)
    requires last in files && forall name <- names :: name in files
    ensures ChecksumText(digest, files, names + [last])
            == ChecksumText(digest, files, names) + (digest(files[last]) + "  " + last + "\n")
  {
    if names == [] {
      assert names + [last] == [last] && [last][1..] == [];
    } else {
      assert (names + [last])[0] == names[0] && (names + [last])[1..] == names[1..] + [last];
      ChecksumTextIs(digest, files, names[1..], last);
    }
  }

  /** The files a build must have left in the directory. */
  function Built(tag: string): seq<string>
    requires ValidTag(tag)
  {
    ArchiveNames(tag) + (Inventories(ArchiveNames(tag)) + [FRONTEND])
  }

  ghost predicate IsBuilt(t: Tools, dist: Files, tag: string)
    requires ValidTag(tag)
  {
    && (forall name <- Built(tag) :: name in dist && dist[name] != "")
    && (forall name <- Inventories(ArchiveNames(tag)) + [FRONTEND] ::
          name in dist && t.isInventory(dist[name], name == FRONTEND))
  }

  ghost predicate IsFirstMissing(dist: Files, names: seq<string>, name: string) {
    exists i | 0 <= i < |names| ::
      && names[i] == name && (name in dist ==> dist[name] == "")
      && forall j | 0 <= j < i :: names[j] in dist && dist[names[j]] != ""
  }

  /** What is reported, and when: the checks come in this order. */
  ghost predicate IsProblem(t: Tools, dist: Files, tag: string, p: Problem) {
    if p.BadTag? then !ValidTag(tag)
    else
      && ValidTag(tag)
      && match p
         case MissingAsset(name) => IsFirstMissing(dist, Built(tag), name)
         case BadInventory(name) =>
           && (forall n <- Built(tag) :: n in dist && dist[n] != "")
           && name in Inventories(ArchiveNames(tag)) + [FRONTEND]
           && name in dist && !t.isInventory(dist[name], name == FRONTEND)
         case _ => IsBuilt(t, dist, tag) && CASK_SOURCE !in dist
  }

  method FirstMissing(dist: Files, names: seq<string>) returns (missing: Option<string>)
    ensures missing.None? <==> forall name <- names :: name in dist && dist[name] != ""
    ensures missing.Some? ==> IsFirstMissing(dist, names, missing.value)
  {
    for i := 0 to |names|
      invariant forall j | 0 <= j < i :: names[j] in dist && dist[names[j]] != ""
    {
      if names[i] !in dist || dist[names[i]] == "" { return Some(names[i]); }
    }
    return None;
  }

  method FirstInvalid(t: Tools, dist: Files, names: seq<string>) returns (invalid: Option<string>)
    requires forall name <- names :: name in dist
    ensures invalid.None? <==> forall name <- names :: t.isInventory(dist[name], name == FRONTEND)
    ensures invalid.Some? ==>
              invalid.value in names && !t.isInventory(dist[invalid.value], invalid.value == FRONTEND)
  {
    for i := 0 to |names|
      invariant forall j | 0 <= j < i :: t.isInventory(dist[names[j]], names[j] == FRONTEND)
    {
      if !t.isInventory(dist[names[i]], names[i] == FRONTEND) { return Some(names[i]); }
    }
    return None;
  }

  method CheckBuilt(t: Tools, dist: Files, tag: string) returns (problem: Option<Problem>)
    requires ValidTag(tag)
    ensures problem.None? <==> IsBuilt(t, dist, tag)
    ensures problem.Some? ==> problem.value != NoCask && IsProblem(t, dist, tag, problem.value)
  {
    var missing := FirstMissing(dist, Built(tag));
    if missing.Some? { return Some(MissingAsset(missing.value)); }
    var inventories := Inventories(ArchiveNames(tag)) + [FRONTEND];
    assert forall name <- inventories :: name in Built(tag);
    var invalid := FirstInvalid(t, dist, inventories);
    if invalid.Some? { return Some(BadInventory(invalid.value)); }
    return None;
  }

  /** What the preparation leaves: the checksum file lists all the other files it hands on, and those are the builds. */
  ghost predicate IsPrepared(t: Tools, dist: Files, tag: string, names: seq<string>, files: Files)
    requires ValidTag(tag)
  {
    && names + [BUNDLE] == ExpectedAssets(tag)
    && (forall name <- names :: name in files)
    && CHECKSUMS in files && files[CHECKSUMS] == ChecksumText(t.digest, files, names[..|names| - 1])
    && IsAdded(t, dist, tag, files)
  }

  /** The other files that are written, and that nothing else changed. */
  ghost predicate IsAdded(t: Tools, dist: Files, tag: string, files: Files)
    requires CHECKSUMS in files
  {
    && CASK in files && CASK_SOURCE in dist && files[CASK] == dist[CASK_SOURCE]
    && INVENTORY in files && files[INVENTORY] == t.index(tag, dist)
    && SUBJECTS in files
    && files[SUBJECTS] == files[CHECKSUMS] + t.digest(files[CHECKSUMS]) + "  checksums.txt" + "\n"
    && (forall name | name in dist && name !in {INVENTORY, CASK, CHECKSUMS, SUBJECTS} ::
          name in files && files[name] == dist[name])
  }

  /** The files that are written: the index, the cask, the checksums and the subjects of the attestation. */
  function Written(t: Tools, dist: Files, tag: string): Files
    requires ValidTag(tag) && CASK_SOURCE in dist && forall name <- Built(tag) :: name in dist
  {
    var some := dist[INVENTORY := t.index(tag, dist)][CASK := dist[CASK_SOURCE]];
    var text := ChecksumText(t.digest, some, Built(tag) + [INVENTORY, CASK]);
    some[CHECKSUMS := text][SUBJECTS := text + ChecksumLine(t.digest(text), CHECKSUMS) + "\n"]
  }

  lemma WrittenIsPrepared(t: Tools, dist: Files, tag: string)
    requires ValidTag(tag) && CASK_SOURCE in dist && forall name <- Built(tag) :: name in dist
    ensures IsPrepared(t, dist, tag, Built(tag) + [INVENTORY, CASK, CHECKSUMS], Written(t, dist, tag))
  {
    var listed := Built(tag) + [INVENTORY, CASK];
    var names := Built(tag) + [INVENTORY, CASK, CHECKSUMS];
    var files := Written(t, dist, tag);
    var some := dist[INVENTORY := t.index(tag, dist)][CASK := dist[CASK_SOURCE]];
    ExpectedAre(tag);
    assert names[..|names| - 1] == listed;
    ListedAreOthers(tag);
    SameText(t.digest, some, files, listed);
    FixedNamesDiffer();
    WrittenIsAdded(dist, t.index(tag, dist), dist[CASK_SOURCE], ChecksumText(t.digest, some, listed), t, tag);
  }

  lemma FixedNamesDiffer()
    ensures Distinct([INVENTORY, CASK, CHECKSUMS, SUBJECTS])
  {
    assert INVENTORY[0] == 'r' && CASK[0] == 'g' && CHECKSUMS[0] == 'c' && SUBJECTS[0] == 'a';
  }

  lemma WrittenIsAdded(dist: Files, index: string, cask: string, text: string, t: Tools, tag: string)
    requires CASK_SOURCE in dist && cask == dist[CASK_SOURCE] && index == t.index(tag, dist)
    requires Distinct([INVENTORY, CASK, CHECKSUMS, SUBJECTS])
    ensures var some := dist[INVENTORY := index][CASK := cask];
            IsAdded(t, dist, tag,
                    some[CHECKSUMS := text][SUBJECTS := text + ChecksumLine(t.digest(text), CHECKSUMS) + "\n"])
  {
    var all := [INVENTORY, CASK, CHECKSUMS, SUBJECTS];
    assert all[0] != all[1] && all[0] != all[2] && all[0] != all[3];
    assert all[1] != all[2] && all[1] != all[3] && all[2] != all[3];
    assert "  " + CHECKSUMS == "  checksums.txt";
    assert text + (t.digest(text) + "  " + CHECKSUMS) + "\n" == text + t.digest(text) + "  checksums.txt" + "\n";
  }

  /** Prepares a directory for release. */
  method Prepare(t: Tools, dist: Files, tag: string) returns (r: Result<seq<string>, Problem>, files: Files)
    ensures r.Ok? <==> ValidTag(tag) && IsBuilt(t, dist, tag) && CASK_SOURCE in dist
    ensures r.Ok? ==> IsPrepared(t, dist, tag, r.value, files)
    ensures r.Err? ==> IsProblem(t, dist, tag, r.error)
    ensures r.Err? ==> files == if r.error == NoCask then dist[INVENTORY := t.index(tag, dist)] else dist
  {
    files := dist;
    if !ValidTag(tag) { return Err(BadTag), files; }
    var problem := CheckBuilt(t, dist, tag);
    if problem.Some? { return Err(problem.value), files; }
    files := files[INVENTORY := t.index(tag, dist)];
    if CASK_SOURCE !in dist { return Err(NoCask), files; }
    files := files[CASK := dist[CASK_SOURCE]];
    var text := ChecksumText(t.digest, files, Built(tag) + [INVENTORY, CASK]);
    files := files[CHECKSUMS := text];
    files := files[SUBJECTS := text + ChecksumLine(t.digest(text), CHECKSUMS) + "\n"];
    WrittenIsPrepared(t, dist, tag);
    return Ok(Built(tag) + [INVENTORY, CASK, CHECKSUMS]), files;
  }

  lemma {:induction false} SameText(digest: string -> string, a: Files, b: Files, names: seq<string>)
    requires forall name <- names :: name in a && name in b && a[name] == b[name]
    ensures ChecksumText(digest, a, names) == ChecksumText(digest, b, names)
  {
    if names != [] { SameText(digest, a, b, names[1..]); }
  }

  /***** Tags *****/

  /** Letters, digits and the three signs of a version. */
  ghost predicate IsVersionText(s: string) {
    forall c <- s :: 'a' <= c <= 'z' || 'A' <= c <= 'Z' || '0' <= c <= '9' || c == '.' || c == '-' || c == '+'
  }

  /** v1.2.3, possibly followed by `-` or `+` and more. */
  ghost predicate IsReleaseTag(tag: string) {
    exists a: nat, b: nat, c: nat, more: string ::
      tag == "v" + Decimal(a) + "." + Decimal(b) + "." + Decimal(c) + more && IsSuffix(more)
  }

  ghost predicate IsSuffix(more: string) {
    more == "" || ((more[0] == '-' || more[0] == '+') && IsVersionText(more))
  }

  lemma VersionTextConcat(a: string, b: string)
    requires IsVersionText(a) && IsVersionText(b)
    ensures IsVersionText(a + b)
  {
    assert forall c <- a + b :: c in a || c in b;
  }

  lemma DigitsAreVersionText(n: nat)
    ensures IsVersionText(Decimal(n)) && '0' <= Decimal(n)[0] <= '9'
  {
  }

  /** What is accepted begins with `v` and a digit and holds nothing but letters, digits and the three signs. */
  lemma ValidTagsAre(tag: string)
    ensures ValidTag(tag) <==> |tag| >= 2 && tag[0] == 'v' && '0' <= tag[1] <= '9' && IsVersionText(tag)
    ensures ' ' in tag || '/' in tag || '_' in tag || '\n' in tag ==> !ValidTag(tag)
  {
    assert forall i | 0 <= i < |tag| :: tag[i] in tag;
  }

  lemma TagIsVersionText(x: string, y: string, z: string, more: string)
    requires IsVersionText(x) && IsVersionText(y) && IsVersionText(z) && IsVersionText(more)
    ensures IsVersionText("v" + x + "." + y + "." + z + more)
  {
    VersionTextConcat("v", x);
    VersionTextConcat("v" + x, ".");
    VersionTextConcat("v" + x + ".", y);
    VersionTextConcat("v" + x + "." + y, ".");
    VersionTextConcat("v" + x + "." + y + ".", z);
    VersionTextConcat("v" + x + "." + y + "." + z, more);
  }

  lemma TagBegins(x: string, y: string, z: string, more: string)
    requires x != ""
    ensures var tag := "v" + x + "." + y + "." + z + more;
            |tag| >= 2 && tag[0] == 'v' && tag[1] == x[0]
  {
    assert ("v" + x)[1] == x[0];
  }

  lemma DottedIsValid(x: string, y: string, z: string, more: string)
    requires x != "" && '0' <= x[0] <= '9'
    requires IsVersionText(x) && IsVersionText(y) && IsVersionText(z) && IsVersionText(more)
    ensures ValidTag("v" + x + "." + y + "." + z + more)
  {
    TagIsVersionText(x, y, z, more);
    TagBegins(x, y, z, more);
    ValidTagsAre("v" + x + "." + y + "." + z + more);
  }

  /** The ordinary version tags are accepted. */
  lemma ReleaseTagsAreValid(tag: string)
    requires IsReleaseTag(tag)
    ensures ValidTag(tag)
  {
    var a: nat, b: nat, c: nat, more: string :|
      tag == "v" + Decimal(a) + "." + Decimal(b) + "." + Decimal(c) + more && IsSuffix(more);
    DigitsAreVersionText(a);
    DigitsAreVersionText(b);
    DigitsAreVersionText(c);
    DottedIsValid(Decimal(a), Decimal(b), Decimal(c), more);
  }

  lemma HexDigits(c: char)
    ensures c in "0123456789abcdef" <==> '0' <= c <= '9' || 'a' <= c <= 'f'
  {
    var digits := "0123456789abcdef";
    if '0' <= c <= '9' {
      assert digits[c as int - '0' as int] == c;
    } else if 'a' <= c <= 'f' {
      assert digits[c as int - 'a' as int + 10] == c;
    }
  }

  lemma CommitsAre(sha: string)
    ensures IsCommit(sha) <==> |sha| == 40 && forall c <- sha :: c in "0123456789abcdef"
  {
    forall c | c in sha ensures c in "0123456789abcdef" <==> '0' <= c <= '9' || 'a' <= c <= 'f' { HexDigits(c); }
    assert forall i | 0 <= i < |sha| :: sha[i] in sha;
  }

  /***** Names *****/

  /** The names spelled out: four archives, an inventory for each, and the five files that come with every release. */
  lemma ExpectedNames(tag: string)
    requires ValidTag(tag)
    ensures var a, b := "gridctl_" + tag[1..] + "_darwin_", "gridctl_" + tag[1..] + "_linux_";
            var names := ExpectedAssets(tag);
            && |names| == 13
            && names[0] == a + "amd64.tar.gz" && names[1] == a + "arm64.tar.gz"
            && names[2] == b + "amd64.tar.gz" && names[3] == b + "arm64.tar.gz"
            && (forall i | 0 <= i < 4 :: names[4 + i] == names[i] + ".spdx.json")
            && names[8] == "frontend-build.spdx.json" && names[9] == "release-inventory.json"
            && names[10] == "gridctl.rb"
            && names[11] == "checksums.txt" && names[12] == "provenance.sigstore.json"
  {
    var v, a, b := tag[1..], "gridctl_" + tag[1..] + "_darwin_", "gridctl_" + tag[1..] + "_linux_";
    assert ArchiveName(v, "darwin", "amd64") == a + "amd64.tar.gz";
    assert ArchiveName(v, "darwin", "arm64") == a + "arm64.tar.gz";
    assert ArchiveName(v, "linux", "amd64") == b + "amd64.tar.gz";
    assert ArchiveName(v, "linux", "arm64") == b + "arm64.tar.gz";
    var names := ArchiveNames(tag);
    assert forall i | 0 <= i < 4 :: Inventories(names)[i] == names[i] + ".spdx.json";
  }

  lemma ExpectedAre(tag: string)
    requires ValidTag(tag)
    ensures Built(tag) + [INVENTORY, CASK, CHECKSUMS] + [BUNDLE] == ExpectedAssets(tag)
  {
  }

  /** An archive name begins with `gridctl_` and ends in `z`. */
  ghost predicate LooksBuilt(name: string, last: char) {
    |name| > 8 && name[0] == 'g' && name[7] == '_' && name[|name| - 1] == last
  }

  lemma ArchiveLooks(v: string, system: string, arch: string)
    ensures LooksBuilt(ArchiveName(v, system, arch), 'z')
            && LooksBuilt(ArchiveName(v, system, arch) + ".spdx.json", 'n')
  {
    assert ArchiveName(v, system, arch) == "gridctl_" + (v + "_" + system + "_" + arch + ".tar.gz");
  }

  /** The archives of one version differ in the letters after it. */
  lemma ArchivesDiffer(v: string)
    ensures Distinct([ArchiveName(v, "darwin", "amd64"), ArchiveName(v, "darwin", "arm64"),
            ArchiveName(v, "linux", "amd64"), ArchiveName(v, "linux", "arm64")])
  {
    var p := "gridctl_" + v;
    var a, b := "_" + "darwin" + "_" + "amd64" + ".tar.gz", "_" + "darwin" + "_" + "arm64" + ".tar.gz";
    var c, d := "_" + "linux" + "_" + "amd64" + ".tar.gz", "_" + "linux" + "_" + "arm64" + ".tar.gz";
    assert a[1] == b[1] == 'd' && c[1] == d[1] == 'l' && a[9] == 'm' && b[9] == 'r' && c[8] == 'm' && d[8] == 'r';
    AfterPrefix(p, a, "darwin", "amd64", v);
    AfterPrefix(p, b, "darwin", "arm64", v);
    AfterPrefix(p, c, "linux", "amd64", v);
    AfterPrefix(p, d, "linux", "arm64", v);
  }

  lemma AfterPrefix(p: string, rest: string, system: string, arch: string, v: string)
    requires p == "gridctl_" + v && rest == "_" + system + "_" + arch + ".tar.gz"
    ensures ArchiveName(v, system, arch) == p + rest
    ensures forall i | 0 <= i < |rest| :: ArchiveName(v, system, arch)[|p| + i] == rest[i]
  {
  }

  lemma InventoriesDiffer(names: seq<string>)
    requires Distinct(names)
    ensures Distinct(Inventories(names))
  {
    var s := Inventories(names);
    forall i, j | 0 <= i < j < |s| ensures s[i] != s[j] {
      assert s[i][..|names[i]|] == names[i] && s[j][..|names[j]|] == names[j];
    }
  }

  /** No two assets of a release share a name, and none is one of the files that stay behind. */
  lemma ListedAreOthers(tag: string)
    requires ValidTag(tag)
    ensures Distinct(ExpectedAssets(tag))
    ensures SUBJECTS !in ExpectedAssets(tag)
  {
    var names := ArchiveNames(tag);
    var more := Inventories(names);
    ArchivesDiffer(tag[1..]);
    InventoriesDiffer(names);
    ArchiveLooks(tag[1..], "darwin", "amd64");
    ArchiveLooks(tag[1..], "darwin", "arm64");
    ArchiveLooks(tag[1..], "linux", "amd64");
    ArchiveLooks(tag[1..], "linux", "arm64");
    FixedDiffer(names, more);
  }

  lemma FixedDiffer(names: seq<string>, more: seq<string>)
    requires Distinct(names) && Distinct(more)
    requires forall i | 0 <= i < |names| :: LooksBuilt(names[i], 'z')
    requires forall i | 0 <= i < |more| :: LooksBuilt(more[i], 'n')
    ensures Distinct(names + more + [FRONTEND, INVENTORY, CASK, CHECKSUMS, BUNDLE])
    ensures SUBJECTS !in names + more + [FRONTEND, INVENTORY, CASK, CHECKSUMS, BUNDLE]
  {
    assert FRONTEND[0] == 'f' && INVENTORY[0] == 'r' && CASK[0] == 'g' && CASK[7] == '.' && CHECKSUMS[0] == 'c'
        && BUNDLE[0] == 'p';
    assert SUBJECTS[0] == 'a';
  }

  /***** The checksum file, read by the upgrade command *****/

  function Lookup(lines: seq<string>, name: string): Option<string> {
    if lines == [] then None
    else
      var fields := Fields(lines[0]);
      if |fields| >= 2 && fields[1] == name then Some(fields[0]) else Lookup(lines[1..], name)
  }

  method LookupChecksum(text: string, name: string) returns (digest: Option<string>)
    ensures digest == Lookup(ScannedLines(text), name)
  {
    var lines := ScannedLines(text);
    for i := 0 to |lines|
      invariant Lookup(lines, name) == Lookup(lines[i..], name)
    {
      assert lines[i..][0] == lines[i] && lines[i..][1..] == lines[i + 1..];
      var fields := Fields(lines[i]);
      if |fields| >= 2 && fields[1] == name { return Some(fields[0]); }
    }
    return None;
  }

  /** A name that stays one word in the checksum file. */
  predicate IsWord(s: string) { s != "" && !HasSpace(s) }

  lemma HexIsWord(s: string)
    requires IsHex(s)
    ensures IsWord(s)
  {
  }

  lemma LineOf(digest: string, name: string)
    requires IsWord(digest) && IsWord(name)
    ensures var line := ChecksumLine(digest, name);
            Fields(line) == [digest, name] && '\n' !in line && DropCarriageReturn(line) == line
  {
    TwoFields(digest, name);
    var line := ChecksumLine(digest, name);
    assert forall i | 0 <= i < |line| :: line[i] == ' ' || line[i] in digest || line[i] in name;
    assert IsSpace('\n') && IsSpace('\r');
    assert line[|line| - 1] == name[|name| - 1];
  }

  /** Looking a name up in the checksum file gives its digest, for every listed name and for no other. */
  lemma {:induction false} LookupListed(digest: string -> string, files: Files, names: seq<string>, name: string)
    requires forall n <- names :: n in files && IsWord(n)
    requires forall content :: IsHex(digest(content))
    ensures Lookup(ScannedLines(ChecksumText(digest, files, names)), name)
            == if name in names then Some(digest(files[name])) else None
  {
    if names != [] {
      var first, rest := names[0], names[1..];
      var d := digest(files[first]);
      HexIsWord(d);
      LineOf(d, first);
      ScannedLine(ChecksumLine(d, first), ChecksumText(digest, files, rest));
      LookupListed(digest, files, rest, name);
      var lines := ScannedLines(ChecksumText(digest, files, names));
      assert lines[0] == ChecksumLine(d, first) && lines[1..] == ScannedLines(ChecksumText(digest, files, rest));
      assert name in names <==> name == first || name in rest;
    }
  }

  lemma WordConcat(a: string, b: string)
    requires IsWord(a) && IsWord(b)
    ensures IsWord(a + b)
  {
  }

  lemma ArchiveIsWord(tag: string, system: string, arch: string)
    requires ValidTag(tag) && IsWord(system) && IsWord(arch)
    ensures IsWord(ArchiveName(tag[1..], system, arch)) && IsWord(ArchiveName(tag[1..], system, arch) + ".spdx.json")
  {
    var v := tag[1..];
    assert forall i | 0 <= i < |v| :: v[i] == tag[i + 1];
    WordConcat("gridctl_", v);
    WordConcat("gridctl_" + v, "_");
    WordConcat("gridctl_" + v + "_", system);
    WordConcat("gridctl_" + v + "_" + system, "_");
    WordConcat("gridctl_" + v + "_" + system + "_", arch);
    WordConcat("gridctl_" + v + "_" + system + "_" + arch, ".tar.gz");
    WordConcat(ArchiveName(v, system, arch), ".spdx.json");
  }

  lemma FixedAreWords()
    ensures IsWord(FRONTEND) && IsWord(INVENTORY) && IsWord(CASK) && IsWord(CHECKSUMS) && IsWord(BUNDLE)
  {
    GraphicIsWord(FRONTEND);
    GraphicIsWord(INVENTORY);
    GraphicIsWord(CASK);
    GraphicIsWord(CHECKSUMS);
    GraphicIsWord(BUNDLE);
  }

  lemma GraphicIsWord(s: string)
    requires s != "" && forall i | 0 <= i < |s| :: '!' <= s[i] <= '~'
    ensures IsWord(s)
  {
  }

  lemma AssetsAreWords(tag: string)
    requires ValidTag(tag)
    ensures forall i | 0 <= i < |ExpectedAssets(tag)| :: IsWord(ExpectedAssets(tag)[i])
  {
    var names := ArchiveNames(tag);
    ArchiveIsWord(tag, "darwin", "amd64");
    ArchiveIsWord(tag, "darwin", "arm64");
    ArchiveIsWord(tag, "linux", "amd64");
    ArchiveIsWord(tag, "linux", "arm64");
    FixedAreWords();
    WordsConcat(names, Inventories(names), [FRONTEND, INVENTORY, CASK, CHECKSUMS, BUNDLE]);
  }

  lemma WordsConcat(a: seq<string>, b: seq<string>, c: seq<string>)
    requires forall i | 0 <= i < |a| :: IsWord(a[i])
    requires forall i | 0 <= i < |b| :: IsWord(b[i])
    requires forall i | 0 <= i < |c| :: IsWord(c[i])
    ensures forall i | 0 <= i < |a + b + c| :: IsWord((a + b + c)[i])
  {
  }

  /** A tag without its leading `v`, as the upgrade command cuts it off. */
  function Version(tag: string): string {
    if |tag| > 0 && tag[0] == 'v' then tag[1..] else tag
  }

  /** The archive and the checksum file the upgrade command asks for. */
  function UpgradeArchive(tag: string, system: string, arch: string): string {
    "gridctl_" + Version(tag) + "_" + system + "_" + arch + ".tar.gz"
  }

  const UPGRADE_CHECKSUMS := "checksums.txt"

  /** The upgrade command finds the digest of every released archive in the checksums of the release. */
  lemma UpgradeFindsDigest(t: Tools, dist: Files, tag: string, names: seq<string>, files: Files, system: string,
                           arch: string)
    requires ValidTag(tag) && IsPrepared(t, dist, tag, names, files)
    requires forall content :: IsHex(t.digest(content))
    requires system in ["darwin", "linux"] && arch in ["amd64", "arm64"]
    ensures var archive := UpgradeArchive(tag, system, arch);
            && archive in names && archive in files && UPGRADE_CHECKSUMS in names && UPGRADE_CHECKSUMS in files
            && Lookup(ScannedLines(files[UPGRADE_CHECKSUMS]), archive) == Some(t.digest(files[archive]))
  {
    var archive := UpgradeArchive(tag, system, arch);
    assert CHECKSUMS == ExpectedAssets(tag)[11] == names[11];
    var listed := names[..|names| - 1];
    AssetsAreWords(tag);
    var k := (if system == "darwin" then 0 else 2) + if arch == "amd64" then 0 else 1;
    assert archive == ArchiveNames(tag)[k];
    assert |names| == 12 && listed == ExpectedAssets(tag)[..11] && listed[k] == archive;
    assert forall i | 0 <= i < 11 :: listed[i] == ExpectedAssets(tag)[i] && listed[i] == names[i];
    LookupListed(t.digest, files, listed, archive);
  }
}
