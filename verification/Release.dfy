/**
 The release commands: upload to a draft, publish it, advance the tap. Each command is a sequence of
 remote calls. A call may fail before or after it took effect, it may be answered with other bytes than
 asked for, and the tags of the repository may move at any call.
 */
module Release {
  import opened Base
  import opened ReleaseFiles

  datatype Release = Release(draft: bool, assets: Files)

  /** The remote side. `immutable` is the repository setting that freezes published releases. */
  datatype Remote = Remote(releases: map<string, Release>, tags: map<string, string>, immutable: bool,
      tap: Option<string>)

  datatype Outcome = Fine | FailsBefore | FailsAfter | Garbled(bytes: string)

  /** How one call goes, and the tags and the setting at that moment. */
  datatype Reply = Reply(outcome: Outcome, tags: map<string, string>, immutable: bool)

  datatype Missing = NotFound | Unavailable

  /** `attested(tag, sha, file, bundle)`: the file is what the release workflow built for that tag and commit. */
  type Attestation = (string, string, string, string) -> bool

  /** Nothing but tags and settings changed. */
  ghost predicate OnlyMoved(a: Remote, b: Remote) {
    a.releases == b.releases && a.tap == b.tap
  }

  predicate HasExpectedNames(tag: string, assets: Files)
    requires ValidTag(tag)
  {
    assets.Keys == set name | name in ExpectedAssets(tag)
  }

  ghost predicate Attested(attested: Attestation, tag: string, sha: string, dir: Files)
    requires ValidTag(tag)
  {
    && BUNDLE in dir
    && forall name <- ExpectedAssets(tag) | name != BUNDLE :: name in dir && attested(tag, sha, dir[name], dir[BUNDLE])
  }

  /***** What the commands may do *****/

  /**
   An upload touches one draft. What is there stays, up to the checksums; a finished upload leaves the local files.
   */
  ghost predicate Uploaded(tag: string, local: Files, before: Remote, after: Remote, ok: bool) {
    && after.tap == before.tap
    && (ok ==> ValidTag(tag))
    && (after.releases != before.releases || ok ==>
          && ValidTag(tag) && tag in before.releases && before.releases[tag].draft
          && tag in after.releases && after.releases == before.releases[tag := after.releases[tag]]
          && after.releases[tag].draft
          && AssetsKept(ExpectedAssets(tag), before.releases[tag].assets, after.releases[tag].assets)
          && (ok ==> forall name <- ExpectedAssets(tag) :: HoldsFile(after.releases[tag].assets, local, name)))
  }

  ghost predicate HoldsFile(assets: Files, local: Files, name: string) {
    name in local && local[name] != "" && name in assets && assets[name] == local[name]
  }

  ghost predicate AssetsKept(names: seq<string>, before: Files, after: Files) {
    && (forall name | name in before && name != CHECKSUMS :: name in after && after[name] == before[name])
    && (forall name | name !in names :: name in after <==> name in before)
  }

  /** The release is public, or the draft is, with exactly the expected names. */
  ghost predicate Complete(tag: string, draft: bool, r: Remote) {
    ValidTag(tag) && tag in r.releases && r.releases[tag].draft == draft
        && HasExpectedNames(tag, r.releases[tag].assets)
  }

  /**
   What a publish command saw: the files it checked before it published, the remote when it last resolved the tag,
   and the remote as the publishing call answered.
   */
  datatype Evidence = Evidence(seen: Files, resolved: Remote, answered: Remote)

  /** A finished download: the release, whether as a public one, and the directory afterwards. */
  datatype Serving = Serving(tag: string, public: bool, dir: Files)

  /** Every expected file was downloaded: it is the asset of the release, or somebody served forged bytes. */
  ghost predicate ServedFrom(tag: string, forged: set<string>, assets: Files, dir: Files)
    requires ValidTag(tag)
  {
    forall name <- ExpectedAssets(tag) ::
      name in dir && name in assets && (dir[name] == assets[name] || dir[name] in forged)
  }

  /** No forged file passes the attestation. */
  ghost predicate Unforgeable(c: Attestation, tag: string, sha: string, forged: set<string>) {
    forall file, bundle | file in forged :: !c(tag, sha, file, bundle)
  }

  /**
   A release becomes public only complete, with its assets downloaded and attested and its tag still at the commit.
   In immutable mode the command succeeds only if the release was frozen by then.
   */
  ghost predicate Published(c: Attestation, forged: set<string>, tag: string, sha: string, mode: string,
                            before: Remote, after: Remote, ok: bool, e: Evidence) {
    && after.tap == before.tap
    && (ok ==> e.answered.releases == after.releases && (mode == "immutable" ==> e.answered.immutable))
    && (after.releases != before.releases || ok ==>
          && Complete(tag, true, before)
          && after.releases == before.releases[tag := before.releases[tag].(draft := false)]
          && ServedFrom(tag, forged, before.releases[tag].assets, e.seen) && Attested(c, tag, sha, e.seen)
          && IsCommit(sha) && OnlyMoved(before, e.resolved) && tag in e.resolved.tags && e.resolved.tags[tag] == sha)
  }

  /**
   The tap moves only to a public and complete release, with its assets downloaded and attested; a finished command
   leaves its cask there.
   */
  ghost predicate Tapped(c: Attestation, forged: set<string>, tag: string, sha: string,
                         before: Remote, after: Remote, ok: bool, dir: Files) {
    && after.releases == before.releases
    && (after.tap != before.tap || ok ==>
          && Complete(tag, false, before)
          && ServedFrom(tag, forged, before.releases[tag].assets, dir) && Attested(c, tag, sha, dir) && CASK in dir
          && after.tap.Some?
          && (after.tap == Some(dir[CASK]) || (!ok && after.tap.value in forged)))
  }

  /***** When the commands succeed, if every call goes well *****/

  ghost predicate Clear(tag: string, sha: string, mode: string, r: Remote) {
    && ValidTag(tag) && IsCommit(sha) && tag in r.tags && r.tags[tag] == sha
    && (mode == "mutable" || (mode == "immutable" && r.immutable))
    && (tag in r.releases ==> r.releases[tag].draft)
  }

  /** The tag is there and stands at a commit, a number of 40 hexadecimal digits. */
  ghost predicate HoldsCommit(r: Remote, tag: string, sha: string) {
    tag in r.tags && r.tags[tag] == sha && |sha| == 40 && forall c <- sha :: c in "0123456789abcdef"
  }

  /** Every expected file is there locally, and the draft holds nothing else under its name, the checksums excepted. */
  ghost predicate CanUpload(tag: string, local: Files, r: Remote) {
    && ValidTag(tag) && tag in r.releases && r.releases[tag].draft
    && forall name <- ExpectedAssets(tag) :: UploadFits(name, local, r.releases[tag].assets)
  }

  ghost predicate UploadFits(name: string, local: Files, assets: Files) {
    name in local && local[name] != "" && (name in assets && name != CHECKSUMS ==> assets[name] == local[name])
  }

  ghost predicate CanShip(c: Attestation, tag: string, sha: string, draft: bool, r: Remote) {
    Complete(tag, draft, r) && Attested(c, tag, sha, r.releases[tag].assets)
  }

  /***** The commands *****/

  class Hub {
    var remote: Remote
    var script: seq<Reply>
    /** The downloads that finished. */
    ghost var served: seq<Serving>
    /** How many calls failed. */
    ghost var failures: nat
    const attested: Attestation
    /** The bytes somebody may serve or store in place of the right ones. */
    const forged: set<string>
    /** Every call goes well and nothing moves meanwhile. */
    const reliable: bool

    constructor (remote: Remote, script: seq<Reply>, attested: Attestation, forged: set<string>, reliable: bool)
      ensures this.remote == remote && this.script == script && this.attested == attested
      ensures this.forged == forged && this.reliable == reliable && served == [] && failures == 0
    {
      served, failures := [], 0;
      this.remote, this.script, this.attested, this.forged, this.reliable := remote, script, attested, forged, reliable;
    }

    /** The next call goes as the script says; past its end everything fails. */
    method Next() returns (o: Outcome)
      modifies this
      ensures OnlyMoved(old(remote), remote) && served == old(served)
      ensures o.Garbled? ==> o.bytes in forged
      ensures failures == old(failures) + if o == FailsBefore || o == FailsAfter then 1 else 0
      ensures reliable ==> o == Fine && remote == old(remote)
    {
      if reliable { return Fine; }
      if script == [] || (script[0].outcome.Garbled? && script[0].outcome.bytes !in forged) {
        failures := failures + 1;
        return FailsBefore;
      }
      o := script[0].outcome;
      if o == FailsBefore || o == FailsAfter { failures := failures + 1; }
      remote := remote.(tags := script[0].tags, immutable := script[0].immutable);
      script := script[1..];
    }

    method Record(tag: string) returns (r: Result<Release, Missing>)
      modifies this
      ensures OnlyMoved(old(remote), remote) && served == old(served)
      ensures r.Ok? ==> tag in remote.releases && r.value == remote.releases[tag]
      ensures r == Err(NotFound) ==> tag !in remote.releases
      ensures r != Err(Unavailable) ==> failures == old(failures)
      ensures reliable ==> remote == old(remote) && r == if tag in remote.releases then Ok(remote.releases[tag])
              else Err(NotFound)
    {
      var o := Next();
      if o != Fine { return Err(Unavailable); }
      if tag !in remote.releases { return Err(NotFound); }
      return Ok(remote.releases[tag]);
    }

    /** The tag names a version and points at the commit, as of this call. */
    method Source(tag: string, sha: string) returns (ok: bool)
      modifies this
      ensures ok ==> failures == old(failures)
      ensures OnlyMoved(old(remote), remote) && served == old(served)
      ensures ok ==> ValidTag(tag) && IsCommit(sha) && tag in remote.tags && remote.tags[tag] == sha
      ensures reliable ==> remote == old(remote)
      ensures reliable ==> ok == (ValidTag(tag) && IsCommit(sha) && tag in remote.tags && remote.tags[tag] == sha)
    {
      if !ValidTag(tag) || !IsCommit(sha) { return false; }
      var o := Next();
      return o == Fine && tag in remote.tags && remote.tags[tag] == sha;
    }

    /** The checks before anything is built: the ordinary tag of a commit passes unless its release is public. */
    method Preflight(tag: string, sha: string, mode: string) returns (ok: bool)
      modifies this
      ensures ok ==> failures == old(failures)
      ensures OnlyMoved(old(remote), remote) && served == old(served)
      ensures ok ==>
              && ValidTag(tag) && IsCommit(sha) && mode in ["mutable", "immutable"]
              && (tag in remote.releases ==> remote.releases[tag].draft)
      ensures reliable ==> remote == old(remote) && ok == Clear(tag, sha, mode, remote)
      ensures reliable && IsReleaseTag(tag) && HoldsCommit(remote, tag, sha) && mode == "mutable" ==>
              ok == (tag !in remote.releases || remote.releases[tag].draft)
    {
      if IsReleaseTag(tag) { ReleaseTagsAreValid(tag); }
      CommitsAre(sha);
      ok := Source(tag, sha);
      if !ok || mode !in ["mutable", "immutable"] { return false; }
      if mode == "immutable" {
        var o := Next();
        if o != Fine || !remote.immutable { return false; }
      }
      var record := Record(tag);
      if record == Err(NotFound) { return true; }
      return record.Ok? && record.value.draft;
    }

    /** One asset as served: the stored bytes, unless somebody garbles them. */
    method Fetch(bytes: string) returns (r: Option<string>)
      modifies this
      ensures OnlyMoved(old(remote), remote) && served == old(served)
      ensures r.Some? ==> (r.value == bytes || r.value in forged) && failures == old(failures)
      ensures reliable ==> remote == old(remote) && r == Some(bytes)
    {
      var o := Next();
      match o {
        case Fine => return Some(bytes);
        case Garbled(other) => return Some(other);
        case _ => return None;
      }
    }

    method FetchAll(assets: Files, names: seq<string>, local: Files) returns (ok: bool, dir: Files)
      requires forall name <- names :: name in assets
      modifies this
      ensures ok ==> failures == old(failures)
      ensures OnlyMoved(old(remote), remote) && served == old(served)
      ensures ok ==> forall name <- names ::
                name in dir && (dir[name] == assets[name] || (!reliable && dir[name] in forged))
      ensures reliable ==> ok && remote == old(remote)
    {
      dir := local;
      for i := 0 to |names|
        invariant OnlyMoved(old(remote), remote) && served == old(served) && failures == old(failures)
        invariant forall j | 0 <= j < i ::
            names[j] in dir && (dir[names[j]] == assets[names[j]] || (!reliable && dir[names[j]] in forged))
        invariant reliable ==> remote == old(remote)
      {
        var bytes := Fetch(assets[names[i]]);
        if bytes.None? { return false, dir; }
        dir := dir[names[i] := bytes.value];
      }
      return true, dir;
    }

    /** Downloads all assets of a complete release into the directory. */
    method Download(tag: string, public: bool, local: Files) returns (ok: bool, dir: Files)
      modifies this
      ensures ok ==> failures == old(failures)
      ensures OnlyMoved(old(remote), remote)
      ensures served == if ok then old(served) + [Serving(tag, public, dir)] else old(served)
      ensures ok ==> Complete(tag, !public, remote)
      ensures ok ==> ServedFrom(tag, if reliable then {} else forged, remote.releases[tag].assets, dir)
      ensures reliable ==> remote == old(remote) && ok == Complete(tag, !public, remote)
    {
      var record := Record(tag);
      if record.Err? || record.value.draft == public { return false, local; }
      if !ValidTag(tag) || !HasExpectedNames(tag, record.value.assets) { return false, local; }
      assert forall name <- ExpectedAssets(tag) :: name in record.value.assets.Keys;
      ok, dir := FetchAll(record.value.assets, ExpectedAssets(tag), local);
      if ok { served := served + [Serving(tag, public, dir)]; }
    }

    /** Every asset but the bundle is attested by the bundle. */
    method Verify(dir: Files, tag: string, sha: string) returns (ok: bool)
      requires ValidTag(tag)
      modifies this
      ensures ok ==> failures == old(failures)
      ensures OnlyMoved(old(remote), remote) && served == old(served)
      ensures ok ==> Attested(attested, tag, sha, dir)
      ensures reliable ==> remote == old(remote) && ok == Attested(attested, tag, sha, dir)
    {
      var names := ExpectedAssets(tag);
      if BUNDLE !in dir { return false; }
      for i := 0 to |names|
        invariant OnlyMoved(old(remote), remote) && served == old(served) && failures == old(failures)
        invariant reliable ==> remote == old(remote)
        invariant forall j | 0 <= j < i && names[j] != BUNDLE ::
            names[j] in dir && attested(tag, sha, dir[names[j]], dir[BUNDLE])
      {
        if names[i] != BUNDLE {
          var o := Next();
          if o != Fine || names[i] !in dir || !attested(tag, sha, dir[names[i]], dir[BUNDLE]) { return false; }
        }
      }
      return true;
    }

    method DownloadVerified(tag: string, sha: string, public: bool, local: Files) returns (ok: bool, dir: Files)
      modifies this
      ensures ok ==> failures == old(failures)
      ensures OnlyMoved(old(remote), remote)
      ensures ok ==> served == old(served) + [Serving(tag, public, dir)]
      ensures ok ==> Complete(tag, !public, remote) && Attested(attested, tag, sha, dir)
      ensures ok ==> ServedFrom(tag, if reliable then {} else forged, remote.releases[tag].assets, dir)
      ensures reliable ==> remote == old(remote) && ok == CanShip(attested, tag, sha, !public, remote)
    {
      ok, dir := Download(tag, public, local);
      if !ok { return; }
      ok := Verify(dir, tag, sha);
      assert BUNDLE == ExpectedAssets(tag)[12];
    }

    /** Deletes one asset of a draft; the answer does not say for certain that it is gone. */
    method Delete(tag: string, name: string) returns (ok: bool)
      requires tag in remote.releases
      modifies this
      ensures ok ==> failures == old(failures)
      ensures tag in remote.releases && Moved(old(remote), remote, tag, remote.releases[tag].assets)
      ensures remote.releases[tag].assets == old(remote.releases[tag].assets)
              || remote.releases[tag].assets == old(remote.releases[tag].assets) - {name}
      ensures reliable ==> ok && name !in remote.releases[tag].assets
    {
      var o := Next();
      if o == Fine || o == FailsAfter {
        remote := WithAssets(remote, tag, remote.releases[tag].assets - {name});
      }
      return o == Fine || o.Garbled?;
    }

    /** Adds one asset to a draft; a name that is taken is refused. The answer reports what was stored. */
    method Post(tag: string, name: string, bytes: string) returns (ok: bool)
      requires tag in remote.releases
      modifies this
      ensures ok ==> failures == old(failures)
      ensures tag in remote.releases && Moved(old(remote), remote, tag, remote.releases[tag].assets)
      ensures var was, now := old(remote.releases[tag].assets), remote.releases[tag].assets;
              now == was || (name !in was && name in now && now == was[name := now[name]])
      ensures ok ==> name in remote.releases[tag].assets && remote.releases[tag].assets[name] == bytes
      ensures reliable && name !in old(remote.releases[tag].assets) ==> ok
    {
      var o := Next();
      var assets := remote.releases[tag].assets;
      if o == FailsBefore || name in assets { return false; }
      var stored := if o.Garbled? then o.bytes else bytes;
      remote := WithAssets(remote, tag, assets[name := stored]);
      return o != FailsAfter && stored == bytes;
    }

    /**
     The local file of one name goes up, unless it is there already; other bytes are replaced for the checksums only.
     */
    method UploadOne(local: Files, tag: string, name: string, existing: Files) returns (ok: bool)
      requires tag in remote.releases && SameAt(name, existing, remote.releases[tag].assets)
      modifies this
      ensures ok ==> failures == old(failures)
      ensures tag in remote.releases && Moved(old(remote), remote, tag, remote.releases[tag].assets)
      ensures ChangedAt(name, old(remote.releases[tag].assets), remote.releases[tag].assets)
      ensures ok ==> HoldsFile(remote.releases[tag].assets, local, name)
      ensures reliable && UploadFits(name, local, existing) ==> ok
    {
      if name !in local || local[name] == "" { return false; }
      if name in existing {
        if existing[name] == local[name] { return true; }
        if name != CHECKSUMS { return false; }
        ok := Delete(tag, name);
        if !ok { return false; }
      }
      ok := Post(tag, name, local[name]);
    }

    method UploadAll(local: Files, tag: string, names: seq<string>, existing: Files) returns (ok: bool)
      requires tag in remote.releases && existing == remote.releases[tag].assets
      requires Distinct(names) && CHECKSUMS in names
      modifies this
      ensures ok ==> failures == old(failures)
      ensures tag in remote.releases && Moved(old(remote), remote, tag, remote.releases[tag].assets)
      ensures AssetsKept(names, existing, remote.releases[tag].assets)
      ensures ok ==> forall i | 0 <= i < |names| :: HoldsFile(remote.releases[tag].assets, local, names[i])
      ensures reliable && (forall name <- names :: UploadFits(name, local, existing)) ==> ok
    {
      for i := 0 to |names|
        invariant tag in remote.releases && Moved(old(remote), remote, tag, remote.releases[tag].assets)
        invariant Progress(names, local, existing, remote.releases[tag].assets, i) && failures == old(failures)
      {
        ghost var was := remote.releases[tag].assets;
        ok := UploadOne(local, tag, names[i], existing);
        OneMoreAsset(names, local, existing, was, remote.releases[tag].assets, i, ok);
        if !ok { return false; }
      }
      return true;
    }

    method Upload(local: Files, tag: string) returns (ok: bool)
      modifies this
      ensures ok ==> failures == old(failures)
      ensures Uploaded(tag, local, old(remote), remote, ok)
      ensures reliable && CanUpload(tag, local, old(remote)) ==> ok
    {
      var record := Record(tag);
      if record.Err? || !record.value.draft || !ValidTag(tag) { return false; }
      ListedAreOthers(tag);
      assert CHECKSUMS == ExpectedAssets(tag)[11];
      ok := UploadAll(local, tag, ExpectedAssets(tag), record.value.assets);
    }

    /** The irreversible call; in immutable mode the answer has to say that the release is frozen. */
    method MakePublic(tag: string, mode: string) returns (ok: bool)
      requires tag in remote.releases
      modifies this
      ensures ok ==> failures == old(failures)
      ensures remote.tap == old(remote.tap) && served == old(served)
      ensures var public := old(remote.releases)[tag := old(remote.releases)[tag].(draft := false)];
              remote.releases == public || (!ok && remote.releases == old(remote.releases))
      ensures ok && mode == "immutable" ==> remote.immutable
      ensures reliable ==> remote.immutable == old(remote.immutable) && ok == (mode == "immutable" ==> remote.immutable)
    {
      var o := Next();
      if o == FailsBefore || o.Garbled? { return false; }
      remote := remote.(releases := remote.releases[tag := remote.releases[tag].(draft := false)]);
      return o != FailsAfter && (mode == "immutable" ==> remote.immutable);
    }

    /** Publishes a complete and attested draft. */
    method Publish(local: Files, tag: string, sha: string, mode: string)
                   returns (ok: bool, dir: Files, ghost e: Evidence)
      modifies this
      ensures ok ==> failures == old(failures)
      ensures Published(attested, forged, tag, sha, mode, old(remote), remote, ok, e)
      ensures ok ==> served == old(served) + [Serving(tag, false, e.seen), Serving(tag, true, dir)]
      ensures ok ==> Attested(attested, tag, sha, dir) && ServedFrom(tag, forged, old(remote).releases[tag].assets, dir)
      ensures reliable ==> ok == (Clear(tag, sha, mode, old(remote)) && CanShip(attested, tag, sha, true, old(remote)))
    {
      dir, e := local, Evidence(local, remote, remote);
      ok := Preflight(tag, sha, mode);
      if !ok { return; }
      ok, dir := DownloadVerified(tag, sha, false, local);
      if !ok { return; }
      ok := Source(tag, sha);
      e := Evidence(dir, remote, remote);
      if !ok { return; }
      ok := MakePublic(tag, mode);
      e := e.(answered := remote);
      if !ok { return; }
      ok, dir := DownloadVerified(tag, sha, true, dir);
    }

    /** Puts the cask of a public, complete and attested release into the tap. */
    method Tap(local: Files, tag: string, sha: string) returns (ok: bool, dir: Files)
      modifies this
      ensures ok ==> failures == old(failures)
      ensures Tapped(attested, forged, tag, sha, old(remote), remote, ok, dir)
      ensures remote.tap != old(remote).tap || ok ==> served == old(served) + [Serving(tag, true, dir)]
      ensures reliable ==> ok == CanShip(attested, tag, sha, false, old(remote))
      ensures reliable && ok ==> remote.tap == Some(old(remote).releases[tag].assets[CASK])
    {
      ok, dir := DownloadVerified(tag, sha, true, local);
      if !ok { return; }
      var o := Next();
      if o != Fine { return false, dir; }
      o := Next();
      if o == FailsBefore { return false, dir; }
      assert CASK == ExpectedAssets(tag)[10];
      remote := remote.(tap := Some(if o.Garbled? then o.bytes else dir[CASK]));
      return o != FailsAfter && remote.tap == Some(dir[CASK]), dir;
    }
  }

  /***** Uploads *****/

  function WithAssets(r: Remote, tag: string, assets: Files): Remote
    requires tag in r.releases
  {
    r.(releases := r.releases[tag := r.releases[tag].(assets := assets)])
  }

  /** Only the assets of one release changed. */
  ghost predicate Moved(before: Remote, after: Remote, tag: string, assets: Files) {
    tag in before.releases && after.releases == before.releases[tag := before.releases[tag].(assets := assets)]
        && after.tap == before.tap
  }

  /** At most one name changed; other than the checksums, it was added. */
  ghost predicate ChangedAt(name: string, was: Files, now: Files) {
    && (forall n | n != name :: n in was <==> n in now)
    && (forall n | n in was && n in now && (n != name || n != CHECKSUMS) :: now[n] == was[n])
    && (name != CHECKSUMS && name in was ==> name in now)
  }

  ghost predicate SameAt(name: string, a: Files, b: Files) {
    (name in a <==> name in b) && (name in a ==> a[name] == b[name])
  }

  /** The first `i` names hold the local files, and nothing but those names was touched. */
  ghost predicate Progress(names: seq<string>, local: Files, before: Files, now: Files, i: nat)
    requires i <= |names|
  {
    && AssetsKept(names, before, now)
    && (forall j | 0 <= j < i :: HoldsFile(now, local, names[j]))
    && (forall j | i <= j < |names| :: SameAt(names[j], before, now))
  }

  lemma OneMoreAsset(names: seq<string>, local: Files, before: Files, was: Files, now: Files, i: nat, ok: bool)
    requires i < |names| && Distinct(names) && CHECKSUMS in names
    requires Progress(names, local, before, was, i) && ChangedAt(names[i], was, now)
    requires ok ==> HoldsFile(now, local, names[i])
    ensures AssetsKept(names, before, now)
    ensures ok ==> Progress(names, local, before, now, i + 1)
  {
    forall j | 0 <= j < i ensures HoldsFile(now, local, names[j]) { assert names[j] != names[i]; }
  }

  /***** Runs *****/

  datatype Command =
    | UploadCommand(tag: string)
    | PublishCommand(tag: string, sha: string, mode: string)
    | TapCommand(tag: string, sha: string)
    | PreflightCommand(tag: string, sha: string, mode: string)
    | DownloadCommand(tag: string, public: bool)

  /** What happens between two states: a command on some directory, or the outside. Drafts come from the build. */
  datatype Event =
    | Ran(command: Command, local: Files, ok: bool, dir: Files, evidence: Evidence)
    | Outside
    | Drafted(tag: string, assets: Files)

  ghost predicate Follows(c: Attestation, forged: set<string>, before: Remote, e: Event, after: Remote) {
    match e
    case Outside => OnlyMoved(before, after)
    case Drafted(tag, assets) =>
      tag !in before.releases && after.releases == before.releases[tag := Release(true, assets)]
          && after.tap == before.tap
    case Ran(command, local, ok, dir, evidence) =>
      match command
      case UploadCommand(tag) => Uploaded(tag, local, before, after, ok)
      case PublishCommand(tag, sha, mode) => Published(c, forged, tag, sha, mode, before, after, ok, evidence)
      case TapCommand(tag, sha) => Tapped(c, forged, tag, sha, before, after, ok, dir)
      case _ => OnlyMoved(before, after)
  }

  /** Runs one command against the remote. */
  method Execute(hub: Hub, command: Command, local: Files) returns (ok: bool, ghost e: Event)
    modifies hub
    ensures e.Ran? && e.command == command && e.local == local && e.ok == ok
    ensures ok ==> hub.failures == old(hub.failures)
    ensures Follows(hub.attested, hub.forged, old(hub.remote), e, hub.remote)
  {
    var dir := local;
    ghost var evidence := Evidence(local, hub.remote, hub.remote);
    match command {
      case UploadCommand(tag) => ok := hub.Upload(local, tag);
      case PublishCommand(tag, sha, mode) => ok, dir, evidence := hub.Publish(local, tag, sha, mode);
      case TapCommand(tag, sha) => ok, dir := hub.Tap(local, tag, sha);
      case PreflightCommand(tag, sha, mode) => ok := hub.Preflight(tag, sha, mode);
      case DownloadCommand(tag, public) => ok, dir := hub.Download(tag, public, local);
    }
    e := Ran(command, local, ok, dir, evidence);
  }

  /** A history: the states, and what led from each to the next. */
  ghost predicate IsRun(c: Attestation, forged: set<string>, states: seq<Remote>, events: seq<Event>) {
    |states| == |events| + 1 && forall i | 0 <= i < |events| :: Follows(c, forged, states[i], events[i], states[i + 1])
  }

  /** What one step leaves of a release: a public one does not change, a draft keeps all but its checksums. */
  ghost predicate ReleaseKept(tag: string, before: Remote, after: Remote) {
    tag in before.releases ==>
      && tag in after.releases
      && (!before.releases[tag].draft ==> after.releases[tag] == before.releases[tag])
      && AssetsStay(tag, before.releases[tag].assets, after.releases[tag].assets)
  }

  ghost predicate AssetsStay(tag: string, before: Files, after: Files) {
    && (forall name | name in before && name != CHECKSUMS :: name in after && after[name] == before[name])
    && (ValidTag(tag) ==> forall name | name !in ExpectedAssets(tag) :: SameAt(name, before, after))
  }

  lemma StepKeepsReleases(c: Attestation, forged: set<string>, before: Remote, e: Event, after: Remote, tag: string)
    requires Follows(c, forged, before, e, after)
    ensures ReleaseKept(tag, before, after)
  {
    if ValidTag(tag) { assert CHECKSUMS == ExpectedAssets(tag)[11]; }
  }

  /**
   Over every run: a public release never becomes a draft again and keeps its assets as they are; an asset of
   a draft never changes or goes, the checksums excepted; assets outside the expected list are not touched.
   */
  lemma {:induction false} ReleasesKept(c: Attestation, forged: set<string>, states: seq<Remote>, events: seq<Event>,
                                i: nat, j: nat, tag: string)
    requires IsRun(c, forged, states, events) && i <= j < |states|
    ensures ReleaseKept(tag, states[i], states[j])
    decreases j - i
  {
    if i < j {
      ReleasesKept(c, forged, states, events, i, j - 1, tag);
      StepKeepsReleases(c, forged, states[j - 1], events[j - 1], states[j], tag);
      KeptTwice(tag, states[i], states[j - 1], states[j]);
    }
  }

  lemma KeptTwice(tag: string, a: Remote, b: Remote, c: Remote)
    requires ReleaseKept(tag, a, b) && ReleaseKept(tag, b, c)
    ensures ReleaseKept(tag, a, c)
  {
  }

  /** Files that were served honestly and attested: the assets themselves are. */
  lemma AssetsAttested(c: Attestation, tag: string, sha: string, forged: set<string>, assets: Files, dir: Files)
    requires ValidTag(tag) && ServedFrom(tag, forged, assets, dir) && Attested(c, tag, sha, dir)
    ensures forged == {} ==> Attested(c, tag, sha, assets)
    ensures Unforgeable(c, tag, sha, forged) ==>
              forall name <- ExpectedAssets(tag) | name != BUNDLE ::
                name in assets && dir[name] == assets[name] && c(tag, sha, assets[name], dir[BUNDLE])
  {
    assert BUNDLE == ExpectedAssets(tag)[12];
  }

  /**
   What a release that was shipped is like at a later moment: it is public, complete and unchanged. Its assets
   were what the command downloaded and attested, so they are attested themselves if nobody forges anything, and
   all but the bundle are attested if forgeries do not pass.
   */
  ghost predicate Shipped(c: Attestation, forged: set<string>, tag: string, sha: string, was: Files, dir: Files,
                          later: Remote) {
    && Complete(tag, false, later) && later.releases[tag].assets == was
    && ServedFrom(tag, forged, was, dir) && Attested(c, tag, sha, dir)
    && (forged == {} ==> Attested(c, tag, sha, later.releases[tag].assets))
    && (Unforgeable(c, tag, sha, forged) ==>
          forall name <- ExpectedAssets(tag) | name != BUNDLE ::
            name in was && dir[name] == was[name] && c(tag, sha, was[name], dir[BUNDLE]))
  }

  /**
   In every run the tap changes only by a tap command, for a release that is public with exactly the expected
   names, after its assets were downloaded and attested; the tap then holds the attested cask, which is the cask of
   the release unless it was forged; and at every later moment that release is still as it was.
   */
  lemma TapFollowsRelease(c: Attestation, forged: set<string>, states: seq<Remote>, events: seq<Event>, i: nat, j: nat)
    requires IsRun(c, forged, states, events) && i < |events| && i < j < |states|
    requires states[i + 1].tap != states[i].tap
    ensures events[i].Ran? && events[i].command.TapCommand?
    ensures var tag, sha, dir := events[i].command.tag, events[i].command.sha, events[i].dir;
            && Complete(tag, false, states[i])
            && Shipped(c, forged, tag, sha, states[i].releases[tag].assets, dir, states[j])
            && CASK in dir && CASK in states[i].releases[tag].assets
            && (forged == {} || events[i].ok ==> states[i + 1].tap == Some(dir[CASK]))
            && (forged == {} || (events[i].ok && Unforgeable(c, tag, sha, forged)) ==>
                  states[i + 1].tap == Some(states[i].releases[tag].assets[CASK]))
  {
    assert Follows(c, forged, states[i], events[i], states[i + 1]);
    var tag, sha, dir := events[i].command.tag, events[i].command.sha, events[i].dir;
    ReleasesKept(c, forged, states, events, i, j, tag);
    AssetsAttested(c, tag, sha, forged, states[i].releases[tag].assets, dir);
    assert CASK == ExpectedAssets(tag)[10] && CASK != BUNDLE;
  }

  /**
   A release becomes public only by a publish command that found its assets complete and attested and its tag in place.
   */
  lemma {:induction false} PublicWasPublished(c: Attestation, forged: set<string>, states: seq<Remote>,
                                events: seq<Event>,
                                              j: nat, tag: string) returns (i: nat)
    requires IsRun(c, forged, states, events) && j < |states|
    requires tag in states[j].releases && !states[j].releases[tag].draft
    requires tag in states[0].releases ==> states[0].releases[tag].draft
    ensures i < j && events[i].Ran? && events[i].command.PublishCommand? && events[i].command.tag == tag
    ensures var sha, e := events[i].command.sha, events[i].evidence;
            && Complete(tag, true, states[i])
            && Shipped(c, forged, tag, sha, states[i].releases[tag].assets, e.seen, states[j])
            && tag in e.resolved.tags && e.resolved.tags[tag] == sha
    decreases j
  {
    var before, after := states[j - 1], states[j];
    assert Follows(c, forged, before, events[j - 1], after);
    if tag in before.releases && !before.releases[tag].draft {
      StepKeepsReleases(c, forged, before, events[j - 1], after, tag);
      i := PublicWasPublished(c, forged, states, events, j - 1, tag);
    } else {
      i := j - 1;
      AssetsAttested(c, tag, events[i].command.sha, forged, before.releases[tag].assets, events[i].evidence.seen);
    }
  }

  /** What a finished upload put up stays up: whatever runs later, only the checksums may be replaced. */
  lemma UploadsLast(c: Attestation, forged: set<string>, states: seq<Remote>, events: seq<Event>, i: nat, j: nat)
    requires IsRun(c, forged, states, events) && i < |events| && i < j < |states|
    requires events[i].Ran? && events[i].command.UploadCommand? && events[i].ok
    ensures var tag, local := events[i].command.tag, events[i].local;
            && ValidTag(tag) && tag in states[j].releases
            && (forall name <- ExpectedAssets(tag) :: HoldsFile(states[i + 1].releases[tag].assets, local, name))
            && (forall name <- ExpectedAssets(tag) | name != CHECKSUMS ::
                HoldsFile(states[j].releases[tag].assets, local, name))
  {
    assert Follows(c, forged, states[i], events[i], states[i + 1]);
    ReleasesKept(c, forged, states, events, i + 1, j, events[i].command.tag);
  }
}
