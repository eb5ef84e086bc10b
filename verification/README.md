# gridctl: a verified model of its hard parts

gridctl puts MCP servers behind one gateway, described by a stack file. This project models the parts of
gridctl where several steps, writers or files have to fit together, and proves what they promise:

- **Editing the stack file** (`StackProtocol`, `ConcurrentScopes`): any number of writers that share a path
  lock, and outside editors who may step in between any two steps, as one transition system. The theorems
  are about every interleaving.
- **Client scopes** (`ScopePatch`, `YamlEdit`): the rewrite of a client profile in the YAML tree, as a function
  on all trees and as an in-place edit of linked nodes proved equal to it.
- **Linking clients** (`LinkBlock`, `LinkProtocol`, `LinkUnlink`): requests that write two files in a fixed order
  and may stop, fail or be interfered with after every step.
- **Import and add** (`ImportPlan`, `Secrets`, `Variables`): collision, duplicate and overwrite bookkeeping, and
  moving literal secrets into the variable store.
- **Releases** (`ReleaseFiles`, `Release`): asset names, the checksum file and the upgrader's lookup in it, and the
  upload, publish and tap commands against a remote that may fail at any call.
- **Texts that must read back** (`Quoting`, `EnvFile`, `ToolTokens`): escaping, the .env export and import,
  prefixed tool names.
- **Following files that grow** (`Streams`, `Logs`): the telemetry tail and the daemon log.
- **Small exact computations** (`Selection`, `ScopeImpact`, `ToolTokens`): variable selection, scope impact, token
  estimates.

`Base` and `Text` hold what the others share. All files are checked together with
`dafny verify dfyconfig.toml`.

## How the model stands to the program

Hashes are compared only for equality in the program; the model compares the hashed values, that is, it takes
hashes to be injective. What a remote may serve or store in place of the right bytes is a set of forged files.
Decoding of the whole stack file, printability of non-ASCII runes, attestation and the
value a client's link entry gets are parameters. Failures of the operating system or of a remote call are
inputs of the step they hit.

Where the program falls short of what its comments or its purpose promise, the model keeps the program's
behaviour, gives an example and states exactly when the promise holds:

- An outside edit between the second read of the stack file and its replacement is overwritten
  (`StackProtocol.GapLosesAnEdit`); without one in that gap every run is serial (`StackProtocol.CleanRunsAreSerial`).
- Dropping a list from a profile that holds the key twice uncovers the second one; patching is idempotent exactly
  when that does not happen (`ScopePatch.PatchIsIdempotent`).
- Unlinking removes the first declaration only (`LinkUnlink.DeclaredTwiceStays`), and takes the entry name from
  the request when the stack file does not decode (`LinkUnlink.NameIsForgotten`); `LinkUnlink.LinkThenUnlink` has
  the exact conditions.
- A secret whose environment key is outside the reference grammar is stored, but the reference left in its place
  is not one (`Secrets.DashedKeyIsNotResolved`), and a secret found under a reserved key is never delivered
  (`Secrets.ReservedKeyIsNotResolved`); `Secrets.MovedKeysResolve` has the exact condition.
- The log position is taken after the last read, so bytes appended in between are shown by neither the tail nor
  the follower (`Logs.LateByteIsLost`); `Logs.WholeLog` says exactly when the output is the file.

## Model

| member | source | states |
|---|---|---|
| `StackProtocol.StepKeepsInv` | cmd/gridctl/stackwrite.go:87-151 | every step of every writer and every outside edit keeps the protocol invariant: one lock holder, each phase justified by the history, the file being what the history says |
| `StackProtocol.EveryRunIsSound` | internal/api/clients_edit.go:26-57 | in every interleaving of any number of writers and outside edits each recorded event is justified by the ones before it |
| `StackProtocol.WhatACommitReplaces` | cmd/gridctl/stackwrite.go:137-151 | a commit's patch was computed from the contents its second read found; what it overwrites is that base or an outside edit made after the second read, and for the command-line writer is in the backup or an outside edit made after the backup |
| `StackProtocol.CleanRunsAreSerial` | internal/api/clients_edit.go:44-56 | if no outside edit falls between a second read and its replacement, the file is as if all edits and patches had been done one after another |
| `StackProtocol.LockedWritersFold` | internal/api/clients_edit.go:31-56 | without outside edits the file is the fold of the committed patches in commit order, each successful writer exactly once |
| `StackProtocol.FailedWritersLeaveTheFileAlone` | cmd/gridctl/stackwrite.go:92-151 | a writer that did not report success never replaced the file |
| `StackProtocol.FailureIsFinal` | cmd/gridctl/stackwrite.go:92-151 | in every run a writer that meets an error at any read, backup or replacement, whose patch is rejected or that finds the file gone or changed has given up: it has no commit in the history and never reports success |
| `StackProtocol.ErrorsAreNotIgnored` | cmd/gridctl/stackwrite.go:133-149 | an action that reports a failure to a writer, a failed backup too, at any point of any run, keeps that writer from committing for good |
| `StackProtocol.GapLosesAnEdit` | internal/api/clients_edit.go:48-56 | for every API job and every edit there is a run in which an edit in the gap is neither in the file nor in the base |
| `StackProtocol.EveryWriterCanFinish` | cmd/gridctl/stackwrite.go:88-90 | from every reachable state all writers can be brought to an end; the lock never deadlocks |
| `StackProtocol.AcceptedWriterCommits` | cmd/gridctl/stackwrite.go:87-151 | a writer whose turn it is and whose patch is accepted reports success and leaves the patched base in the file, when nothing fails |
| `ScopePatch.PatchIsSeen` | internal/api/clients_edit.go:69-118 | after a patch a lookup of the profile gives the requested lists, a nil axis is as before, an empty list removes the first key |
| `ScopePatch.PatchIsLocal` | internal/api/clients_edit.go:129-170 | other top-level keys, other keys of clients, sibling profiles and all fields of the profile the request is not about, the list of a nil axis among them, keep their values and order |
| `ScopePatch.PatchIsIdempotent` | internal/api/clients_edit.go:154-170 | patching twice equals patching once, if and only if no emptied list occurs twice in the profile |
| `ScopePatch.PatchAxesInTurn` | internal/api/clients_edit.go:99-104 | patching servers and then tools equals patching both at once |
| `ScopePatch.PatchesCommute` | internal/api/clients_edit.go:69-118 | patches to different profiles commute up to the order of new keys, and exactly unless both profiles are new |
| `ScopePatch.SetListLaws` | internal/api/clients_edit.go:154-170 | setting one list changes that key alone and keeps the order of the others |
| `ScopePatch.PutLaws` | internal/api/clients_edit.go:129-148 | making a child mapping leaves all other pairs and lookups alone |
| `ScopePatch.PatchSucceeds` | internal/api/clients_edit.go:69-148 | a patch succeeds if and only if there is a profile and an axis, the root is a mapping, and what is reached under clients, profiles and the profile is each missing, a mapping, a scalar tagged null or a scalar with an empty value; otherwise the first place that is something else is named |
| `ScopePatch.WhatIsMade` | internal/api/clients_edit.go:129-148 | a missing key becomes a plain string key with a plain mapping at the end, a blank one a plain mapping in place, a mapping keeps its tag |
| `YamlEdit.PatchClientScope` | internal/api/clients_edit.go:69-118 | the in-place edit of linked nodes succeeds exactly when every value on the way is missing, a mapping, null or empty, reports the error of `ScopePatch.Patch` otherwise, and leaves the tree that function gives |
| `YamlEdit.EnsureChildMapping` | internal/api/clients_edit.go:129-148 | returns the mapping under the key, made from nothing or in place from a null or an empty scalar, and fails exactly for other values |
| `YamlEdit.ReplaceOrInsertStringSeq` | internal/api/clients_edit.go:154-170 | the stride-two loop over the content leaves the pairs that `ScopePatch.SetList` gives |
| `YamlEdit.ToolsSequenceNode` | internal/api/stack_edit.go:313-326 | builds a fresh block sequence of exactly the given strings |
| `YamlEdit.FindKey` | internal/api/stack_edit.go:266-276 | finds the first pair with the key or the end of the content |
| `ConcurrentScopes.ConcurrentRequests` | internal/api/clients_edit.go:26-57 | any interleaving of scope requests for different clients without outside edits leaves each successful one's profile as if it had been alone, and everything else untouched |
| `ConcurrentScopes.PreviewIsWritten` | internal/api/clients_preview.go:100-116 | in any run, a request that commits while the file is as previewed stores exactly the previewed document |
| `ConcurrentScopes.NoBackups` | internal/api/clients_edit.go:44-56 | scope requests make no backups and commit without one, in every run |
| `LinkBlock.ItemReadsBack` | internal/stackedit/link.go:166-185 | the node written for an entry decodes to that entry and is found under its client |
| `LinkBlock.UpsertDeclares` | internal/stackedit/link.go:23-48 | declaring a client keeps the rest of the file, keeps it decodable, and reads back as declared |
| `LinkBlock.RemoveAfterUpsert` | internal/stackedit/link.go:54-85 | removing right after declaring always works and gives the file before, without the declaration that was replaced |
| `LinkBlock.UndeclaredLaws` | internal/stackedit/link.go:73-84 | exactly the first declaration goes; the rest of the file stays, further declarations too |
| `LinkBlock.UndeclaredRestores` | internal/stackedit/link.go:54-85 | for a client not declared before, the file comes back as it was, up to an empty block being dropped |
| `LinkBlock.DeclaredEntry` | internal/api/link.go:446-457 | the search loop gives the first decoded entry of the client |
| `LinkBlock.MatchesWritten` | internal/stackedit/link.go:143-162 | an item is a client's if and only if it is the client's scalar, whatever its tag, or a mapping with a client key holding that scalar |
| `LinkBlock.UpsertSucceeds` | internal/stackedit/link.go:23-48 | declaring works if and only if the client is named, the root is a mapping and the block is missing, null or a sequence, and otherwise says what is wrong |
| `LinkBlock.UpsertPlaces` | internal/stackedit/link.go:38-45 | the new item takes the place of the first item written as the client, or comes last; the other items stay |
| `LinkBlock.RemoveSucceeds` | internal/stackedit/link.go:54-85 | removing works if and only if the block is a sequence with an item written as the client, and otherwise tells a missing block from a missing entry |
| `LinkBlock.UpsertKeepsOthers` | internal/stackedit/link.go:23-48 | in a file that decodes every other client is declared with the same entry after declaring one |
| `LinkBlock.RemoveKeepsOthers` | internal/stackedit/link.go:54-85 | in a file that decodes every other client is declared with the same entry after a removal |
| `LinkBlock.ItemIsWritten` | internal/stackedit/link.go:166-186 | the node letter by letter: a plain scalar, or the four fields in their order |
| `LinkBlock.EntryNames` | pkg/config/links.go:58-66 | a given name wins over the group's, the group's over the plain one |
| `LinkProtocol.StepKeepsInv` | internal/api/link.go:95-200 | every step of a link or unlink request, and every outside change, keeps: the world is the replay of the history, reads report what was there, and the phase fixes what the request did |
| `LinkProtocol.EveryRunIsAccounted` | internal/api/link.go:209-311 | the invariant holds in every state of every run |
| `LinkProtocol.StackIsLinkedLast` | internal/api/link.go:129-184 | wherever a link request stops, if it wrote the stack then the client's configuration had held the planned entry before and its record had been saved |
| `LinkProtocol.WhatAResponseMeans` | internal/api/link.go:138-184 | for every run each response fixes what was written: the stack exactly for success with a declaration to make or remove, the client's configuration exactly when the decision was to write or delete, the records exactly when it was neither nothing nor refusal; a failure wrote neither stack nor records |
| `LinkProtocol.OnlyOwnedIsTouched` | pkg/wiring/ops.go:204-395 | in every run an entry is removed only if it held a value gridctl had written when the request looked, and written over only if it did, was missing, or force was asked |
| `LinkProtocol.NewestAreKept` | pkg/wiring/wiring.go:161-173 | the new value is newest and occurs once, before it come the newest of the others in their order, at most five in all, and none is forgotten while there is room |
| `LinkProtocol.SavedRecordsAre` | pkg/wiring/ops.go:180-275 | a link puts the planned value after the newest four others under its name, an unlink drops its name, and no other name changes |
| `LinkProtocol.LinkVerdicts` | pkg/wiring/ops.go:204-247 | a link is refused if and only if the entry is there, is neither the planned value nor one on record, and force is not asked; what else it decides follows from entry and record alone |
| `LinkProtocol.UnlinkVerdicts` | pkg/wiring/ops.go:332-395 | an unlink is refused if and only if there is an entry whose value is not on record; it deletes a recorded entry, drops a lone record and does nothing otherwise |
| `LinkProtocol.ErrorsAreReported` | internal/api/link.go:95-311 | in every run an error at any step ends the request at once with a failure, or with the stack not updated once the client's side is done |
| `LinkProtocol.OthersStayDeclared` | internal/api/link.go:129-184 | in every run a stack that is written declares every other client as the stack that was read does |
| `LinkUnlink.EveryQuietRun` | internal/api/link.go:95-311 | for every undisturbed run, client installed or not, each response says exactly what the world is: whole effect, client's side only, or nothing |
| `LinkUnlink.UnlinkOfMissing` | internal/api/link.go:268-275 | unlinking a client that is gone never touches its configuration and is never refused; success removes the declaration, and the record if dropping it did not fail |
| `LinkUnlink.LinkEffect` | pkg/wiring/ops.go:180-275 | an undisturbed successful link found an installed client, a patchable stack, a known group and an entry that is missing, in place, recorded or forced, and leaves exactly the entry, the record and the declaration, every other client being declared as before |
| `LinkUnlink.ReadySucceeds` | internal/api/link.go:95-311 | a request whose stack can be patched, whose group is known and whose entry is missing, in place, recorded or forced (for an unlink missing or recorded) succeeds when nothing fails, with one determined answer and the whole effect |
| `LinkUnlink.RefusedExactly` | pkg/wiring/ops.go:204-395 | however an undisturbed request on an installed client goes, it is refused only for an entry that is foreign by the rule above, and succeeds only without one |
| `LinkUnlink.FinalAnswer` | internal/api/link.go:95-311 | when nothing fails or interferes the answer is determined: unknown group, unpatchable stack, conflict exactly for a foreign entry, success otherwise |
| `LinkUnlink.UnlinkIsNotRefused` | pkg/wiring/ops.go:332-395 | after an undisturbed link the unlink request is never turned down as foreign or drifted |
| `LinkUnlink.LinkThenUnlink` | internal/api/link.go:209-311 | link then unlink, both successful and undisturbed: the declaration is gone if and only if there was no other, entry and record are gone if and only if the stack decodes or the request names the same entry, and every other client is declared as before; a declared group always suffices |
| `LinkUnlink.NameIsForgotten` | internal/api/link.go:227-232 | example: a stack that does not decode; the unlink succeeds and the client stays linked |
| `LinkUnlink.DeclaredTwiceStays` | internal/stackedit/link.go:75-79 | example: a run of both requests after which a client declared twice is still declared |
| `Secrets.CandidatesDiffer` | cmd/gridctl/import.go:600-610 | the candidate keys of the suffix search are pairwise different |
| `Secrets.CandidatesAre` | cmd/gridctl/import.go:600-606 | they are KEY, KEY_2, KEY_3 and so on |
| `Secrets.UnusableAreFew` | cmd/gridctl/import.go:600-610 | no more candidates are unusable than the store has entries, so the search ends for every finite store |
| `Secrets.StoreSecret` | cmd/gridctl/import.go:599-611 | returns the first candidate that is free or holds the value, and changes the store at most at that key, where there was nothing; what it adds is a secret string under its own key with that value and nothing else |
| `Secrets.StoredLaws` | cmd/gridctl/import.go:599-611 | a stored secret is in the store under the returned key and no entry changed |
| `Secrets.StoringAgain` | cmd/gridctl/import.go:602-604 | repeating the call, also after the store grew, gives the same key and changes nothing |
| `Secrets.VaultSelectedSecrets` | cmd/gridctl/import.go:542-595 | on success every moved key of every server that is not skipped refers to a final store entry with its old value; all entries present before are unchanged, every new one is a secret string with one of the moved values, and no reserved key is added; it fails only for an abort, or for a secret the store does not hold and a failed write or a key that is empty, reserved or becomes so by numbering |
| `Secrets.MovedKeysResolve` | cmd/gridctl/import.go:580-590 | a moved key that is a name expands to its old value unless a reserved candidate of it was in the store before and is what it refers to, so always if the key is free or no reserved key was there; a key that is no name never does |
| `Secrets.StoredResolves` | cmd/gridctl/import.go:599-611 | what a call stored expands to the value if and only if the key is a name and the first usable candidate is not reserved; a reserved one was in the store before |
| `Secrets.ReservedCandidates` | pkg/vault/internal_credentials.go:24-26 | which candidates are reserved, said of the key: the key itself if it is, a numbered one if the key is GRIDCTL or begins with GRIDCTL_ |
| `Secrets.ReservedKeyIsNotResolved` | cmd/gridctl/import.go:602-604 | example: a store that holds a reserved key with that value |
| `Secrets.DashedKeyIsNotResolved` | cmd/gridctl/import.go:585 | example: a key with a dash |
| `Secrets.VarKeyIsName` | pkg/catalog/mapper.go:354-367 | every input name is folded into the reference grammar |
| `Secrets.VarKeyLaws` | pkg/catalog/mapper.go:352-367 | the key keeps the letters and digits of the name in order, is VALUE without any, folding it again changes nothing, and a name without underscores at its ends is its own key |
| `Secrets.VarKeyJoins` | pkg/catalog/mapper.go:352-367 | two words with any other characters around and between them are joined by a single underscore; a digit first gets one in front |
| `Secrets.ValueIsTrimmed` | cmd/gridctl/add.go:591-594 | a given value counts without the blanks around it; a blank or missing one gives the default |
| `Secrets.RouteInputValues` | cmd/gridctl/add.go:583-641 | exactly the inputs that are set, required or for authentication are in the block, the last of each name routed as its kind demands, secrets to a store entry holding their value; no entry changes, every new one is a secret string with one of the secret values, a dry run stores nothing; it fails only for a secret the store does not hold and a failed write or a key that is or becomes reserved |
| `Secrets.RoutedSecretsResolve` | cmd/gridctl/add.go:583-641 | the reference left for a secret input expands to its value unless it refers to a reserved key that was in the store before, so always if its key is free or there was none |
| `Variables.ReferenceIsRead` | pkg/config/expand.go:121-126 | a reference is the key between dollar, brace, var, colon and brace; it is read as its key if and only if the key fits the grammar |
| `Variables.ReferenceResolves` | pkg/config/expand.go:65-80 | a reference expands to the stored value, else to the environment's, and never if the key is reserved or outside the grammar |
| `Variables.Store.SetVariable` | pkg/vault/store.go:321-351 | writes the entry or reports why not, and changes nothing else |
| `Variables.SetLaws` | pkg/vault/store.go:321-351 | an entry is accepted if and only if it has a key that is not reserved and one of five types or none, and the file can be written |
| `Variables.InternalKeys` | pkg/vault/internal_credentials.go:9-26 | the reserved keys spelled out |
| `Variables.NamesAre` | pkg/config/expand.go:120-121 | the reference grammar: letters, digits and underscores, no digit first |
| `ImportPlan.ResolveCollisions` | cmd/gridctl/import.go:314-340 | each server is what its own decision makes of it: skipped, renamed with nothing else changed, or left alone with its name among those to overwrite; without a terminal collisions are skipped; a cancelled prompt stops there |
| `ImportPlan.OverwritingAll` | cmd/gridctl/import.go:322-339 | when every collision is answered with overwrite the selection stays as it is and every colliding name is to be overwritten |
| `ImportPlan.SettlingAll` | cmd/gridctl/import.go:314-339 | when every collision is skipped, or nobody can be asked, exactly the colliding servers are left out; renamed collisions differ in their name only |
| `ImportPlan.SkipDuplicates` | cmd/gridctl/import.go:342-360 | the loop gives the list in which only the first of several servers with one name stays wanted |
| `ImportPlan.DedupedLaws` | cmd/gridctl/import.go:342-360 | the wanted names afterwards are the wanted names before, each once |
| `ImportPlan.DedupedIsFirsts` | cmd/gridctl/import.go:342-360 | exactly the servers that repeat the name of an earlier wanted one are skipped, all others are as they were |
| `ImportPlan.PlanImport` | cmd/gridctl/import.go:286-399 | the servers to import are, in order, those wanted after the decisions that are first of their name, all others unchanged; their names are distinct, the overwrite list is exactly those already in the stack, each once, and imported plus skipped account for all selected and scanned-out servers |
| `ImportPlan.OverwriteList` | cmd/gridctl/import.go:391-399 | the overwrite list is the chosen names that survived, each once |
| `ImportPlan.WriteServers` | cmd/gridctl/stackwrite.go:98-115 | succeeds exactly when all overwritten entries are there and there is something to append; the names are then the old ones minus overwritten, in order, with the imported ones last |
| `ImportPlan.PlanKeepsNamesUnique` | cmd/gridctl/import.go:441-448 | carrying out a plan always succeeds and keeps names unique where they were, every imported name is in, every other name stays |
| `ImportPlan.RunImport` | cmd/gridctl/import.go:286-448 | a whole run: unless the user cancels or declines or nothing is left, the stack's names become the old ones in their order with the imported ones last, unique if they were |
| `ReleaseFiles.Prepare` | scripts/release.py:95-127 | succeeds exactly for a valid tag with all builds present and valid and the cask there; the returned names and the bundle are the expected assets, the checksum file lists all the others, and index, cask and subjects are what they should be; otherwise the first missing file, an invalid inventory, the tag or the cask is named |
| `ReleaseFiles.ReleaseTagsAreValid` | scripts/release.py:40-42 | v1.2.3 for all numbers, alone or followed by a sign and any version text, is an accepted tag |
| `ReleaseFiles.ValidTagsAre` | scripts/release.py:40-42 | a tag is accepted if and only if it begins with v and a digit and holds only letters, digits, dots, dashes and pluses |
| `ReleaseFiles.CommitsAre` | scripts/release.py:43-44 | a commit is exactly 40 lower-case hexadecimal digits |
| `ReleaseFiles.ExpectedNames` | scripts/release.py:130-134 | the thirteen asset names spelled out and in order |
| `ReleaseFiles.ChecksumTextIs` | scripts/release.py:122 | a line per file: digest, two spaces, name, line end |
| `ReleaseFiles.ListedAreOthers` | scripts/release.py:130-134 | for every valid tag the expected names are pairwise different |
| `ReleaseFiles.LookupListed` | cmd/gridctl/upgrade.go:314-331 | looking a name up in a checksum text gives its digest for every listed name and nothing for any other |
| `ReleaseFiles.LookupChecksum` | cmd/gridctl/upgrade.go:314-331 | the line loop computes that lookup |
| `ReleaseFiles.UpgradeFindsDigest` | cmd/gridctl/upgrade.go:138-139 | for every valid tag and platform the upgrader's archive name is a released asset and its digest is found in the prepared checksums |
| `Release.Hub.Upload` | scripts/release.py:279-302 | touches one draft only, keeps every asset but the checksums and everything outside the expected list; if it completes, every expected asset is the local file; with reliable calls it completes whenever the local files are there and the draft holds nothing else under their names |
| `Release.Hub.Download` | scripts/release.py:257-276 | succeeds only for a release in the asked state with exactly the expected names, all of which are then in the directory |
| `Release.Hub.Verify` | scripts/release.py:144-165 | succeeds only if the bundle attests every other expected asset and no call failed |
| `Release.Hub.Preflight` | scripts/release.py:231-254 | succeeds only for a version tag, a 40-digit commit, a known mode and a release that is absent or a draft, and changes nothing; with reliable calls exactly then, given the tag is at the commit; in particular for every ordinary tag v1.2.3 in mutable mode; a failed call fails it |
| `Release.Hub.Publish` | scripts/release.py:305-319 | a release becomes public only complete, with every asset downloaded from it and attested, and with its tag at the commit when last resolved; nothing else changes; it succeeds only with no failed call, after a second download of the public assets, and in immutable mode only if the answer says the release is frozen; with reliable calls it succeeds exactly when preflight passes and the draft is complete and attested |
| `Release.Hub.Tap` | scripts/release.py:322-345 | the tap changes only for a public and complete release, with every asset downloaded from it and attested; a completed command leaves the attested cask there; with reliable calls it completes exactly for such a release |
| `Release.Execute` | scripts/release.py:348-378 | whatever command runs and however its calls go, the remote moves by the step relation the run theorems are about, and a command that succeeds had no failed call |
| `Release.ReleasesKept` | scripts/release.py:279-345 | in every run of commands, failures and tag moves a public release never changes again, an asset of a draft other than the checksums never changes or goes, assets outside the list are untouched |
| `Release.TapFollowsRelease` | scripts/release.py:322-345 | in every run each change of the tap is by a tap command for a release that was public with exactly the expected names; every attested file was that release's asset or forged, so without forgeries its own assets are attested and its own cask is in the tap, and with forgeries that do not pass the same holds for all but the bundle; the release is the same at every later moment |
| `Release.PublicWasPublished` | scripts/release.py:305-319 | every public release was made public by a publish command that found it complete, downloaded and attested its assets and found its tag in place; its assets are those it had then, attested themselves if nothing was forged |
| `Release.AssetsAttested` | scripts/release.py:144-165 | attested downloads carry over to the assets: all of them without forgeries, all but the bundle if forgeries do not pass |
| `Release.UploadsLast` | scripts/release.py:279-302 | what a completed upload put up is there at every later moment, the checksums excepted |
| `Quoting.HiddenReadsBack` | cmd/gridctl/pins.go:801-803 | the escape sequence of every rune decodes to that rune |
| `Quoting.LettersAre` | cmd/gridctl/pins.go:801-803 | the seven short escapes, as strconv prints them |
| `Quoting.NumbersAre` | cmd/gridctl/pins.go:801-803 | two hexadecimal digits for control characters, four below 0x10000 and eight beyond |
| `Quoting.EscapeNonPrintable` | cmd/gridctl/pins.go:786-805 | early return and rune loop give the same rendering |
| `Quoting.NothingIsHidden` | cmd/gridctl/pins.go:780-805 | a rendering has printable runes only, decodes to the input, and so differs for different inputs |
| `Quoting.UnquoteUndoesQuote` | cmd/gridctl/var.go:881-892 | unquoting undoes quoting for every text |
| `EnvFile.PrintVariables` | cmd/gridctl/var.go:565-584 | the printing loop writes the export text |
| `EnvFile.ParseVariables` | cmd/gridctl/var.go:796-879 | the line loop with its pending markers computes the fold over the lines |
| `EnvFile.MarkersRead` | cmd/gridctl/var.go:820-846 | the comment lines of a variable are read as its type, visibility and metadata, for all metadata texts |
| `EnvFile.RoundTrip` | cmd/gridctl/var.go:796-892 | for every non-empty list the import of the export is the list, sets dropped and empty types read as string, if and only if every key and value is clean and every type valid |
| `EnvFile.ExportedText` | cmd/gridctl/var.go:565-584 | the exported file letter by letter: marker lines for what differs from a secret string, then the key line, variable after variable |
| `EnvFile.SpacedLine` | cmd/gridctl/var.go:849-877 | blanks around the line, the key and the value make no difference, except after a key spelled export, where the line is skipped |
| `EnvFile.TypeMarkerLine` | cmd/gridctl/var.go:827-832 | a type marker sets one of the five types, and any other type fails the import |
| `EnvFile.PlainMarker` | cmd/gridctl/var.go:833-840 | a description that is not quoted stands for itself |
| `EnvFile.OtherComment` | cmd/gridctl/var.go:818-823 | other comments neither say nor reset anything |
| `EnvFile.BlankLineClears` | cmd/gridctl/var.go:812-815 | a blank line ends the reach of the markers above it |
| `EnvFile.ExportedLine` | cmd/gridctl/var.go:841-842 | a leading export makes no difference to the pair that is read |
| `EnvFile.QuotedLine` | cmd/gridctl/var.go:852-857 | matching quotes around any single-line value are taken off |
| `Streams.Reader.ReadString` | cmd/gridctl/telemetry.go:534 | the buffered reader hands out the bytes of a growing file in order, a line at a time, or what is left at the end |
| `Streams.LinesInPieces` | cmd/gridctl/telemetry.go:533-548 | reading in pieces gives the lines of the whole: what was held back goes before what comes |
| `Streams.LinesAndRest` | cmd/gridctl/telemetry.go:533-548 | the complete lines and the rest put together are the text |
| `Streams.TailReader.Drain` | cmd/gridctl/telemetry.go:529-549 | ends for every finite growth; what was written from the open file plus the held partial is exactly what was read from it, cut at its line ends; when no read fails everything in the file was read |
| `Streams.TailReader.Open` | cmd/gridctl/telemetry.go:499-523 | drops the old file and begins at the start or the end of the new one, writing nothing |
| `Streams.TailReader.Close` | cmd/gridctl/telemetry.go:490-497 | drops the file and the held partial, writing nothing |
| `Streams.TailReader.OnNotice` | cmd/gridctl/telemetry.go:440-458 | a created file becomes a new handle read from its start, a written one is read on or from its start if none was open, a vanished one is dropped; the handles before stay as they were |
| `Streams.OpensAre` | cmd/gridctl/telemetry.go:440-452 | a file that is only written to is opened once and read on, a created one is opened every time |
| `Streams.TailReader.Follow` | cmd/gridctl/telemetry.go:430-466 | over every sequence of events and any growth: the files opened are exactly those the events call for, from each a stretch from its start is taken, and what is written is the complete lines of those stretches, file after file; when no read fails nothing present before is left out and the open file is taken completely |
| `Streams.LinesOfAreLines` | cmd/gridctl/telemetry.go:469-475 | only complete single lines are ever written |
| `Logs.PrintTail` | cmd/gridctl/logs.go:155-181 | prints exactly the last n lines of what was read, all when n is not positive, and reports the end of the file at that later moment |
| `Logs.LastOfIs` | cmd/gridctl/logs.go:162-168 | the kept lines are the last n, counted from the end, or all |
| `Logs.FollowLog` | cmd/gridctl/logs.go:185-219 | the polling loop computes the fold over its polls, truncation and failures included |
| `Logs.EachByteOnce` | cmd/gridctl/logs.go:185-219 | on a file that only grows each byte from the start position on is written exactly once and in order, also when the file grows during a copy |
| `Logs.TroubleIsReported` | cmd/gridctl/logs.go:196-216 | on a growing file following succeeds only if no poll failed to look at the file, and none with new bytes failed to seek or copy |
| `Logs.AfterTruncation` | cmd/gridctl/logs.go:201-204 | a file found shorter than the position is followed from its new end, each later byte once |
| `Logs.WholeLog` | cmd/gridctl/logs.go:133-181 | printing all lines and following shows exactly the file if and only if what was appended between the last read and taking the position is the line end that printing added: nothing after a finished last line, one line end after an unfinished one |
| `Logs.LateByteIsLost` | cmd/gridctl/logs.go:177-181 | example: one byte shown by neither |
| `ToolTokens.JoinUndoesSplit` | internal/api/optimize.go:168-175 | the parts of a successful split give the name back |
| `ToolTokens.SplitUndoesJoin` | internal/api/optimize.go:168-175 | a joined name splits into its parts if and only if both are non-empty and no delimiter begins before the joint |
| `ToolTokens.ComputeSchemaTokens` | internal/api/optimize.go:122-162 | exactly the servers with a tool that counts are listed, each tool with a quarter of the size counted last; a server's summed tool estimates never exceed its own, and for distinct names fall short by at most three quarters of a token per tool |
| `Selection.SelectRunVariables` | cmd/gridctl/var_delivery.go:334-372 | for a store's distinct keys: in order exactly the chosen variables that are not reserved; fails exactly when a named set has no member or a named key is absent |
| `Selection.PickedAre` | cmd/gridctl/var_delivery.go:347-357 | a variable is picked if and only if it is there, chosen and not reserved |
| `Selection.PickedInOrder` | cmd/gridctl/var_delivery.go:347-357 | what is picked comes in the order of the list, as often as it is there |
| `Selection.WantedAre` | cmd/gridctl/var_delivery.go:340-344 | keys are wanted without the blanks around them, blank ones not at all |
| `ScopeImpact.ImpactFromScopes` | internal/api/clients_preview.go:168-198 | lost and gained are exactly the one-sided servers, disjoint, and for lists without repetition account for the change of the count |

## Left out

- YAML text: comments, style, anchors and encoding; trees are compared after parsing, and an alias is opaque (its target is not followed).
- Validation of the patched stack in the command-line writer is part of the abstract patch, which may reject.
- Backups: pruning and two backups in one second; a backup is one saved copy.
- Strength of the path lock across processes: writers outside the process are outside editors.
- LinkProtocol.StackIsLinkedLast: the decision reads the client's configuration and the records in one step, and a provisioner's write is taken to store exactly the planned entry.
- LinkBlock.UpsertDeclares: the edit is modelled on values, not on nodes in memory; sharing between nodes is not captured.
- The other clients' configurations, adoption and the link preview.
- Secrets.RouteInputValues: the lists of reported secrets and of unset variables are not modelled.
- Variables.Store.SetVariable: rotation stamps and sets created on the way are not modelled, and an entry that could not be saved is taken to be absent from memory too.
- Secrets.VaultSelectedSecrets: the report of what happened to each secret is not modelled.
- ImportPlan.PlanImport: warnings, sources and the rendering of the plan are not modelled; a cancelled prompt ends the run.
- ImportPlan.WriteServers: the names of the servers only; their other fields are carried along unread.
- Release: ambiguous drafts for one tag and the paging of the release list, the check of the configured destination, and the negative checks of the verify command; the build creates drafts, and nobody else edits releases.
- ReleaseFiles.LookupChecksum: the scanner's limit of 64 KiB per line is not modelled.
- Quoting.UnquoteUndoesQuote: single-quoted and back-quoted strings, octal escapes and escapes of bytes above 0x7F are not read; quoting never writes them.
- Quoting.NothingIsHidden: texts are rune sequences; invalid UTF-8 is not modelled.
- EnvFile.RoundTrip: the masked export and the JSON format are not modelled.
- Streams.TailReader.Follow: a file is append-only while it is open; bytes of a rotated file that were never read are not claimed.
- Logs.EachByteOnce: a file that is truncated while it is copied is covered by the fold of `Logs.FollowLog` only.
- HTTP, authentication, command-line parsing, prompts, tables, container and process control, and the web interface.
