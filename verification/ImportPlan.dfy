/**
 Which of the selected servers an import writes, under which names, and which stack entries they
 replace: the collision, duplicate and overwrite passes of the import command, and the name list of
 the stack after the write.
 */
module ImportPlan {
  import opened Base
  import opened Secrets

  const NAME_COLLISION := "name_collision"

  /** What the user decides about a server whose name is in the stack. */
  datatype Decision = Skip | Rename(name: string) | Overwrite | Cancel

  /** Asked with the position, the name and the names that are taken. */
  type Resolver = (nat, string, set<string>) -> Decision

  /** The names in the stack, whether the user can be asked, and the answers. */
  datatype Prompt = Prompt(existing: set<string>, interactive: bool, resolve: Resolver)

  /** The prompt does not accept a taken name. */
  ghost predicate RenamesToFree(resolve: Resolver) {
    forall i, name, taken :: resolve(i, name, taken).Rename? ==> resolve(i, name, taken).name !in taken
  }

  /** Names of the stack and of the selected servers that are not skipped. */
  function Taken(existing: set<string>, selected: seq<Found>): set<string> {
    existing + set i | 0 <= i < |selected| && selected[i].skip == "" :: selected[i].name
  }

  /** What the user says to the server at `i`: those before it are settled, the others are as selected. */
  function DecisionAt(p: Prompt, before: seq<Found>, past: seq<Found>, i: nat): Decision
    requires i < |before|
  {
    p.resolve(i, before[i].name, Taken(p.existing, past + before[i..]))
  }

  /** What becomes of the server at `i` when those before it became `past`; None when the user cancels. */
  function SettledAt(p: Prompt, before: seq<Found>, past: seq<Found>, i: nat): Option<Found>
    requires i < |before|
  {
    var c := before[i];
    if c.name !in p.existing then Some(c)
    else if !p.interactive then Some(c.(skip := NAME_COLLISION))
    else
      match DecisionAt(p, before, past, i)
      case Cancel => None
      case Rename(name) => Some(c.(name := name))
      case Overwrite => Some(c)
      case Skip => Some(c.(skip := NAME_COLLISION))
  }

  /** The user wants the stack entry of the server at `i` replaced. */
  predicate Replaces(p: Prompt, before: seq<Found>, past: seq<Found>, i: nat)
    requires i < |before|
  {
    p.interactive && before[i].name in p.existing && DecisionAt(p, before, past, i) == Overwrite
  }

  /** Every server in `after` is what its decision made of it. */
  ghost predicate Settled(p: Prompt, before: seq<Found>, after: seq<Found>) {
    && |after| <= |before|
    && forall i | 0 <= i < |after| :: SettledAt(p, before, after[..i], i) == Some(after[i])
  }

  /** The names whose stack entries are to be replaced. */
  ghost predicate Chosen(p: Prompt, before: seq<Found>, after: seq<Found>, chosen: set<string>)
    requires |after| <= |before|
  {
    forall name :: name in chosen <==>
      exists i | 0 <= i < |after| :: before[i].name == name && Replaces(p, before, after[..i], i)
  }

  lemma OneMoreSettled(p: Prompt, before: seq<Found>, past: seq<Found>, c: Found, chosen: set<string>)
    requires |past| < |before| && Settled(p, before, past) && Chosen(p, before, past, chosen)
    requires SettledAt(p, before, past, |past|) == Some(c)
    ensures Settled(p, before, past + [c])
    ensures Chosen(p, before, past + [c],
                   if Replaces(p, before, past, |past|) then chosen + {before[|past|].name} else chosen)
  {
    var after := past + [c];
    assert forall i | 0 <= i < |past| :: after[..i] == past[..i] && after[i] == past[i];
    assert after[..|past|] == past;
  }

  /** First pass: collisions with the stack, as the user decides. None when the user cancelled. */
  method ResolveCollisions(selected: array<Found>, p: Prompt) returns (overwriting: Option<set<string>>)
    modifies selected
    ensures overwriting.Some? ==>
              && Settled(p, old(selected[..]), selected[..])
              && Chosen(p, old(selected[..]), selected[..], overwriting.value)
    ensures overwriting.None? ==>
              exists i | 0 <= i < selected.Length ::
                Settled(p, old(selected[..]), selected[..i])
                    && SettledAt(p, old(selected[..]), selected[..i], i) == None
  {
    var chosen: set<string> := {};
    ghost var before := selected[..];
    for i := 0 to selected.Length
      invariant forall j | i <= j < selected.Length :: selected[j] == before[j]
      invariant Settled(p, before, selected[..i])
      invariant Chosen(p, before, selected[..i], chosen)
    {
      ghost var past, were := selected[..i], chosen;
      assert past + before[i..] == selected[..];
      if selected[i].name in p.existing {
        if !p.interactive {
          selected[i] := selected[i].(skip := NAME_COLLISION);
        } else {
          match p.resolve(i, selected[i].name, Taken(p.existing, selected[..])) {
            case Cancel => return None;
            case Rename(name) => selected[i] := selected[i].(name := name);
            case Overwrite => chosen := chosen + {selected[i].name};
            case Skip => selected[i] := selected[i].(skip := NAME_COLLISION);
          }
        }
      }
      assert selected[..i] == past;
      OneMoreSettled(p, before, past, selected[i], were);
      assert selected[..i + 1] == past + [selected[i]];
    }
    assert selected[..] == selected[..selected.Length];
    return Some(chosen);
  }

  /** A settled server that is still wanted has a new name or replaces the entry it collides with. */
  ghost predicate CollisionFree(existing: set<string>, chosen: set<string>, s: seq<Found>) {
    && chosen <= existing
    && forall i | 0 <= i < |s| :: s[i].skip == "" && s[i].name in existing ==> s[i].name in chosen
  }

  lemma SettledIsFree(p: Prompt, before: seq<Found>, after: seq<Found>, chosen: set<string>)
    requires RenamesToFree(p.resolve) && Settled(p, before, after) && Chosen(p, before, after, chosen)
    ensures CollisionFree(p.existing, chosen, after)
  {
    forall i | 0 <= i < |after| && after[i].skip == "" && after[i].name in p.existing ensures after[i].name in chosen {
      assert SettledAt(p, before, after[..i], i) == Some(after[i]);
      assert before[i].name == after[i].name && Replaces(p, before, after[..i], i);
    }
  }

  /** The user gave one and the same answer to every collision. */
  ghost predicate AlwaysSays(p: Prompt, d: Decision) {
    p.interactive && forall i, name, taken :: p.resolve(i, name, taken) == d
  }

  /** Overwriting leaves the selection as it is and replaces every entry that collides. */
  lemma OverwritingAll(p: Prompt, before: seq<Found>, after: seq<Found>, chosen: set<string>)
    requires Settled(p, before, after) && |after| == |before| && Chosen(p, before, after, chosen)
    requires AlwaysSays(p, Overwrite)
    ensures after == before
    ensures forall i | 0 <= i < |before| :: before[i].name in p.existing ==> before[i].name in chosen
  {
    forall i | 0 <= i < |before| ensures after[i] == before[i] {
      assert SettledAt(p, before, after[..i], i) == Some(after[i]);
    }
    forall i | 0 <= i < |before| && before[i].name in p.existing ensures before[i].name in chosen {
      assert Replaces(p, before, after[..i], i);
    }
  }

  /** Skipping, or not being asked, leaves out exactly what collides; renaming changes exactly those names. */
  lemma SettlingAll(p: Prompt, before: seq<Found>, after: seq<Found>, chosen: set<string>, name: string)
    requires Settled(p, before, after) && |after| == |before| && Chosen(p, before, after, chosen)
    requires !p.interactive || AlwaysSays(p, Skip) || AlwaysSays(p, Rename(name))
    ensures chosen == {}
    ensures forall i | 0 <= i < |before| ::
              after[i] == if before[i].name !in p.existing then before[i]
                          else if AlwaysSays(p, Rename(name)) then before[i].(name := name)
                          else before[i].(skip := "name_collision")
  {
    forall i | 0 <= i < |before|
      ensures !Replaces(p, before, after[..i], i) && SettledAt(p, before, after[..i], i) == Some(after[i])
    {
    }
  }

  /** The servers that are not skipped. */
  function Wanted(s: seq<Found>): seq<Found> {
    if s == [] then [] else if s[0].skip == "" then [s[0]] + Wanted(s[1..]) else Wanted(s[1..])
  }

  function Names(s: seq<Found>): seq<string> {
    seq(|s|, i requires 0 <= i < |s| => s[i].name)
  }

  /** Of several servers with one name the first stays; names in `seen` are gone already. */
  function Deduped(s: seq<Found>, seen: set<string>): seq<Found> {
    if s == [] then []
    else
      var c := s[0];
      if c.skip != "" then [c] + Deduped(s[1..], seen)
      else if c.name in seen then [c.(skip := NAME_COLLISION)] + Deduped(s[1..], seen)
      else [c] + Deduped(s[1..], seen + {c.name})
  }

  function Head(c: Found, seen: set<string>): Found {
    if c.skip == "" && c.name in seen then c.(skip := NAME_COLLISION) else c
  }

  function SeenWith(c: Found, seen: set<string>): set<string> {
    if c.skip == "" then seen + {c.name} else seen
  }

  lemma DedupedStep(all: seq<Found>, i: nat, seen: set<string>, done: seq<Found>)
    requires i < |all|
    ensures done + Deduped(all[i..], seen)
            == done + [Head(all[i], seen)] + Deduped(all[i + 1..], SeenWith(all[i], seen))
  {
    assert all[i..][0] == all[i] && all[i..][1..] == all[i + 1..];
    assert all[i].skip == "" && all[i].name in seen ==> SeenWith(all[i], seen) == seen;
  }

  /** Second pass: duplicates within the selection. */
  method SkipDuplicates(selected: array<Found>)
    modifies selected
    ensures selected[..] == Deduped(old(selected[..]), {})
  {
    var seen: set<string> := {};
    ghost var all := selected[..];
    for i := 0 to selected.Length
      invariant forall j | i <= j < selected.Length :: selected[j] == all[j]
      invariant selected[..i] + Deduped(all[i..], seen) == Deduped(all, {})
    {
      ghost var done := selected[..i];
      DedupedStep(all, i, seen, done);
      if selected[i].skip == "" {
        if selected[i].name in seen {
          selected[i] := selected[i].(skip := NAME_COLLISION);
          assert SeenWith(all[i], seen) == seen;
        } else {
          seen := seen + {selected[i].name};
        }
      }
      assert selected[..i + 1] == done + [selected[i]];
    }
    assert selected[..] == selected[..selected.Length] && all[selected.Length..] == [];
  }

  /** The names that survive are the wanted names, each once, in the order of their first server. */
  lemma {:induction false} DedupedLaws(s: seq<Found>, seen: set<string>)
    ensures |Deduped(s, seen)| == |s|
    ensures forall i | 0 <= i < |s| ::
              var c := Deduped(s, seen)[i]; c == s[i] || (s[i].skip == "" && c == s[i].(skip := NAME_COLLISION))
    ensures var kept := Names(Wanted(Deduped(s, seen)));
            && Distinct(kept)
            && forall name :: name in kept <==> name in Names(Wanted(s)) && name !in seen
  {
    if s != [] {
      var c := s[0];
      var seen' := if c.skip == "" then seen + {c.name} else seen;
      DedupedLaws(s[1..], seen');
      var rest := Deduped(s[1..], seen');
      var head := if c.skip == "" && c.name in seen then c.(skip := NAME_COLLISION) else c;
      assert c.skip == "" && c.name in seen ==> seen' == seen;
      assert Deduped(s, seen) == [head] + rest;
      WantedCons(head, rest);
      WantedCons(c, s[1..]);
      assert s == [c] + s[1..];
    }
  }

  /** A wanted server of this name comes earlier. */
  predicate Repeats(s: seq<Found>, i: nat)
    requires i < |s|
  {
    s[i].skip == "" && exists j | 0 <= j < i :: s[j].skip == "" && s[j].name == s[i].name
  }

  /** Exactly the servers that repeat a name are skipped; all others are as they were. */
  ghost predicate OnlyFirstsStay(before: seq<Found>, after: seq<Found>) {
    && |after| == |before|
    && forall i | 0 <= i < |before| ::
         after[i] == if Repeats(before, i) then before[i].(skip := "name_collision") else before[i]
  }

  lemma {:induction false} DedupedAt(s: seq<Found>, seen: set<string>, i: nat)
    requires i < |s|
    ensures |Deduped(s, seen)| == |s|
    ensures Deduped(s, seen)[i] ==
            if s[i].skip == "" && (s[i].name in seen || Repeats(s, i)) then s[i].(skip := NAME_COLLISION) else s[i]
  {
    DedupedLaws(s, seen);
    DedupedTail(s, seen);
    if i > 0 {
      DedupedAt(s[1..], SeenWith(s[0], seen), i - 1);
      RepeatsSplit(s, i);
    }
  }

  /** The first server, and the others with its name seen. */
  lemma DedupedTail(s: seq<Found>, seen: set<string>)
    requires s != []
    ensures Deduped(s, seen) == [Head(s[0], seen)] + Deduped(s[1..], SeenWith(s[0], seen))
  {
    assert s[0].skip == "" && s[0].name in seen ==> SeenWith(s[0], seen) == seen;
  }

  lemma RepeatsSplit(s: seq<Found>, i: nat)
    requires 0 < i < |s|
    ensures s[1..][i - 1] == s[i]
    ensures Repeats(s, i) <==>
            (s[i].skip == "" && s[0].skip == "" && s[0].name == s[i].name) || Repeats(s[1..], i - 1)
  {
    assert forall j | 1 <= j < |s| :: s[1..][j - 1] == s[j];
    if Repeats(s, i) {
      var j :| 0 <= j < i && s[j].skip == "" && s[j].name == s[i].name;
      if j > 0 { assert s[1..][j - 1].name == s[i].name; }
    }
  }

  lemma DedupedIsFirsts(s: seq<Found>)
    ensures OnlyFirstsStay(s, Deduped(s, {}))
  {
    DedupedLaws(s, {});
    forall i | 0 <= i < |s|
      ensures Deduped(s, {})[i] == if Repeats(s, i) then s[i].(skip := NAME_COLLISION) else s[i]
    {
      DedupedAt(s, {}, i);
    }
  }

  lemma WantedCons(c: Found, s: seq<Found>)
    ensures Names(Wanted([c] + s)) == (if c.skip == "" then [c.name] else []) + Names(Wanted(s))
  {
    assert ([c] + s)[1..] == s;
  }

  lemma {:induction false} WantedOf(s: seq<Found>)
    ensures forall c :: c in Wanted(s) <==> c in s && c.skip == ""
    ensures |Wanted(s)| <= |s|
  {
    if s != [] {
      WantedOf(s[1..]);
      assert forall c :: c in s <==> c == s[0] || c in s[1..];
    }
  }

  /** Third pass: the servers to import, and how many are skipped. */
  method Partition(selected: seq<Found>) returns (importable: seq<Found>, skipped: nat)
    ensures importable == Wanted(selected)
    ensures |importable| + skipped == |selected|
  {
    importable, skipped := [], 0;
    for i := 0 to |selected|
      invariant importable + Wanted(selected[i..]) == Wanted(selected)
      invariant |importable| + skipped == i
    {
      assert selected[i..][0] == selected[i] && selected[i..][1..] == selected[i + 1..];
      if selected[i].skip == "" { importable := importable + [selected[i]]; } else { skipped := skipped + 1; }
    }
  }

  /** Fourth pass: the stack entries to remove, each once. */
  method OverwriteList(importable: seq<Found>, chosen: set<string>) returns (overwrites: seq<string>)
    ensures Distinct(overwrites)
    ensures forall name :: name in overwrites <==> name in Names(importable) && name in chosen
  {
    overwrites := [];
    var overwriting := chosen;
    for i := 0 to |importable|
      invariant Distinct(overwrites)
      invariant forall name :: name in overwriting <==> name in chosen && name !in Names(importable[..i])
      invariant forall name :: name in overwrites <==> name in chosen && name in Names(importable[..i])
    {
      assert Names(importable[..i + 1]) == Names(importable[..i]) + [importable[i].name];
      if importable[i].name in overwriting {
        overwrites := overwrites + [importable[i].name];
        overwriting := overwriting - {importable[i].name};
      }
    }
    assert importable[..|importable|] == importable;
  }

  /** Among the survivors exactly the chosen names are in the stack. */
  lemma Survivors(before: seq<Found>, existing: set<string>, chosen: set<string>)
    requires CollisionFree(existing, chosen, before)
    ensures var kept := Names(Wanted(Deduped(before, {})));
            Distinct(kept) && forall name | name in kept :: name in existing <==> name in chosen
  {
    DedupedLaws(before, {});
    forall name | name in Names(Wanted(before)) && name in existing ensures name in chosen {
      WantedIsFree(before, existing, chosen, name);
    }
  }

  lemma WantedIsFree(before: seq<Found>, existing: set<string>, chosen: set<string>, name: string)
    requires CollisionFree(existing, chosen, before)
    requires name in Names(Wanted(before)) && name in existing
    ensures name in chosen
  {
    var wanted := Wanted(before);
    var i :| 0 <= i < |wanted| && wanted[i].name == name;
    WantedOf(before);
    assert wanted[i] in wanted && wanted[i] in before;
  }

  /** What an import run that was not cancelled is going to do. */
  datatype Plan = Plan(importable: seq<Found>, overwrites: seq<string>, found: nat, skipped: nat)

  /**
   The passes of `runImport` up to the write. `scannedOut` is the number of servers the scan set aside,
   `candidates` the number it found importable; a part of them is `selected`. `settled` are the servers after
   the user's decisions.
   */
  method PlanImport(selected: array<Found>, p: Prompt, candidates: nat, scannedOut: nat)
    returns (plan: Option<Plan>, ghost settled: seq<Found>)
    requires RenamesToFree(p.resolve)
    modifies selected
    ensures plan.Some? ==>
              && |settled| == selected.Length && Settled(p, old(selected[..]), settled)
              && OnlyFirstsStay(settled, selected[..])
              && plan.value.importable == Wanted(selected[..])
              && PlanFits(p, plan.value)
              && |plan.value.importable| + plan.value.skipped == scannedOut + selected.Length
              && plan.value.found == candidates + scannedOut
    ensures plan.None? ==>
              |settled| < selected.Length && Settled(p, old(selected[..]), settled)
              && SettledAt(p, old(selected[..]), settled, |settled|) == None
    ensures plan.Some? && !p.interactive ==> plan.value.overwrites == []
  {
    ghost var before := selected[..];
    var chosen := ResolveCollisions(selected, p);
    if chosen.None? {
      ghost var i :| 0 <= i < selected.Length && Settled(p, before, selected[..i])
          && SettledAt(p, before, selected[..i], i) == None;
      settled := selected[..i];
      return None, settled;
    }
    settled := selected[..];
    SettledIsFree(p, before, settled, chosen.value);
    SkipDuplicates(selected);
    DedupedIsFirsts(settled);
    Survivors(settled, p.existing, chosen.value);
    var importable, skipped := Partition(selected[..]);
    var overwrites := OverwriteList(importable, chosen.value);
    assert overwrites != [] ==> overwrites[0] in overwrites;
    return Some(Plan(importable, overwrites, candidates + scannedOut, scannedOut + skipped)), settled;
  }

  /** The names to import are distinct, and the entries to remove are exactly those among them that are in the stack. */
  ghost predicate PlanFits(p: Prompt, plan: Plan) {
    && Distinct(Names(plan.importable))
    && Distinct(plan.overwrites)
    && forall name :: name in plan.overwrites <==> name in Names(plan.importable) && name in p.existing
  }

  /***** The stack's server names after the write *****/

  /** The entry list without the first entry of that name; None when there is none. */
  function Without(names: seq<string>, name: string): Option<seq<string>> {
    if names == [] then None
    else if names[0] == name then Some(names[1..])
    else
      var rest := Without(names[1..], name);
      if rest.None? then None else Some([names[0]] + rest.value)
  }

  lemma {:induction false} WithoutLaws(names: seq<string>, name: string)
    ensures Without(names, name).Some? <==> name in names
    ensures Without(names, name).Some? ==> multiset(Without(names, name).value) == multiset(names) - multiset{name}
  {
    if names != [] {
      var head, tail := names[0], names[1..];
      assert names == [head] + tail;
      assert multiset(names) == multiset{head} + multiset(tail);
      if head != name {
        WithoutLaws(tail, name);
        var rest := Without(tail, name);
        if rest.Some? { assert multiset([head] + rest.value) == multiset{head} + multiset(rest.value); }
      }
    }
  }

  /** One more removal: it is possible exactly when the names hold everything removed so far and this one. */
  lemma RemoveOneMore(names: seq<string>, gone: seq<string>, name: string, now: seq<string>)
    requires multiset(gone) <= multiset(names)
    requires multiset(now) == multiset(names) - multiset(gone)
    ensures multiset(gone + [name]) == multiset(gone) + multiset{name}
    ensures name in now <==> multiset(gone + [name]) <= multiset(names)
    ensures multiset(now) - multiset{name} == multiset(names) - multiset(gone + [name])
  {
    var m, g := multiset(names), multiset(gone);
    assert multiset(gone + [name]) == g + multiset{name};
    assert name in now <==> multiset(now)[name] > 0;
    assert multiset(now)[name] == m[name] - g[name];
    assert (g + multiset{name})[name] == g[name] + 1;
    if name in now { assert g + multiset{name} <= m; }
  }

  lemma PrefixCounts(s: seq<string>, i: nat)
    requires i < |s|
    ensures s[..i + 1] == s[..i] + [s[i]]
    ensures multiset(s[..i + 1]) <= multiset(s)
  {
    assert s == s[..i + 1] + s[i + 1..];
    assert multiset(s) == multiset(s[..i + 1]) + multiset(s[i + 1..]);
  }

  /** The names that are not among the others, in order. */
  ghost function Keeping(names: seq<string>, others: seq<string>): seq<string> {
    if names == [] then [] else (if names[0] in others then [] else [names[0]]) + Keeping(names[1..], others)
  }

  lemma {:induction false} KeepingConcat(a: seq<string>, b: seq<string>, others: seq<string>)
    ensures Keeping(a + b, others) == Keeping(a, others) + Keeping(b, others)
  {
    if a == [] {
      assert a + b == b;
    } else {
      assert (a + b)[0] == a[0] && (a + b)[1..] == a[1..] + b;
      KeepingConcat(a[1..], b, others);
      Associative(if a[0] in others then [] else [a[0]], Keeping(a[1..], others), Keeping(b, others));
    }
  }

  lemma {:induction false} KeepingWithout(names: seq<string>, name: string, others: seq<string>)
    requires name in others && Without(names, name).Some?
    ensures Keeping(Without(names, name).value, others) == Keeping(names, others)
    ensures |Without(names, name).value| == |names| - 1
  {
    if names[0] != name {
      KeepingWithout(names[1..], name, others);
      var rest := Without(names[1..], name).value;
      assert ([names[0]] + rest)[1..] == rest;
    }
  }

  lemma {:induction false} KeepingTwice(names: seq<string>, fewer: seq<string>, others: seq<string>)
    requires forall n <- fewer :: n in others
    ensures Keeping(Keeping(names, fewer), others) == Keeping(names, others)
  {
    if names != [] {
      KeepingTwice(names[1..], fewer, others);
      var head: seq<string> := if names[0] in fewer then [] else [names[0]];
      KeepingConcat(head, Keeping(names[1..], fewer), others);
      assert [names[0]][1..] == [];
    }
  }

  lemma {:induction false} KeepingNone(names: seq<string>, others: seq<string>)
    requires forall n <- names :: n in others
    ensures Keeping(names, others) == []
  {
    if names != [] {
      assert names[0] in names && forall n <- names[1..] :: n in names;
      KeepingNone(names[1..], others);
    }
  }

  /** The new names come last, the others stay in order. */
  ghost predicate InOrder(names: seq<string>, servers: seq<string>, overwrites: seq<string>, updated: seq<string>) {
    && |updated| >= |servers| && updated[|updated| - |servers|..] == servers
    && Keeping(updated[..|updated| - |servers|], overwrites) == Keeping(names, overwrites)
  }

  lemma OthersInOrder(names: seq<string>, servers: seq<string>, overwrites: seq<string>, updated: seq<string>)
    requires InOrder(names, servers, overwrites, updated) && forall n <- overwrites :: n in servers
    ensures Keeping(updated, servers) == Keeping(names, servers)
  {
    var kept := updated[..|updated| - |servers|];
    assert updated == kept + servers;
    KeepingConcat(kept, servers, servers);
    KeepingNone(servers, servers);
    KeepingTwice(kept, overwrites, servers);
    KeepingTwice(names, overwrites, servers);
  }

  /** The names part of `writeServersToStack`: remove the overwritten entries, then append the batch. */
  method WriteServers(names: seq<string>, servers: seq<string>, overwrites: seq<string>)
                      returns (updated: Option<seq<string>>)
    ensures updated.Some? ==> multiset(updated.value) == multiset(names) - multiset(overwrites) + multiset(servers)
    ensures updated.Some? <==> servers != [] && multiset(overwrites) <= multiset(names)
    ensures updated.Some? ==> InOrder(names, servers, overwrites, updated.value)
  {
    var now := names;
    for i := 0 to |overwrites|
      invariant multiset(overwrites[..i]) <= multiset(names)
      invariant multiset(now) == multiset(names) - multiset(overwrites[..i])
      invariant Keeping(now, overwrites) == Keeping(names, overwrites)
    {
      WithoutLaws(now, overwrites[i]);
      PrefixCounts(overwrites, i);
      RemoveOneMore(names, overwrites[..i], overwrites[i], now);
      var less := Without(now, overwrites[i]);
      if less.None? { return None; }
      KeepingWithout(now, overwrites[i], overwrites);
      now := less.value;
    }
    assert overwrites[..|overwrites|] == overwrites;
    if servers == [] { return None; }
    assert (now + servers)[..|now|] == now && (now + servers)[|now|..] == servers;
    return Some(now + servers);
  }

  /** Every name but the empty one occurs at most once. */
  ghost predicate UniqueNames(names: seq<string>) {
    forall name | name != "" :: multiset(names)[name] <= 1
  }

  lemma {:induction false} DistinctCounts(s: seq<string>)
    requires Distinct(s)
    ensures forall x :: multiset(s)[x] <= 1
  {
    if s != [] {
      DistinctCounts(s[1..]);
      assert s == [s[0]] + s[1..];
    }
  }

  /**
   Carrying out a plan always succeeds, and leaves unique names where they were unique. `existing` is what
   `stackServerNames` reports: the names in the stack, without the empty one.
   */
  lemma PlanKeepsNamesUnique(names: seq<string>, existing: set<string>, servers: seq<string>, overwrites: seq<string>,
                             updated: Option<seq<string>>)
    requires existing == set n | n in names && n != ""
    requires Distinct(servers) && servers != [] && Distinct(overwrites)
    requires forall n :: n in overwrites <==> n in servers && n in existing
    requires updated.Some? ==> multiset(updated.value) == multiset(names) - multiset(overwrites) + multiset(servers)
    requires updated.Some? <==> servers != [] && multiset(overwrites) <= multiset(names)
    ensures updated.Some? && (UniqueNames(names) ==> UniqueNames(updated.value))
    ensures forall n | n in servers :: n in updated.value
    ensures forall n | n !in servers :: multiset(updated.value)[n] == multiset(names)[n]
  {
    DistinctCounts(servers);
    DistinctCounts(overwrites);
    forall n ensures multiset(overwrites)[n] <= multiset(names)[n] {
      if n in overwrites { assert n in existing; }
    }
    assert updated.Some?;
    forall n | n != "" && multiset(names)[n] <= 1 ensures multiset(updated.value)[n] <= 1 {
      if n in servers && n in names { assert n in overwrites; }
    }
    forall n | n in servers ensures n in updated.value {
      assert n in multiset(servers) && n in multiset(updated.value);
    }
  }

  /***** A whole run *****/

  /** The names `stackServerNames` reports. */
  function ExistingNames(names: seq<string>): set<string> {
    set name | name in names && name != ""
  }

  /**
   An import into a stack with these server names: the passes, then the write, unless the user cancels or declines,
   nothing is left to import, or it is a dry run (`confirmed` is false).
   */
  method RunImport(selected: array<Found>, names: seq<string>, interactive: bool, resolve: Resolver, confirmed: bool)
    returns (updated: Option<seq<string>>, ghost settled: seq<Found>)
    requires RenamesToFree(resolve)
    modifies selected
    ensures var p := Prompt(ExistingNames(names), interactive, resolve);
            && (updated.Some? ==>
                  && |settled| == selected.Length && Settled(p, old(selected[..]), settled)
                  && OnlyFirstsStay(settled, selected[..])
                  && Imports(names, Names(Wanted(selected[..])), updated.value))
            && (updated.None? ==>
                  || !confirmed
                  || (|settled| < selected.Length && SettledAt(p, old(selected[..]), settled, |settled|) == None)
                  || Wanted(selected[..]) == [])
  {
    var plan;
    plan, settled := PlanImport(selected, Prompt(ExistingNames(names), interactive, resolve), selected.Length, 0);
    if plan.None? || plan.value.importable == [] || !confirmed { return None, settled; }
    var servers := Names(plan.value.importable);
    updated := WriteServers(names, servers, plan.value.overwrites);
    PlanKeepsNamesUnique(names, ExistingNames(names), servers, plan.value.overwrites, updated);
    OthersInOrder(names, servers, plan.value.overwrites, updated.value);
  }

  /** Unique names stay unique, the imported names come last, and all other names stay as they were and in order. */
  ghost predicate Imports(names: seq<string>, servers: seq<string>, updated: seq<string>) {
    && (UniqueNames(names) ==> UniqueNames(updated))
    && (forall n <- servers :: n in updated)
    && (forall n | n !in servers :: multiset(updated)[n] == multiset(names)[n])
    && |updated| >= |servers| && updated[|updated| - |servers|..] == servers
    && Keeping(updated, servers) == Keeping(names, servers)
  }
}
