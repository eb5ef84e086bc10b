/**
 What linking and unlinking achieve when nobody interferes: the whole effect of a request, and what is
 left after linking a client and unlinking it again.
 */
module LinkUnlink {
  import opened Base
  import opened ScopePatch
  import opened LinkBlock
  import opened LinkProtocol

  ghost predicate Quiet<V(!new)>(actions: seq<Action<V>>) {
    forall i | 0 <= i < |actions| :: actions[i].Next?
  }

  /** The name a request works on. */
  function NameOf<V>(c: Setting<V>, r: LinkRequest, base: Node): string {
    if r.Link? then EffectiveName(r.entry) else TargetName(c.rest, base, r.entry)
  }

  function Verdict<V(==)>(c: Setting<V>, r: LinkRequest, w: World<V>, name: string): Ownership {
    if r.Link? then DecideLink(w, name, c.planned(r.entry), r.force) else DecideUnlink(w, name)
  }

  /** The client's side after the request: the entry is in place and recorded, or both are gone. */
  function ClientWorld<V(==)>(c: Setting<V>, r: LinkRequest, w: World<V>, name: string): World<V> {
    w.(config := if r.Link? then w.config[name := c.planned(r.entry)] else w.config - {name},
       records := SavedRecords(c, r, name, w.records))
  }

  function StackAfter(r: LinkRequest, base: Node): Option<Node> {
    var updated := if r.Link? then Upsert(base, r.entry) else Remove(base, r.entry.client);
    if updated.Ok? then Some(updated.value) else None
  }

  /** Everything a successful request changes. */
  function WholeEffect<V(==)>(c: Setting<V>, r: LinkRequest, w: World<V>): World<V>
    requires w.stack.Some?
  {
    var base := w.stack.value;
    var client := ClientWorld(c, r, w, NameOf(c, r, base));
    if StackAfter(r, base).Some? then client.(stack := StackAfter(r, base)) else client
  }

  /** Where an undisturbed request on an installed client stands, against the world it started in. */
  ghost predicate Undisturbed<V(!new)>(c: Setting<V>, r: LinkRequest, w: World<V>, phase: Phase<V>, now: World<V>) {
    match phase
    case Fresh => now == w
    case Detected => now == w
    case HasBase(base) => now == w && w.stack == Some(base)
    case HasPatch(base, name, updated) => now == w && Prepared(c, r, w, base, name, updated)
    case Decided(p) => now == w && IsJudged(c, r, w, p)
    case EntryDone(p) => now == w.(config := ClientWorld(c, r, w, p.name).config) && IsJudged(c, r, w, p)
    case RecordDone(p) => now == ClientWorld(c, r, w, p.name) && IsRecorded(c, r, w, p)
    case Checked(p) => now == ClientWorld(c, r, w, p.name) && IsRecorded(c, r, w, p)
    case Done(response) => if w.stack.Some? then Answered(c, r, w, response, now) else response == Failed && now == w
  }

  ghost predicate Prepared<V(!new)>(c: Setting<V>, r: LinkRequest, w: World<V>, base: Node, name: string,
                             updated: Option<Node>) {
    && w.stack == Some(base) && Planned(c, r, base, name, updated) && updated == StackAfter(r, base)
        && name == NameOf(c, r, base)
  }

  ghost predicate IsJudged<V(!new)>(c: Setting<V>, r: LinkRequest, w: World<V>, p: Plan<V>) {
    && Prepared(c, r, w, p.base, p.name, p.updated) && p.records == w.records
    && p.what == Verdict(c, r, w, p.name) && p.what !in {Nothing, Refuse}
  }

  ghost predicate IsRecorded<V(!new)>(c: Setting<V>, r: LinkRequest, w: World<V>, p: Plan<V>) {
    && Prepared(c, r, w, p.base, p.name, p.updated) && p.updated.Some?
    && p.what == Verdict(c, r, w, p.name) && p.what != Refuse
  }

  /** What an answer says about the world a request leaves. */
  ghost predicate Answered<V(!new)>(c: Setting<V>, r: LinkRequest, w: World<V>, response: Response, now: World<V>)
    requires w.stack.Some?
  {
    var base := w.stack.value;
    var name := NameOf(c, r, base);
    match response
    case Linked(already) =>
      && r.Link? && now == WholeEffect(c, r, w) && StackAfter(r, base).Some?
      && (r.entry.group != "" ==> DeclaresGroup(c.rest, base, r.entry.group))
      && Verdict(c, r, w, name) != Refuse && already == (Verdict(c, r, w, name) == Unchanged)
    case Unlinked =>
      && r.Unlink? && now == WholeEffect(c, r, w) && Verdict(c, r, w, name) != Refuse
      && (StackAfter(r, base).Some? || Verdict(c, r, w, name) != Nothing)
    case Conflict => now == w && Verdict(c, r, w, name) == Refuse
    case NeitherLinkedNorDeclared => r.Unlink? && now == w && Verdict(c, r, w, name) == Nothing
        && StackAfter(r, base).None?
    case StackNotUpdated => now == ClientWorld(c, r, w, name)
    case Failed => now == w || now == w.(config := ClientWorld(c, r, w, name).config)
    case _ => now == w
  }

  /** An entry that needs no write is already as the request wants it. */
  lemma NoWriteNeeded<V(!new)>(c: Setting<V>, r: LinkRequest, w: World<V>, name: string)
    ensures Verdict(c, r, w, name) in {Adopt, Unchanged, Purge, Nothing} ==>
            ClientWorld(c, r, w, name).config == w.config
    ensures Verdict(c, r, w, name) == Nothing ==> ClientWorld(c, r, w, name) == w
    ensures Verdict(c, r, w, name) in if r.Link? then {Write, Adopt, Unchanged, Refuse}
            else {Delete, Purge, Nothing, Refuse}
  {
  }

  lemma BeforeAnyWrite<V(!new)>(c: Setting<V>, r: LinkRequest, w: World<V>, phase: Phase<V>, outcome: Outcome)
    requires w.installed && Undisturbed(c, r, w, phase, w) && (phase.Fresh? || phase.Detected? || phase.HasBase?)
    ensures var e := Advance(c, r, w, phase, outcome); Undisturbed(c, r, w, e.phase, e.world)
  {
  }

  lemma OnDecision<V(!new)>(c: Setting<V>, r: LinkRequest, w: World<V>, phase: Phase<V>, outcome: Outcome)
    requires w.installed && Undisturbed(c, r, w, phase, w) && phase.HasPatch?
    ensures var e := Advance(c, r, w, phase, outcome); Undisturbed(c, r, w, e.phase, e.world)
  {
    NoWriteNeeded(c, r, w, phase.name);
  }

  lemma OnEntry<V(!new)>(c: Setting<V>, r: LinkRequest, w: World<V>, phase: Phase<V>, outcome: Outcome)
    requires Undisturbed(c, r, w, phase, w) && phase.Decided?
    ensures var e := Advance(c, r, w, phase, outcome); Undisturbed(c, r, w, e.phase, e.world)
  {
    NoWriteNeeded(c, r, w, phase.plan.name);
  }

  lemma OnRecord<V(!new)>(c: Setting<V>, r: LinkRequest, w: World<V>, phase: Phase<V>, now: World<V>, outcome: Outcome)
    requires Undisturbed(c, r, w, phase, now) && phase.EntryDone?
    ensures var e := Advance(c, r, now, phase, outcome); Undisturbed(c, r, w, e.phase, e.world)
  {
    NoWriteNeeded(c, r, w, phase.plan.name);
  }

  lemma OnStack<V(!new)>(c: Setting<V>, r: LinkRequest, w: World<V>, phase: Phase<V>, now: World<V>, outcome: Outcome)
    requires Undisturbed(c, r, w, phase, now) && (phase.RecordDone? || phase.Checked?)
    ensures var e := Advance(c, r, now, phase, outcome); Undisturbed(c, r, w, e.phase, e.world)
  {
  }

  lemma AnyStep<V(!new)>(c: Setting<V>, r: LinkRequest, w: World<V>, phase: Phase<V>, now: World<V>, outcome: Outcome)
    requires w.installed && Undisturbed(c, r, w, phase, now) && !phase.Done?
    ensures var e := Advance(c, r, now, phase, outcome); Undisturbed(c, r, w, e.phase, e.world)
  {
    if phase.Fresh? || phase.Detected? || phase.HasBase? {
      BeforeAnyWrite(c, r, w, phase, outcome);
    } else if phase.HasPatch? {
      OnDecision(c, r, w, phase, outcome);
    } else if phase.Decided? {
      OnEntry(c, r, w, phase, outcome);
    } else if phase.EntryDone? {
      OnRecord(c, r, w, phase, now, outcome);
    } else {
      OnStack(c, r, w, phase, now, outcome);
    }
  }

  lemma {:induction false} RunUndisturbed<V(!new)>(c: Setting<V>, r: LinkRequest, w: World<V>, s: System<V>,
                                actions: seq<Action<V>>)
    requires w.installed && Undisturbed(c, r, w, s.phase, s.world) && Quiet(actions) && Run(c, r, s, actions).Some?
    ensures var s' := Run(c, r, s, actions).value; Undisturbed(c, r, w, s'.phase, s'.world)
    decreases |actions|
  {
    if actions != [] {
      AnyStep(c, r, w, s.phase, s.world, actions[0].outcome);
      RunUndisturbed(c, r, w, Step(c, r, s, actions[0]).value, actions[1..]);
    }
  }

  /** Linking a client that is not installed does nothing. */
  lemma {:induction false} NotInstalled<V(!new)>(c: Setting<V>, r: LinkRequest, w: World<V>, s: System<V>,
                                actions: seq<Action<V>>)
    requires r.Link? && !w.installed && s.world == w && (s.phase == Fresh || s.phase == Done(NotDetected))
    requires Quiet(actions) && Run(c, r, s, actions).Some?
    ensures var s' := Run(c, r, s, actions).value; s'.world == w && (s'.phase == Fresh || s'.phase == Done(NotDetected))
    decreases |actions|
  {
    if actions != [] { NotInstalled(c, r, w, Step(c, r, s, actions[0]).value, actions[1..]); }
  }

  /***** Unlinking a client that is gone from the machine *****/

  /** The record may be dropped; the client's configuration is not looked at. */
  ghost predicate MaybeForgotten<V(!new)>(w: World<V>, name: string, forgot: bool, now: World<V>) {
    now == (if forgot then w.(records := w.records - {name}) else w) && (forgot ==> name in w.records)
  }

  /** Where such a request stands. `smooth`: nothing has failed, so a record that is there is dropped. */
  ghost predicate Absent<V(!new)>(c: Setting<V>, r: LinkRequest, w: World<V>, smooth: bool, phase: Phase<V>,
                           now: World<V>) {
    match phase
    case Fresh => now == w
    case Detected => now == w
    case HasBase(base) => now == w && w.stack == Some(base)
    case HasPatch(base, name, updated) => now == w && Prepared(c, r, w, base, name, updated)
    case Decided(p) => now == w && IsForgetting(c, r, w, p)
    case EntryDone(p) => now == w && IsForgetting(c, r, w, p)
    case RecordDone(p) => IsForgotten(c, r, w, smooth, p, now)
    case Checked(p) => IsForgotten(c, r, w, smooth, p, now)
    case Done(response) =>
      if w.stack.Some? then exists forgot :: AbsentAnswer(c, r, w, smooth, forgot, response, now)
      else response == Failed && now == w
  }

  ghost predicate IsForgetting<V(!new)>(c: Setting<V>, r: LinkRequest, w: World<V>, p: Plan<V>) {
    Prepared(c, r, w, p.base, p.name, p.updated) && p.what == Forget && p.name in w.records && p.records == w.records
  }

  ghost predicate IsForgotten<V(!new)>(c: Setting<V>, r: LinkRequest, w: World<V>, smooth: bool, p: Plan<V>,
                                now: World<V>) {
    && Prepared(c, r, w, p.base, p.name, p.updated) && p.updated.Some? && p.what in {Forget, Nothing}
    && MaybeForgotten(w, p.name, p.what == Forget, now)
    && (smooth && p.name in w.records ==> p.what == Forget)
  }

  ghost predicate AbsentAnswer<V(!new)>(c: Setting<V>, r: LinkRequest, w: World<V>, smooth: bool, forgot: bool,
                                response: Response, now: World<V>)
    requires w.stack.Some?
  {
    var base := w.stack.value;
    var name, after := NameOf(c, r, base), StackAfter(r, base);
    && (smooth && name in w.records && response in {Unlinked, NeitherLinkedNorDeclared} ==> forgot)
    && match response
       case Unlinked =>
         && MaybeForgotten(w.(stack := if after.Some? then after else w.stack), name, forgot, now)
         && (after.Some? || forgot)
       case NeitherLinkedNorDeclared => now == w && !forgot && after.None?
       case StackNotUpdated => MaybeForgotten(w, name, forgot, now) && after.Some?
       case Failed => now == w
       case _ => false
  }

  lemma AbsentStep<V(!new)>(c: Setting<V>, r: LinkRequest, w: World<V>, smooth: bool, phase: Phase<V>, now: World<V>,
                     outcome: Outcome)
    requires r.Unlink? && !w.installed && Absent(c, r, w, smooth, phase, now) && !phase.Done?
            && (smooth ==> outcome == Succeeds)
    ensures var e := Advance(c, r, now, phase, outcome); Absent(c, r, w, smooth, e.phase, e.world)
  {
    var e := Advance(c, r, now, phase, outcome);
    if phase.RecordDone? || phase.Checked? {
      AbsentStackStep(c, r, w, smooth, phase, now, outcome);
    } else if e.phase.Done? && w.stack.Some? {
      assert AbsentAnswer(c, r, w, smooth, phase.EntryDone?, e.phase.response, e.world);
    }
  }

  lemma AbsentStackStep<V(!new)>(c: Setting<V>, r: LinkRequest, w: World<V>, smooth: bool, phase: Phase<V>,
                          now: World<V>, outcome: Outcome)
    requires r.Unlink? && (phase.RecordDone? || phase.Checked?) && IsForgotten(c, r, w, smooth, phase.plan, now)
    ensures var e := Advance(c, r, now, phase, outcome); Absent(c, r, w, smooth, e.phase, e.world)
  {
    var e := Advance(c, r, now, phase, outcome);
    if e.phase.Done? { assert AbsentAnswer(c, r, w, smooth, phase.plan.what == Forget, e.phase.response, e.world); }
  }

  ghost predicate Smooth<V(!new)>(actions: seq<Action<V>>) {
    forall i | 0 <= i < |actions| :: actions[i] == Next(Succeeds)
  }

  /**
   Unlinking a client that is gone, undisturbed: its configuration is not touched, it is never refused, and success
   means the declaration is gone, if there was one, and the record too, if dropping it did not fail.
   */
  lemma {:induction false} UnlinkOfMissing<V(!new)>(c: Setting<V>, r: LinkRequest, w: World<V>, smooth: bool,
                                s: System<V>, actions: seq<Action<V>>)
    requires r.Unlink? && !w.installed && Absent(c, r, w, smooth, s.phase, s.world) && (smooth ==> Smooth(actions))
    requires Quiet(actions) && Run(c, r, s, actions).Some?
    ensures var s' := Run(c, r, s, actions).value; Absent(c, r, w, smooth, s'.phase, s'.world)
    decreases |actions|
  {
    if actions != [] {
      AbsentStep(c, r, w, smooth, s.phase, s.world, actions[0].outcome);
      UnlinkOfMissing(c, r, w, smooth, Step(c, r, s, actions[0]).value, actions[1..]);
    }
  }

  /** Every undisturbed run, installed client or not: what it has done and, at the end, what its answer says. */
  lemma EveryQuietRun<V(!new)>(c: Setting<V>, r: LinkRequest, w: World<V>, actions: seq<Action<V>>)
    requires Quiet(actions) && Run(c, r, Start(w), actions).Some?
    ensures var s := Run(c, r, Start(w), actions).value;
            if w.installed then Undisturbed(c, r, w, s.phase, s.world)
            else if r.Link? then s.world == w && (s.phase == Fresh || s.phase == Done(NotDetected))
            else Absent(c, r, w, Smooth(actions), s.phase, s.world)
  {
    if w.installed {
      RunUndisturbed(c, r, w, Start(w), actions);
    } else if r.Link? {
      NotInstalled(c, r, w, Start(w), actions);
    } else {
      UnlinkOfMissing(c, r, w, Smooth(actions), Start(w), actions);
    }
  }

  /***** Success *****/

  /** The whole effect of an undisturbed link request that reports success. */
  lemma LinkEffect<V(!new)>(c: Setting<V>, r: LinkRequest, w: World<V>, actions: seq<Action<V>>)
    requires r.Link? && Quiet(actions) && Run(c, r, Start(w), actions).Some?
    requires var s := Run(c, r, Start(w), actions).value; s.phase.Done? && s.phase.response.Linked?
    ensures w.installed && w.stack.Some? && Upsert(w.stack.value, r.entry).Ok?
    ensures r.entry.group != "" ==> DeclaresGroup(c.rest, w.stack.value, r.entry.group)
    ensures Run(c, r, Start(w), actions).value.world == WholeEffect(c, r, w)
    ensures LinkAllowed(w, EffectiveName(r.entry), c.planned(r.entry), r.force)
    ensures OthersDeclared(c.rest, w.stack.value, Upsert(w.stack.value, r.entry).value, r.entry.client)
  {
    LinkVerdicts(w, EffectiveName(r.entry), c.planned(r.entry), r.force);
    if w.stack.Some? && Upsert(w.stack.value, r.entry).Ok? {
      LinkKeepsOthers(c, r.entry, w.stack.value);
    }
    if !w.installed {
      NotInstalled(c, r, w, Start(w), actions);
    } else {
      RunUndisturbed(c, r, w, Start(w), actions);
    }
  }

  lemma LinkKeepsOthers<V(!new)>(c: Setting<V>, e: Entry, base: Node)
    requires Upsert(base, e).Ok?
    ensures OthersDeclared(c.rest, base, Upsert(base, e).value, e.client)
  {
    UpsertDeclares(c.rest, base, e);
    if Decodes(c.rest, base) {
      forall other | other != "" && other != e.client
        ensures Declared(c.rest, Upsert(base, e).value, other) == Declared(c.rest, base, other)
      {
        UpsertKeepsOthers(c.rest, base, e, other);
      }
    }
  }

  /**
   The request can succeed. For a link: the stack can be patched, the group is known, and the entry is missing, in
   place, one gridctl wrote, or forced. For an unlink: the stack is a mapping, and the entry is missing or one
   gridctl wrote.
   */
  ghost predicate Ready<V(!new)>(c: Setting<V>, r: LinkRequest, w: World<V>) {
    && w.installed && w.stack.Some? && w.stack.value.Mapping?
    && if r.Link? then
         && Upsert(w.stack.value, r.entry).Ok?
         && (r.entry.group != "" ==> DeclaresGroup(c.rest, w.stack.value, r.entry.group))
         && LinkAllowed(w, EffectiveName(r.entry), c.planned(r.entry), r.force)
       else
         UnlinkAllowed(w, TargetName(c.rest, w.stack.value, r.entry))
  }

  /** What a request that can succeed answers when nothing fails. */
  function Success<V(==)>(c: Setting<V>, r: LinkRequest, w: World<V>): Response
    requires w.stack.Some?
  {
    var base := w.stack.value;
    var name := NameOf(c, r, base);
    if r.Link? then Linked(name in w.config && w.config[name] == c.planned(r.entry) && name in w.records)
    else if Remove(base, r.entry.client).Err? && name !in w.config && name !in w.records then NeitherLinkedNorDeclared
    else Unlinked
  }

  lemma ReadyVerdict<V(!new)>(c: Setting<V>, r: LinkRequest, w: World<V>, name: string)
    ensures r.Link? ==> (Verdict(c, r, w, name) == Refuse <==> !LinkAllowed(w, name, c.planned(r.entry), r.force))
    ensures r.Link? ==>
              (Verdict(c, r, w, name) == Unchanged <==>
                 name in w.config && w.config[name] == c.planned(r.entry) && name in w.records)
    ensures r.Unlink? ==> (Verdict(c, r, w, name) == Refuse <==> !UnlinkAllowed(w, name))
    ensures r.Unlink? ==> (Verdict(c, r, w, name) == Nothing <==> name !in w.config && name !in w.records)
  {
    if r.Link? { LinkVerdicts(w, name, c.planned(r.entry), r.force); } else { UnlinkVerdicts(w, name); }
  }

  /** A request that cannot succeed because the entry is somebody else's is refused, and only such a request is. */
  lemma RefusedExactly<V(!new)>(c: Setting<V>, r: LinkRequest, w: World<V>, actions: seq<Action<V>>)
    requires w.installed && w.stack.Some? && Quiet(actions) && Run(c, r, Start(w), actions).Some?
    requires Run(c, r, Start(w), actions).value.phase.Done?
    ensures var response, name := Run(c, r, Start(w), actions).value.phase.response, NameOf(c, r, w.stack.value);
            var allowed := if r.Link? then LinkAllowed(w, name, c.planned(r.entry), r.force)
                else UnlinkAllowed(w, name);
            && (response == Conflict ==> !allowed)
            && (response.Linked? || response == Unlinked || response == NeitherLinkedNorDeclared ==> allowed)
  {
    RunUndisturbed(c, r, w, Start(w), actions);
    ReadyVerdict(c, r, w, NameOf(c, r, w.stack.value));
  }

  function Rank<V>(phase: Phase<V>): nat {
    match phase
    case Fresh => 8
    case Detected => 7
    case HasBase(_) => 6
    case HasPatch(_, _, _) => 5
    case Decided(_) => 4
    case EntryDone(_) => 3
    case RecordDone(_) => 2
    case Checked(_) => 1
    case Done(_) => 0
  }

  ghost predicate OnTheWay<V(!new)>(phase: Phase<V>, next: Phase<V>) {
    && Rank(next) < Rank(phase)
    && (next.Done? ==> next.response.Linked? || next.response == Unlinked || next.response == NeitherLinkedNorDeclared)
  }

  lemma ReadyRead<V(!new)>(c: Setting<V>, r: LinkRequest, w: World<V>, phase: Phase<V>)
    requires Ready(c, r, w) && Undisturbed(c, r, w, phase, w) && (phase.Fresh? || phase.Detected? || phase.HasBase?)
    ensures OnTheWay(phase, Advance(c, r, w, phase, Succeeds).phase)
  {
  }

  lemma ReadyDecision<V(!new)>(c: Setting<V>, r: LinkRequest, w: World<V>, phase: Phase<V>)
    requires Ready(c, r, w) && Undisturbed(c, r, w, phase, w) && phase.HasPatch?
    ensures OnTheWay(phase, Advance(c, r, w, phase, Succeeds).phase)
  {
    ReadyPlan(c, r, w, phase.base, phase.name, phase.updated);
    HasPatchGoesOn(c, r, w, phase);
  }

  lemma ReadyPlan<V(!new)>(c: Setting<V>, r: LinkRequest, w: World<V>, base: Node, name: string, updated: Option<Node>)
    requires Ready(c, r, w) && Prepared(c, r, w, base, name, updated)
    ensures Verdict(c, r, w, name) != Refuse
  {
    ReadyVerdict(c, r, w, name);
  }

  lemma HasPatchGoesOn<V(!new)>(c: Setting<V>, r: LinkRequest, w: World<V>, phase: Phase<V>)
    requires w.installed && phase.HasPatch? && Verdict(c, r, w, phase.name) != Refuse
    ensures OnTheWay(phase, Advance(c, r, w, phase, Succeeds).phase)
  {
    JudgeGoesOn(c, r, w, Plan(phase.base, phase.name, phase.updated, Nothing, w.records));
  }

  lemma JudgeGoesOn<V(!new)>(c: Setting<V>, r: LinkRequest, w: World<V>, plan: Plan<V>)
    requires w.installed && Verdict(c, r, w, plan.name) != Refuse
    ensures var next := Judge(c, r, w, plan, true).phase;
            next.Decided? || next.RecordDone? || next in {Done(Unlinked), Done(NeitherLinkedNorDeclared)}
  {
  }

  lemma ReadyClient<V(!new)>(c: Setting<V>, r: LinkRequest, w: World<V>, phase: Phase<V>, now: World<V>)
    requires (phase.Decided? || phase.EntryDone?)
    ensures OnTheWay(phase, Advance(c, r, now, phase, Succeeds).phase)
  {
  }

  lemma ReadyStack<V(!new)>(c: Setting<V>, r: LinkRequest, phase: Phase<V>, now: World<V>)
    requires (phase.RecordDone? || phase.Checked?) && phase.plan.updated.Some? && now.stack == Some(phase.plan.base)
    ensures OnTheWay(phase, Advance(c, r, now, phase, Succeeds).phase)
  {
  }

  lemma ReadyStep<V(!new)>(c: Setting<V>, r: LinkRequest, w: World<V>, phase: Phase<V>, now: World<V>)
    requires Ready(c, r, w) && Undisturbed(c, r, w, phase, now) && !phase.Done?
    ensures OnTheWay(phase, Advance(c, r, now, phase, Succeeds).phase)
  {
    if phase.Fresh? || phase.Detected? || phase.HasBase? {
      ReadyRead(c, r, w, phase);
    } else if phase.HasPatch? {
      ReadyDecision(c, r, w, phase);
    } else if phase.Decided? || phase.EntryDone? {
      ReadyClient(c, r, w, phase, now);
    } else {
      ReadyStack(c, r, phase, now);
    }
  }

  lemma ReadyAnswer<V(!new)>(c: Setting<V>, r: LinkRequest, w: World<V>, response: Response, now: World<V>)
    requires w.stack.Some? && Answered(c, r, w, response, now)
    requires response.Linked? || response == Unlinked || response == NeitherLinkedNorDeclared
    ensures response == Success(c, r, w) && now == WholeEffect(c, r, w)
  {
    ReadyVerdict(c, r, w, NameOf(c, r, w.stack.value));
    NoWriteNeeded(c, r, w, NameOf(c, r, w.stack.value));
  }

  /** A request that can succeed does, when nothing fails: its answer and the world it leaves are determined. */
  lemma {:induction false} ReadySucceeds<V(!new)>(c: Setting<V>, r: LinkRequest, w: World<V>, s: System<V>)
                                returns (actions: seq<Action<V>>)
    requires Ready(c, r, w) && Undisturbed(c, r, w, s.phase, s.world)
    requires s.phase.Done? ==>
               s.phase.response.Linked? || s.phase.response == Unlinked || s.phase.response == NeitherLinkedNorDeclared
    ensures Quiet(actions) && Run(c, r, s, actions).Some?
    ensures Run(c, r, s, actions).value.phase == Done(Success(c, r, w))
    ensures Run(c, r, s, actions).value.world == WholeEffect(c, r, w)
    decreases Rank(s.phase)
  {
    if s.phase.Done? {
      ReadyAnswer(c, r, w, s.phase.response, s.world);
      actions := [];
    } else {
      AnyStep(c, r, w, s.phase, s.world, Succeeds);
      ReadyStep(c, r, w, s.phase, s.world);
      var rest := ReadySucceeds(c, r, w, Step(c, r, s, Next(Succeeds)).value);
      actions := [Next(Succeeds)] + rest;
      assert actions[1..] == rest;
    }
  }

  /***** What a request answers when nothing fails *****/

  /** The group is known and the stack can be patched, or there is nothing in it to remove. */
  ghost predicate CanStart<V(!new)>(c: Setting<V>, r: LinkRequest, base: Node) {
    && base.Mapping?
    && (r.Link? ==> Upsert(base, r.entry).Ok?
                    && (r.entry.group != "" ==> DeclaresGroup(c.rest, base, r.entry.group)))
  }

  /** The one answer to a request on an installed client. */
  ghost function Expected<V(!new)>(c: Setting<V>, r: LinkRequest, w: World<V>): Response {
    if w.stack.None? then Failed
    else if r.Link? && r.entry.group != "" && !DeclaresGroup(c.rest, w.stack.value, r.entry.group) then UnknownGroup
    else if !CanStart(c, r, w.stack.value) then Failed
    else if !Ready(c, r, w) then Conflict
    else Success(c, r, w)
  }

  ghost predicate Expecting<V(!new)>(c: Setting<V>, r: LinkRequest, w: World<V>, phase: Phase<V>) {
    match phase
    case HasPatch(_, _, _) => w.stack.Some? && CanStart(c, r, w.stack.value)
    case Decided(_) => Ready(c, r, w)
    case EntryDone(_) => Ready(c, r, w)
    case RecordDone(_) => Ready(c, r, w)
    case Checked(_) => Ready(c, r, w)
    case Done(response) => response == Expected(c, r, w)
    case _ => true
  }

  lemma StartsAsExpected<V(!new)>(c: Setting<V>, r: LinkRequest, w: World<V>, phase: Phase<V>)
    requires w.installed && Undisturbed(c, r, w, phase, w) && (phase.Fresh? || phase.Detected? || phase.HasBase?)
    ensures Expecting(c, r, w, Advance(c, r, w, phase, Succeeds).phase)
  {
  }

  lemma JudgedAsExpected<V(!new)>(c: Setting<V>, r: LinkRequest, w: World<V>, phase: Phase<V>)
    requires w.installed && phase.HasPatch? && Undisturbed(c, r, w, phase, w) && Expecting(c, r, w, phase)
    requires !Ready(c, r, w)
    ensures Advance(c, r, w, phase, Succeeds).phase == Done(Conflict)
  {
    ReadyVerdict(c, r, w, phase.name);
  }

  lemma ReadyAsExpected<V(!new)>(c: Setting<V>, r: LinkRequest, w: World<V>, phase: Phase<V>, now: World<V>)
    requires Ready(c, r, w) && Undisturbed(c, r, w, phase, now) && !phase.Done? && !phase.HasBase?
    requires !phase.Fresh? && !phase.Detected?
    ensures Expecting(c, r, w, Advance(c, r, now, phase, Succeeds).phase)
  {
    var e := Advance(c, r, now, phase, Succeeds);
    ReadyStep(c, r, w, phase, now);
    AnyStep(c, r, w, phase, now, Succeeds);
    if e.phase.Done? {
      ReadyAnswer(c, r, w, e.phase.response, e.world);
      ReadyCanStart(c, r, w);
    }
  }

  lemma ReadyCanStart<V(!new)>(c: Setting<V>, r: LinkRequest, w: World<V>)
    requires Ready(c, r, w)
    ensures Expected(c, r, w) == Success(c, r, w)
  {
  }

  /**
   Without failures and interference the answer is determined: a foreign entry is a conflict, an unknown group is
   that, a stack that cannot be read or patched is a failure, and everything else succeeds.
   */
  lemma {:induction false} AnswerIsExpected<V(!new)>(c: Setting<V>, r: LinkRequest, w: World<V>, s: System<V>,
                                                     actions: seq<Action<V>>)
    requires w.installed && Undisturbed(c, r, w, s.phase, s.world) && Expecting(c, r, w, s.phase)
    requires Run(c, r, s, actions).Some? && forall a <- actions :: a == Next(Succeeds)
    ensures Expecting(c, r, w, Run(c, r, s, actions).value.phase)
    decreases |actions|
  {
    if actions != [] {
      assert actions[0] in actions && forall a <- actions[1..] :: a in actions;
      AnyStep(c, r, w, s.phase, s.world, Succeeds);
      if s.phase.Fresh? || s.phase.Detected? || s.phase.HasBase? {
        StartsAsExpected(c, r, w, s.phase);
      } else if Ready(c, r, w) {
        ReadyAsExpected(c, r, w, s.phase, s.world);
      } else {
        JudgedAsExpected(c, r, w, s.phase);
        NotReady(c, r, w);
      }
      AnswerIsExpected(c, r, w, Step(c, r, s, actions[0]).value, actions[1..]);
    }
  }

  lemma NotReady<V(!new)>(c: Setting<V>, r: LinkRequest, w: World<V>)
    requires !Ready(c, r, w) && w.stack.Some? && CanStart(c, r, w.stack.value)
    ensures Expected(c, r, w) == Conflict
  {
  }

  lemma FinalAnswer<V(!new)>(c: Setting<V>, r: LinkRequest, w: World<V>, actions: seq<Action<V>>)
    requires w.installed && Run(c, r, Start(w), actions).Some? && forall a <- actions :: a == Next(Succeeds)
    requires Run(c, r, Start(w), actions).value.phase.Done?
    ensures Run(c, r, Start(w), actions).value.phase.response == Expected(c, r, w)
  {
    AnswerIsExpected(c, r, w, Start(w), actions);
  }

  /***** Linking, then unlinking *****/

  /** The unlink request finds the name the link used: in the stack, if that decodes, or in its own fields. */
  ghost predicate FindsName(rest: Rest, base: Node, e: Entry, again: Entry)
    requires Upsert(base, e).Ok?
  {
    Decodes(rest, Upsert(base, e).value) || EffectiveName(again) == EffectiveName(e)
  }

  lemma TargetAfterLink(rest: Rest, base: Node, e: Entry, again: Entry)
    requires Upsert(base, e).Ok? && again.client == e.client
    ensures TargetName(rest, Upsert(base, e).value, again) == EffectiveName(e) <==> FindsName(rest, base, e, again)
    ensures Decodes(rest, base) || EffectiveName(again) == EffectiveName(e) ==> FindsName(rest, base, e, again)
  {
    UpsertDeclares(rest, base, e);
  }

  /** The whole effect of an undisturbed unlink request that reports success. */
  lemma UnlinkEffect<V(!new)>(c: Setting<V>, r: LinkRequest, w: World<V>, actions: seq<Action<V>>)
    requires r.Unlink? && w.installed && Quiet(actions) && Run(c, r, Start(w), actions).Some?
    requires Run(c, r, Start(w), actions).value.phase == Done(Unlinked)
    ensures w.stack.Some? && Run(c, r, Start(w), actions).value.world == WholeEffect(c, r, w)
  {
    RunUndisturbed(c, r, w, Start(w), actions);
  }

  /** What is left: the stack without the declaration, and the client's side as far as its name was found. */
  ghost predicate Undone<V(!new)>(c: Setting<V>, e: Entry, again: Entry, w: World<V>, now: World<V>)
    requires w.stack.Some? && Upsert(w.stack.value, e).Ok?
  {
    var base, name := w.stack.value, EffectiveName(e);
    && now.stack == Some(base.(pairs := Undeclared(base.pairs, e.client)))
    && (name !in now.config <==> FindsName(c.rest, base, e, again))
    && (FindsName(c.rest, base, e, again) ==> now.config == w.config - {name} && now.records == w.records - {name})
    && (Decodes(c.rest, base) || EffectiveName(again) == name ==> FindsName(c.rest, base, e, again))
    && OthersDeclared(c.rest, base, now.stack.value, e.client)
  }

  lemma AddThenDrop<T>(m: map<string, T>, name: string, value: T, target: string)
    ensures target == name ==> m[name := value] - {target} == m - {name}
    ensures target != name ==> name in m[name := value] - {target}
  {
  }

  lemma EffectsUndo<V(!new)>(c: Setting<V>, e: Entry, force: bool, again: Entry, w: World<V>)
    requires w.stack.Some? && Upsert(w.stack.value, e).Ok? && again.client == e.client
    ensures Undone(c, e, again, w, WholeEffect(c, Unlink(again), WholeEffect(c, Link(e, force), w)))
  {
    var base, name := w.stack.value, EffectiveName(e);
    var w1 := WholeEffect(c, Link(e, force), w);
    var target := TargetName(c.rest, w1.stack.value, again);
    assert w1.stack == Some(Upsert(base, e).value) && w1.config == w.config[name := c.planned(e)];
    assert w1.records == w.records[name := w1.records[name]];
    RemoveAfterUpsert(base, e);
    TargetAfterLink(c.rest, base, e, again);
    AddThenDrop(w.config, name, c.planned(e), target);
    AddThenDrop(w.records, name, w1.records[name], target);
    UndoKeepsOthers(c, e, base);
  }

  lemma UndoKeepsOthers<V(!new)>(c: Setting<V>, e: Entry, base: Node)
    requires Upsert(base, e).Ok?
    ensures OthersDeclared(c.rest, base, base.(pairs := Undeclared(base.pairs, e.client)), e.client)
  {
    if Decodes(c.rest, base) {
      UndeclaredKeepsOthers(c.rest, base, e.client, e.client + e.client);
      forall other | other != "" && other != e.client
        ensures Declared(c.rest, base.(pairs := Undeclared(base.pairs, e.client)), other)
                == Declared(c.rest, base, other)
      {
        UndeclaredKeepsOthers(c.rest, base, e.client, other);
      }
    }
  }

  /** The client is declared once, in the block that is edited, or not at all. */
  ghost predicate DeclaredAtMostFirst(pairs: seq<Pair>, client: string)
    requires Items(pairs).Some?
  {
    AllDeclarations(pairs, client) == if Declarations(Items(pairs).value, client) > 0 then 1 else 0
  }

  lemma UndeclaredAtAll<V(!new)>(c: Setting<V>, e: Entry, force: bool, w: World<V>, first: seq<Action<V>>)
    requires Quiet(first) && Run(c, Link(e, force), Start(w), first).Some?
    requires var s := Run(c, Link(e, force), Start(w), first).value; s.phase.Done? && s.phase.response.Linked?
    ensures w.stack.Some? && w.stack.value.Mapping? && Items(w.stack.value.pairs).Some?
    ensures AllDeclarations(Undeclared(w.stack.value.pairs, e.client), e.client) == 0
            <==> DeclaredAtMostFirst(w.stack.value.pairs, e.client)
  {
    LinkEffect(c, Link(e, force), w, first);
    UndeclaredLaws(w.stack.value.pairs, e.client);
  }

  lemma TwoDeclarations()
    ensures var item := Scalar(STR, "cursor");
            var pairs := [Pair(Scalar(STR, LINK), Sequence(SEQ, [item, item]))];
            Items(pairs) == Some([item, item]) && AllDeclarations(Undeclared(pairs, "cursor"), "cursor") == 1
  {
    var item := Scalar(STR, "cursor");
    var pairs := [Pair(Scalar(STR, LINK), Sequence(SEQ, [item, item]))];
    assert Find(pairs, LINK) == 0;
    DeclarationsConcat([item], [item], "cursor");
    assert [item] + [item] == [item, item] && Declarations([item], "cursor") == 1;
    assert AllDeclarations(pairs, "cursor") == InPair(pairs[0], "cursor") + AllDeclarations(pairs[1..], "cursor");
    UndeclaredLaws(pairs, "cursor");
  }

  /** Declared twice, the client is still declared after a link and an unlink that both report success. */
  lemma DeclaredTwiceStays() returns (first: seq<Action<int>>, second: seq<Action<int>>)
    ensures var item := Scalar(STR, "cursor");
            var doc := Mapping(MAP, [Pair(Scalar(STR, LINK), Sequence(SEQ, [item, item]))]);
            var c := Setting(Rest(_ => true, _ => {}), _ => 7);
            var e, w := Entry("cursor", "", "", ""), World(Some(doc), true, map[], map[]);
            var s := Run(c, Link(e, false), Start(w), first);
            && s.Some? && s.value.phase.Done? && s.value.phase.response.Linked?
            && var s' := Run(c, Unlink(e), Start(s.value.world), second);
            && s'.Some? && s'.value.phase == Done(Unlinked)
            && s'.value.world.stack.Some? && s'.value.world.stack.value.Mapping?
            && AllDeclarations(s'.value.world.stack.value.pairs, "cursor") == 1
  {
    var item := Scalar(STR, "cursor");
    var doc := Mapping(MAP, [Pair(Scalar(STR, LINK), Sequence(SEQ, [item, item]))]);
    var c := Setting(Rest(_ => true, _ => {}), _ => 7);
    var e, w := Entry("cursor", "", "", ""), World(Some(doc), true, map[], map[]);
    TwoDeclarations();
    first := ReadySucceeds(c, Link(e, false), w, Start(w));
    var w1 := WholeEffect(c, Link(e, false), w);
    UnlinkIsNotRefused(c, e, e, w, false);
    second := ReadySucceeds(c, Unlink(e), w1, Start(w1));
    EffectsUndo(c, e, false, e, w);
  }

  /**
   A link and an unlink that both report success, with nobody else at work: the declaration made is gone
   again, and so are the client's entry and its record exactly when the unlink request found their name.
   A declared group, or a stack that decodes, is enough for that, whatever the unlink request leaves out.
   */
  lemma LinkThenUnlink<V(!new)>(c: Setting<V>, e: Entry, force: bool, again: Entry, w: World<V>,
                         first: seq<Action<V>>, second: seq<Action<V>>)
    requires again.client == e.client && Quiet(first) && Quiet(second)
    requires Run(c, Link(e, force), Start(w), first).Some?
    requires var s := Run(c, Link(e, force), Start(w), first).value; s.phase.Done? && s.phase.response.Linked?
    requires var w1 := Run(c, Link(e, force), Start(w), first).value.world;
             Run(c, Unlink(again), Start(w1), second).Some?
                 && Run(c, Unlink(again), Start(w1), second).value.phase == Done(Unlinked)
    ensures w.stack.Some? && Upsert(w.stack.value, e).Ok?
    ensures var w1 := Run(c, Link(e, force), Start(w), first).value.world;
            Undone(c, e, again, w, Run(c, Unlink(again), Start(w1), second).value.world)
    ensures e.group != "" ==> FindsName(c.rest, w.stack.value, e, again)
    ensures AllDeclarations(Undeclared(w.stack.value.pairs, e.client), e.client) == 0
            <==> DeclaredAtMostFirst(w.stack.value.pairs, e.client)
  {
    UndeclaredAtAll(c, e, force, w, first);
    LinkEffect(c, Link(e, force), w, first);
    var w1 := WholeEffect(c, Link(e, force), w);
    UnlinkEffect(c, Unlink(again), w1, second);
    EffectsUndo(c, e, force, again, w);
  }

  /**
   After a link nobody disturbed, the unlink request is not turned down: it can succeed, and only failures keep it from
   that.
   */
  lemma UnlinkIsNotRefused<V(!new)>(c: Setting<V>, e: Entry, again: Entry, w: World<V>, force: bool)
    requires w.installed && w.stack.Some? && Upsert(w.stack.value, e).Ok? && again.client == e.client
    requires FindsName(c.rest, w.stack.value, e, again)
    ensures Ready(c, Unlink(again), WholeEffect(c, Link(e, force), w))
  {
    RemoveAfterUpsert(w.stack.value, e);
    TargetAfterLink(c.rest, w.stack.value, e, again);
  }

  /**
   A stack file that is a mapping but does not decode: after linking under a name of its own, an unlink
   request that leaves the name out succeeds and leaves the client linked.
   */
  lemma NameIsForgotten() returns (first: seq<Action<int>>, second: seq<Action<int>>)
    ensures var c := Setting(Rest(_ => false, _ => {}), _ => 7);
            var w := World(Some(Mapping(MAP, [])), true, map[], map[]);
            var s := Run(c, Link(Entry("cursor", "", "", "work"), false), Start(w), first);
            && s.Some? && s.value.phase.Done? && s.value.phase.response.Linked?
            && var s' := Run(c, Unlink(Entry("cursor", "", "", "")), Start(s.value.world), second);
            && s'.Some? && s'.value.phase == Done(Unlinked)
            && "work" in s'.value.world.config && s'.value.world.stack == w.stack
  {
    var c := Setting(Rest(_ => false, _ => {}), _ => 7);
    var e, again := Entry("cursor", "", "", "work"), Entry("cursor", "", "", "");
    var base := Mapping(MAP, []);
    var w := World(Some(base), true, map[], map[]);
    first := ReadySucceeds(c, Link(e, false), w, Start(w));
    var w1 := Run(c, Link(e, false), Start(w), first).value.world;
    TargetAfterLink(c.rest, base, e, again);
    RemoveAfterUpsert(base, e);
    assert EffectiveName(again) == "gridctl" && EffectiveName(e) == "work";
    second := ReadySucceeds(c, Unlink(again), w1, Start(w1));
    UndeclaredRestores(base.pairs, "cursor");
  }
}
