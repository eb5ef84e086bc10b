/**
 Linking and unlinking a client: one request writes two files, the client's own configuration and
 the stack file that declares the link, and keeps a record of the values it wrote.

 A request is a sequence of steps. Between any two of them the outside world, other requests included,
 may change anything, and a request may stop after any step; the theorems hold for all such runs.
 Values are compared by hash in the program; the model compares them directly.
 */
module LinkProtocol {
  import opened Base
  import opened ScopePatch
  import opened LinkBlock

  /** `config` are the client's own server entries, `records` the values written under each name, oldest first. */
  datatype World<V> = World(stack: Option<Node>, installed: bool, config: map<string, V>, records: map<string, seq<V>>)

  datatype LinkRequest = Link(entry: Entry, force: bool) | Unlink(entry: Entry)

  /** What a request depends on: how stack files decode, and the value a link entry writes. */
  datatype Setting<!V> = Setting(rest: Rest, planned: Entry -> V)

  datatype Response =
    | Linked(already: bool)
    | Unlinked
    | NotDetected
    | UnknownGroup
    | Conflict
    | StackNotUpdated
    | NeitherLinkedNorDeclared
    | Failed

  /** What the ownership rules say about an entry. `Forget` drops the record of a client that is gone. */
  datatype Ownership = Write | Adopt | Unchanged | Delete | Purge | Forget | Nothing | Refuse

  /** What happened, in order. `Outside` is anybody else; `Read`, `Judged` and `Verified` are reads of the request. */
  datatype Event<V> =
    | Outside(now: World<V>)
    | Read(base: Node)
    | Judged(name: string, what: Ownership, records: map<string, seq<V>>)
    | WroteEntry(name: string, value: V)
    | RemovedEntry(name: string)
    | WroteRecords(records: map<string, seq<V>>)
    | Verified(base: Node)
    | WroteStack(doc: Node)

  /** The stack as read, the name of the entry, the patched stack (None: nothing to remove) and the records as read. */
  datatype Plan<V> = Plan(base: Node, name: string, updated: Option<Node>, what: Ownership,
                          records: map<string, seq<V>>)

  datatype Phase<V> =
    | Fresh
    | Detected
    | HasBase(base: Node)
    | HasPatch(base: Node, name: string, updated: Option<Node>)
    | Decided(plan: Plan<V>)
    | EntryDone(plan: Plan<V>)
    | RecordDone(plan: Plan<V>)
    | Checked(plan: Plan<V>)
    | Done(response: Response)

  /** How a write of the client's configuration ends: it may fail with or without effect. */
  datatype Outcome = Succeeds | FailsBefore | FailsAfter

  datatype Action<V> = Next(outcome: Outcome) | Edit(world: World<V>)

  datatype System<V> = System(world: World<V>, phase: Phase<V>, history: seq<Event<V>>)

  /** The result of one step: the new world, the new phase and what happened. */
  datatype Effect<V> = Effect(world: World<V>, phase: Phase<V>, events: seq<Event<V>>)

  function Start<V>(w: World<V>): System<V> { System(w, Fresh, []) }

  /***** Ownership *****/

  const MAX_HISTORY := 5

  function Drop<V(==)>(values: seq<V>, v: V): seq<V> {
    if values == [] then [] else if values[0] == v then Drop(values[1..], v) else [values[0]] + Drop(values[1..], v)
  }

  /** The history with `v` newest; only the newest few are kept. */
  function AppendValue<V(==)>(values: seq<V>, v: V): (r: seq<V>)
    ensures 0 < |r| <= MAX_HISTORY && r[|r| - 1] == v
  {
    var kept := Drop(values, v) + [v];
    if |kept| > MAX_HISTORY then kept[|kept| - MAX_HISTORY..] else kept
  }

  lemma {:induction false} DropLaws<V(!new)>(values: seq<V>, v: V)
    ensures v !in Drop(values, v)
    ensures forall x | x != v :: multiset(Drop(values, v))[x] == multiset(values)[x]
  {
    if values != [] {
      DropLaws(values[1..], v);
      assert values == [values[0]] + values[1..];
    }
  }

  lemma {:induction false} DropKeepsOrder<V(!new)>(a: seq<V>, b: seq<V>, v: V)
    ensures Drop(a + b, v) == Drop(a, v) + Drop(b, v)
  {
    if a == [] {
      assert a + b == b;
    } else {
      DropKeepsOrder(a[1..], b, v);
      assert (a + b)[1..] == a[1..] + b && (a + b)[0] == a[0];
    }
  }

  /**
   The history after a write: the new value is newest and occurs once, before it come the newest of the other
   values in their order, and nothing is forgotten while there is room.
   */
  lemma NewestAreKept<V(!new)>(values: seq<V>, v: V)
    ensures var r, others := AppendValue(values, v), Drop(values, v);
            && |r| == (if |others| < 5 then |others| + 1 else 5)
            && r == others[|others| + 1 - |r|..] + [v]
            && v !in others
            && forall x | x != v :: multiset(others)[x] == multiset(values)[x]
  {
    DropLaws(values, v);
  }

  function DecideLink<V(==)>(w: World<V>, name: string, planned: V, force: bool): Ownership {
    if name !in w.config then Write
    else if name !in w.records then
      if w.config[name] == planned then Adopt else if force then Write else Refuse
    else if w.config[name] == planned then Unchanged
    else if w.config[name] !in w.records[name] && !force then Refuse
    else Write
  }

  function DecideUnlink<V(==)>(w: World<V>, name: string): Ownership {
    if name !in w.records then
      if name !in w.config then Nothing else Refuse
    else if name !in w.config then Purge
    else if w.config[name] !in w.records[name] then Refuse
    else Delete
  }

  /** The entry holds a value gridctl wrote under this name. */
  predicate Owned<V(==)>(w: World<V>, name: string) {
    name in w.config && name in w.records && w.config[name] in w.records[name]
  }

  /** A link may proceed: nothing is there, or what it would write, or what gridctl wrote, or it is forced. */
  predicate LinkAllowed<V(==)>(w: World<V>, name: string, planned: V, force: bool) {
    name !in w.config || w.config[name] == planned || Owned(w, name) || force
  }

  /** An unlink may proceed: nothing is there, or what gridctl wrote. */
  predicate UnlinkAllowed<V(==)>(w: World<V>, name: string) {
    name !in w.config || Owned(w, name)
  }

  /** A link is refused exactly when it may not proceed; otherwise it writes, adopts what is in place, or leaves it. */
  lemma LinkVerdicts<V(!new)>(w: World<V>, name: string, planned: V, force: bool)
    ensures var what, inPlace := DecideLink(w, name, planned, force), name in w.config && w.config[name] == planned;
            && (what == Refuse <==> !LinkAllowed(w, name, planned, force))
            && (what == Adopt <==> inPlace && name !in w.records)
            && (what == Unchanged <==> inPlace && name in w.records)
            && (what == Write <==> !inPlace && LinkAllowed(w, name, planned, force))
  {
  }

  lemma UnlinkVerdicts<V(!new)>(w: World<V>, name: string)
    ensures var what := DecideUnlink(w, name);
            && (what == Refuse <==> !UnlinkAllowed(w, name))
            && (what == Delete <==> Owned(w, name))
            && (what == Purge <==> name !in w.config && name in w.records)
            && (what == Nothing <==> name !in w.config && name !in w.records)
  {
  }

  /***** Steps *****/

  function Step<V(==)>(c: Setting<V>, r: LinkRequest, s: System<V>, a: Action<V>): Option<System<V>> {
    if a.Edit? then Some(System(a.world, s.phase, s.history + [Outside(a.world)]))
    else if s.phase.Done? then None
    else
      var e := Advance(c, r, s.world, s.phase, a.outcome);
      Some(System(e.world, e.phase, s.history + e.events))
  }

  function Advance<V(==)>(c: Setting<V>, r: LinkRequest, w: World<V>, phase: Phase<V>, outcome: Outcome): Effect<V>
    requires !phase.Done?
  {
    var ok := outcome == Succeeds;
    match phase
    case Fresh =>
      Effect(w, if r.Link? && !w.installed then Done(NotDetected) else Detected, [])
    case Detected =>
      if ok && w.stack.Some? then Effect(w, HasBase(w.stack.value), [Read(w.stack.value)])
          else Effect(w, Done(Failed), [])
    case HasBase(base) =>
      Effect(w, if r.Link? then PrepareLink(c, r.entry, base) else PrepareUnlink(c, r.entry, base), [])
    case HasPatch(base, name, updated) =>
      if !ok && (r.Link? || w.installed) then Effect(w, Done(Failed), [])
      else Judge(c, r, w, Plan(base, name, updated, Nothing, w.records), ok)
    case Decided(plan) => WriteEntry(c, r, w, plan, outcome)
    case EntryDone(plan) =>
      if ok || plan.what == Forget then WriteRecord(c, r, w, plan) else Effect(w, Done(Failed), [])
    case RecordDone(plan) =>
      if ok && w.stack == Some(plan.base) then Effect(w, Checked(plan), [Verified(plan.base)])
      else Effect(w, Done(StackNotUpdated), [])
    case Checked(plan) =>
      if ok && plan.updated.Some? then
        var response := if r.Link? then Linked(plan.what == Unchanged) else Unlinked;
        Effect(w.(stack := plan.updated), Done(response), [WroteStack(plan.updated.value)])
      else Effect(w, Done(StackNotUpdated), [])
  }

  /** Group check and stack patch, before anything is written. */
  function PrepareLink<V>(c: Setting<V>, e: Entry, base: Node): Phase<V> {
    if e.group != "" && !DeclaresGroup(c.rest, base, e.group) then Done(UnknownGroup)
    else
      var updated := Upsert(base, e);
      if updated.Err? then Done(Failed) else HasPatch(base, EffectiveName(e), Some(updated.value))
  }

  /** The name an unlink request removes: the declared one, or the one the request asks for. */
  function TargetName(rest: Rest, base: Node, e: Entry): string {
    var declared := Declared(rest, base, e.client);
    EffectiveName(if declared.Some? then declared.value else e)
  }

  function PrepareUnlink<V>(c: Setting<V>, e: Entry, base: Node): Phase<V> {
    var updated := Remove(base, e.client);
    if updated.Ok? then HasPatch(base, TargetName(c.rest, base, e), Some(updated.value))
    else if updated.error in {NoLinkBlock, NotDeclared} then HasPatch(base, TargetName(c.rest, base, e), None)
    else Done(Failed)
  }

  /**
   The ownership decision, from the entry and the record as they are now. Without the client only a record
   may be left to drop; `ok` says whether that will work, since failing to drop it is no error.
   */
  function Judge<V(==)>(c: Setting<V>, r: LinkRequest, w: World<V>, before: Plan<V>, ok: bool): Effect<V> {
    var name := before.name;
    var what :=
      if r.Link? then DecideLink(w, name, c.planned(r.entry), r.force)
      else if w.installed then DecideUnlink(w, name)
      else if ok && name in w.records then Forget
      else Nothing;
    var plan := before.(what := what);
    var phase := if what == Refuse then Done(Conflict) else if what == Nothing then AfterRecord(plan)
        else Decided(plan);
    Effect(w, phase, [Judged(name, what, w.records)])
  }

  /** A request that has no stack write to make is finished. */
  function AfterRecord<V>(plan: Plan<V>): Phase<V> {
    if plan.updated.Some? then RecordDone(plan)
    else if plan.what == Nothing then Done(NeitherLinkedNorDeclared)
    else Done(Unlinked)
  }

  function WriteEntry<V>(c: Setting<V>, r: LinkRequest, w: World<V>, plan: Plan<V>, outcome: Outcome): Effect<V> {
    var name := plan.name;
    var next := if outcome == Succeeds then EntryDone(plan) else Done(Failed);
    if plan.what !in {Write, Delete} then Effect(w, EntryDone(plan), [])
    else if outcome == FailsBefore then Effect(w, Done(Failed), [])
    else if plan.what == Write then
      Effect(w.(config := w.config[name := c.planned(r.entry)]), next, [WroteEntry(name, c.planned(r.entry))])
    else
      Effect(w.(config := w.config - {name}), next, [RemovedEntry(name)])
  }

  /** The records a request saves: those it read, changed at one name. */
  function SavedRecords<V(==)>(c: Setting<V>, r: LinkRequest, name: string, records: map<string, seq<V>>)
    : map<string, seq<V>>
  {
    if r.Link? then
      records[name := AppendValue(if name in records then records[name] else [], c.planned(r.entry))]
    else
      records - {name}
  }

  /** A link puts the planned value last and keeps the newest others, an unlink drops its name; no other changes. */
  lemma SavedRecordsAre<V(!new)>(c: Setting<V>, r: LinkRequest, name: string, records: map<string, seq<V>>)
    ensures var now := SavedRecords(c, r, name, records);
            && (forall n | n != name && n in records :: n in now && now[n] == records[n])
            && (forall n | n != name && n !in records :: n !in now)
            && (name in now <==> r.Link?)
    ensures r.Link? ==>
              var now := SavedRecords(c, r, name, records)[name];
              var others := Drop(if name in records then records[name] else [], c.planned(r.entry));
              && 1 <= |now| <= |others| + 1 && |now| == (if |others| < 5 then |others| + 1 else 5)
              && now == others[|others| + 1 - |now|..] + [c.planned(r.entry)]
  {
    if r.Link? { NewestAreKept(if name in records then records[name] else [], c.planned(r.entry)); }
  }

  function WriteRecord<V(==)>(c: Setting<V>, r: LinkRequest, w: World<V>, plan: Plan<V>): Effect<V> {
    var records := SavedRecords(c, r, plan.name, plan.records);
    Effect(w.(records := records), AfterRecord(plan), [WroteRecords(records)])
  }

  function Run<V(==)>(c: Setting<V>, r: LinkRequest, s: System<V>, actions: seq<Action<V>>): Option<System<V>>
    decreases |actions|
  {
    if actions == [] then Some(s)
    else
      var next := Step(c, r, s, actions[0]);
      if next.None? then None else Run(c, r, next.value, actions[1..])
  }

  /***** What every run keeps *****/

  function After<V>(now: World<V>, e: Event<V>): World<V> {
    match e
    case Outside(other) => other
    case WroteEntry(name, value) => now.(config := now.config[name := value])
    case RemovedEntry(name) => now.(config := now.config - {name})
    case WroteRecords(records) => now.(records := records)
    case WroteStack(doc) => now.(stack := Some(doc))
    case _ => now
  }

  /** The world after the events. */
  function Replay<V>(w: World<V>, history: seq<Event<V>>): World<V> {
    if history == [] then w else After(Replay(w, history[..|history| - 1]), history[|history| - 1])
  }

  /** What the request itself did and read. */
  function Own<V>(history: seq<Event<V>>): seq<Event<V>> {
    if history == [] then []
    else
      var last := history[|history| - 1];
      Own(history[..|history| - 1]) + if last.Outside? then [] else [last]
  }

  /** A read reports what was there at that moment. */
  ghost predicate Justified<V(!new)>(c: Setting<V>, r: LinkRequest, now: World<V>, e: Event<V>) {
    && (e.Read? || e.Verified? ==> now.stack == Some(e.base))
    && (e.Judged? ==>
          && e.records == now.records
          && if r.Link? then e.what == DecideLink(now, e.name, c.planned(r.entry), r.force)
             else if now.installed then e.what == DecideUnlink(now, e.name)
             else e.what in {Forget, Nothing} && (e.what == Forget ==> e.name in now.records))
  }

  ghost predicate AllJustified<V(!new)>(c: Setting<V>, r: LinkRequest, w: World<V>, history: seq<Event<V>>) {
    forall i | 0 <= i < |history| :: Justified(c, r, Replay(w, history[..i]), history[i])
  }

  /** The plan fits the request and the stack it was made from. */
  ghost predicate Planned<V(!new)>(c: Setting<V>, r: LinkRequest, base: Node, name: string, updated: Option<Node>) {
    if r.Link? then
      && (r.entry.group != "" ==> DeclaresGroup(c.rest, base, r.entry.group))
      && name == EffectiveName(r.entry)
      && Upsert(base, r.entry).Ok? && updated == Some(Upsert(base, r.entry).value)
    else
      && name == TargetName(c.rest, base, r.entry)
      && updated == if Remove(base, r.entry.client).Ok? then Some(Remove(base, r.entry.client).value) else None
  }

  ghost predicate PlanFits<V(!new)>(c: Setting<V>, r: LinkRequest, p: Plan<V>) {
    Planned(c, r, p.base, p.name, p.updated) && p.what in if r.Link? then {Write, Adopt, Unchanged, Refuse}
        else {Delete, Purge, Forget, Nothing, Refuse}
  }

  function Judgement<V>(p: Plan<V>): seq<Event<V>> { [Read(p.base), Judged(p.name, p.what, p.records)] }

  function EntryPart<V>(c: Setting<V>, r: LinkRequest, p: Plan<V>): seq<Event<V>> {
    if p.what == Write then [WroteEntry(p.name, c.planned(r.entry))]
    else if p.what == Delete then [RemovedEntry(p.name)]
    else []
  }

  /** The client's side of a plan, complete. */
  function ClientSide<V(==)>(c: Setting<V>, r: LinkRequest, p: Plan<V>): seq<Event<V>> {
    Judgement(p) + EntryPart(c, r, p) +
    if p.what in {Nothing, Refuse} then [] else [WroteRecords(SavedRecords(c, r, p.name, p.records))]
  }

  /** What a response says about the things the request did. */
  ghost predicate Answers<V(!new)>(c: Setting<V>, r: LinkRequest, response: Response, p: Plan<V>, own: seq<Event<V>>) {
    match response
    case Linked(already) =>
      r.Link? && already == (p.what == Unchanged) && p.what != Refuse && p.updated.Some?
      && own == ClientSide(c, r, p) + [Verified(p.base), WroteStack(p.updated.value)]
    case Unlinked =>
      r.Unlink? && p.what != Refuse
      && if p.updated.Some? then own == ClientSide(c, r, p) + [Verified(p.base), WroteStack(p.updated.value)]
         else p.what != Nothing && own == ClientSide(c, r, p)
    case Conflict => p.what == Refuse && own == Judgement(p)
    case StackNotUpdated =>
      p.what != Refuse && p.updated.Some?
          && (own == ClientSide(c, r, p) || own == ClientSide(c, r, p) + [Verified(p.base)])
    case NeitherLinkedNorDeclared =>
      r.Unlink? && p.updated.None? && p.what == Nothing && own == Judgement(p)
    case Failed =>
      p.what !in {Nothing, Refuse} && (own == Judgement(p) || own == Judgement(p) + EntryPart(c, r, p))
    case _ => false
  }

  /** How far the request got fixes what it did. */
  ghost predicate Trace<V(!new)>(c: Setting<V>, r: LinkRequest, phase: Phase<V>, own: seq<Event<V>>) {
    match phase
    case Fresh => own == []
    case Detected => own == []
    case HasBase(base) => own == [Read(base)]
    case HasPatch(base, name, updated) => own == [Read(base)] && Planned(c, r, base, name, updated)
    case Decided(p) => PlanFits(c, r, p) && p.what !in {Nothing, Refuse} && own == Judgement(p)
    case EntryDone(p) => PlanFits(c, r, p) && p.what !in {Nothing, Refuse} && own == Judgement(p) + EntryPart(c, r, p)
    case RecordDone(p) => PlanFits(c, r, p) && p.what != Refuse && p.updated.Some? && own == ClientSide(c, r, p)
    case Checked(p) => PlanFits(c, r, p) && p.what != Refuse && p.updated.Some?
        && own == ClientSide(c, r, p) + [Verified(p.base)]
    case Done(response) =>
      || (own == [] && response in {NotDetected, Failed})
      || (|own| == 1 && own[0].Read? && response in {UnknownGroup, Failed})
      || exists p :: PlanFits(c, r, p) && Answers(c, r, response, p, own)
  }

  ghost predicate Inv<V(!new)>(c: Setting<V>, r: LinkRequest, w: World<V>, s: System<V>) {
    && s.world == Replay(w, s.history)
    && AllJustified(c, r, w, s.history)
    && Trace(c, r, s.phase, Own(s.history))
  }

  lemma ReplayOne<V(!new)>(w: World<V>, history: seq<Event<V>>, e: Event<V>)
    ensures Replay(w, history + [e]) == After(Replay(w, history), e)
    ensures Own(history + [e]) == if e.Outside? then Own(history) else Own(history) + [e]
  {
    assert (history + [e])[..|history|] == history;
  }

  lemma JustifiedOne<V(!new)>(c: Setting<V>, r: LinkRequest, w: World<V>, history: seq<Event<V>>, e: Event<V>)
    requires AllJustified(c, r, w, history) && Justified(c, r, Replay(w, history), e)
    ensures AllJustified(c, r, w, history + [e])
  {
    var more := history + [e];
    forall i | 0 <= i < |more| ensures Justified(c, r, Replay(w, more[..i]), more[i]) {
      assert more[..i] == history[..i];
      if i == |history| { assert history[..i] == history; }
    }
  }

  /** A plan accounts for a response. */
  lemma Accounted<V(!new)>(c: Setting<V>, r: LinkRequest, response: Response, p: Plan<V>, own: seq<Event<V>>)
    requires PlanFits(c, r, p) && Answers(c, r, response, p, own)
    ensures Trace(c, r, Done(response), own)
  {
  }

  lemma JudgeFits<V(!new)>(c: Setting<V>, r: LinkRequest, w: World<V>, before: Plan<V>, ok: bool)
    requires Planned(c, r, before.base, before.name, before.updated) && before.records == w.records
    ensures Trace(c, r, Judge(c, r, w, before, ok).phase, [Read(before.base)] + Judge(c, r, w, before, ok).events)
  {
    var e := Judge(c, r, w, before, ok);
    var p := before.(what := e.events[0].what);
    var own := [Read(before.base)] + e.events;
    assert own == Judgement(p);
    assert ClientSide(c, r, p.(what := Nothing)) == Judgement(p.(what := Nothing));
    if e.phase.Done? { Accounted(c, r, e.phase.response, p, own); }
  }

  /** How far the request got keeps fixing what it did. */
  lemma AdvanceFits<V(!new)>(c: Setting<V>, r: LinkRequest, w: World<V>, phase: Phase<V>, outcome: Outcome,
                      own: seq<Event<V>>)
    requires !phase.Done? && Trace(c, r, phase, own)
    ensures var e := Advance(c, r, w, phase, outcome); Trace(c, r, e.phase, own + e.events)
  {
    var e := Advance(c, r, w, phase, outcome);
    if phase.HasPatch? {
      var before := Plan(phase.base, phase.name, phase.updated, Nothing, w.records);
      JudgeFits(c, r, w, before, outcome == Succeeds);
    } else if phase.Fresh? || phase.Detected? || phase.HasBase? {
      assert own + [] == own && [] + e.events == e.events;
    } else {
      PlannedFits(c, r, w, phase, outcome, own);
    }
  }

  lemma PlannedFits<V(!new)>(c: Setting<V>, r: LinkRequest, w: World<V>, phase: Phase<V>, outcome: Outcome,
                      own: seq<Event<V>>)
    requires phase.Decided? || phase.EntryDone? || phase.RecordDone? || phase.Checked?
    requires Trace(c, r, phase, own)
    ensures var e := Advance(c, r, w, phase, outcome); Trace(c, r, e.phase, own + e.events)
  {
    if phase.EntryDone? {
      RecordFits(c, r, w, phase, outcome, own);
    } else if phase.Decided? {
      EntryFits(c, r, w, phase, outcome, own);
    } else {
      StackFits(c, r, w, phase, outcome, own);
    }
  }

  lemma EntryFits<V(!new)>(c: Setting<V>, r: LinkRequest, w: World<V>, phase: Phase<V>, outcome: Outcome,
                    own: seq<Event<V>>)
    requires phase.Decided? && Trace(c, r, phase, own)
    ensures var e := Advance(c, r, w, phase, outcome); Trace(c, r, e.phase, own + e.events)
  {
    var e := Advance(c, r, w, phase, outcome);
    if e.phase.Done? { Accounted(c, r, e.phase.response, phase.plan, own + e.events); }
  }

  lemma StackFits<V(!new)>(c: Setting<V>, r: LinkRequest, w: World<V>, phase: Phase<V>, outcome: Outcome,
                    own: seq<Event<V>>)
    requires (phase.RecordDone? || phase.Checked?) && Trace(c, r, phase, own)
    ensures var e := Advance(c, r, w, phase, outcome); Trace(c, r, e.phase, own + e.events)
  {
    var e := Advance(c, r, w, phase, outcome);
    if e.phase.Done? { Accounted(c, r, e.phase.response, phase.plan, own + e.events); }
  }

  lemma RecordFits<V(!new)>(c: Setting<V>, r: LinkRequest, w: World<V>, phase: Phase<V>, outcome: Outcome,
                     own: seq<Event<V>>)
    requires phase.EntryDone? && Trace(c, r, phase, own)
    ensures var e := Advance(c, r, w, phase, outcome); Trace(c, r, e.phase, own + e.events)
  {
    var e, p := Advance(c, r, w, phase, outcome), phase.plan;
    if outcome == Succeeds || p.what == Forget {
      assert own + e.events == ClientSide(c, r, p);
      if e.phase.Done? { Accounted(c, r, e.phase.response, p, own + e.events); }
    } else {
      assert own + e.events == own;
      Accounted(c, r, Failed, p, own);
    }
  }

  /** A step that happened as noted: one event accounts for what it changed. */
  ghost predicate Noted<V(!new)>(c: Setting<V>, r: LinkRequest, w: World<V>, e: Effect<V>) {
    || (e.events == [] && e.world == w)
    || (|e.events| == 1 && !e.events[0].Outside? && Justified(c, r, w, e.events[0]) && e.world == After(w, e.events[0]))
  }

  lemma AdvanceIsNoted<V(!new)>(c: Setting<V>, r: LinkRequest, w: World<V>, phase: Phase<V>, outcome: Outcome)
    requires !phase.Done?
    ensures Noted(c, r, w, Advance(c, r, w, phase, outcome))
  {
  }

  lemma NotedKeepsInv<V(!new)>(c: Setting<V>, r: LinkRequest, w: World<V>, s: System<V>, e: Effect<V>)
    requires Inv(c, r, w, s) && Noted(c, r, s.world, e) && Trace(c, r, e.phase, Own(s.history) + e.events)
    ensures Inv(c, r, w, System(e.world, e.phase, s.history + e.events))
  {
    if e.events == [] {
      assert s.history + e.events == s.history && Own(s.history) + e.events == Own(s.history);
    } else {
      assert e.events == [e.events[0]];
      ReplayOne(w, s.history, e.events[0]);
      JustifiedOne(c, r, w, s.history, e.events[0]);
    }
  }

  lemma EditKeepsInv<V(!new)>(c: Setting<V>, r: LinkRequest, w: World<V>, s: System<V>, now: World<V>)
    requires Inv(c, r, w, s)
    ensures Inv(c, r, w, System(now, s.phase, s.history + [Outside(now)]))
  {
    ReplayOne(w, s.history, Outside(now));
    JustifiedOne(c, r, w, s.history, Outside(now));
  }

  lemma StepKeepsInv<V(!new)>(c: Setting<V>, r: LinkRequest, w: World<V>, s: System<V>, a: Action<V>)
    requires Inv(c, r, w, s) && Step(c, r, s, a).Some?
    ensures Inv(c, r, w, Step(c, r, s, a).value)
  {
    if a.Edit? {
      EditKeepsInv(c, r, w, s, a.world);
    } else {
      AdvanceIsNoted(c, r, s.world, s.phase, a.outcome);
      AdvanceFits(c, r, s.world, s.phase, a.outcome, Own(s.history));
      NotedKeepsInv(c, r, w, s, Advance(c, r, s.world, s.phase, a.outcome));
    }
  }

  lemma {:induction false} RunKeepsInv<V(!new)>(c: Setting<V>, r: LinkRequest, w: World<V>, s: System<V>,
                                actions: seq<Action<V>>)
    requires Inv(c, r, w, s) && Run(c, r, s, actions).Some?
    ensures Inv(c, r, w, Run(c, r, s, actions).value)
    decreases |actions|
  {
    if actions != [] {
      StepKeepsInv(c, r, w, s, actions[0]);
      RunKeepsInv(c, r, w, Step(c, r, s, actions[0]).value, actions[1..]);
    }
  }

  /** Every state of every run, edits from outside and failures included. */
  lemma EveryRunIsAccounted<V(!new)>(c: Setting<V>, r: LinkRequest, w: World<V>, actions: seq<Action<V>>)
    requires Run(c, r, Start(w), actions).Some?
    ensures Inv(c, r, w, Run(c, r, Start(w), actions).value)
  {
    RunKeepsInv(c, r, w, Start(w), actions);
  }

  /***** The order of the two writes *****/

  /** An event of the request, found in the history. */
  lemma {:induction false} OwnAt<V(!new)>(history: seq<Event<V>>, n: nat) returns (k: nat)
    requires n < |Own(history)|
    ensures k < |history| && history[k] == Own(history)[n]
  {
    var front := history[..|history| - 1];
    if n < |Own(front)| {
      k := OwnAt(front, n);
    } else {
      k := |front|;
    }
  }

  lemma {:induction false} OwnPrefix<V(!new)>(history: seq<Event<V>>, i: nat)
    requires i < |history| && !history[i].Outside?
    ensures |Own(history[..i])| < |Own(history)|
    ensures Own(history)[..|Own(history[..i])|] == Own(history[..i])
    ensures Own(history)[|Own(history[..i])|] == history[i]
    decreases |history|
  {
    var front := history[..|history| - 1];
    if i < |front| {
      OwnPrefix(front, i);
      assert front[..i] == history[..i];
    }
  }

  /** The client's entry is the one the request links. */
  ghost predicate HasLink<V(!new)>(c: Setting<V>, e: Entry, w: World<V>) {
    EffectiveName(e) in w.config && w.config[EffectiveName(e)] == c.planned(e)
  }

  /** The value the request links is saved as one gridctl wrote. */
  ghost predicate RecordsLink<V(!new)>(c: Setting<V>, e: Entry, saved: Event<V>) {
    saved.WroteRecords? && EffectiveName(e) in saved.records && c.planned(e) in saved.records[EffectiveName(e)]
  }

  function Complete<V(==)>(c: Setting<V>, r: LinkRequest, p: Plan<V>): seq<Event<V>>
    requires p.updated.Some?
  {
    ClientSide(c, r, p) + [Verified(p.base), WroteStack(p.updated.value)]
  }

  ghost predicate Partial<V(!new)>(c: Setting<V>, r: LinkRequest, p: Plan<V>, own: seq<Event<V>>) {
    || own == Judgement(p) || own == Judgement(p) + EntryPart(c, r, p)
    || own == ClientSide(c, r, p) || own == ClientSide(c, r, p) + [Verified(p.base)]
  }

  /** A request that did anything carried a plan out, in part or completely. */
  lemma Stages<V(!new)>(c: Setting<V>, r: LinkRequest, phase: Phase<V>, own: seq<Event<V>>) returns (p: Plan<V>)
    requires Trace(c, r, phase, own) && |own| > 1
    ensures PlanFits(c, r, p)
    ensures || Partial(c, r, p, own)
            || (p.updated.Some? && p.what != Refuse && own == Complete(c, r, p) && phase.Done?
                && phase.response == if r.Link? then Linked(p.what == Unchanged) else Unlinked)
    ensures phase.Done? ==> Answers(c, r, phase.response, p, own)
  {
    if phase.Done? {
      p :| PlanFits(c, r, p) && Answers(c, r, phase.response, p, own);
    } else {
      p := phase.plan;
    }
  }

  lemma PartialWrites<V(!new)>(c: Setting<V>, r: LinkRequest, p: Plan<V>, own: seq<Event<V>>)
    requires Partial(c, r, p, own)
    ensures forall n | 0 <= n < |own| :: !own[n].WroteStack?
  {
    assert forall n | 0 <= n < |EntryPart(c, r, p)| :: !EntryPart(c, r, p)[n].WroteStack?;
    var all := ClientSide(c, r, p);
    assert forall n | 0 <= n < |all| :: !all[n].WroteStack?;
  }

  /** The stack is written last, by a request that completes its plan. */
  lemma StackWriter<V(!new)>(c: Setting<V>, r: LinkRequest, phase: Phase<V>, own: seq<Event<V>>, n: nat)
                      returns (p: Plan<V>)
    requires Trace(c, r, phase, own) && n < |own| && own[n].WroteStack?
    ensures PlanFits(c, r, p) && p.updated.Some? && p.what != Refuse
    ensures own == Complete(c, r, p) && n == |own| - 1
  {
    p := Stages(c, r, phase, own);
    if Partial(c, r, p, own) {
      PartialWrites(c, r, p, own);
    } else {
      PartialWrites(c, r, p, ClientSide(c, r, p));
    }
  }

  /** Where in a complete link the client's entry and its record come. */
  lemma CompleteLink<V(!new)>(c: Setting<V>, r: LinkRequest, p: Plan<V>)
    requires r.Link? && PlanFits(c, r, p) && p.what != Refuse
    ensures var own := Complete(c, r, p);
            && own[1] == Judged(EffectiveName(r.entry), p.what, p.records)
            && (p.what == Write ==> own[2] == WroteEntry(EffectiveName(r.entry), c.planned(r.entry)))
            && |own| == (if p.what == Write then 6 else 5)
            && own[|own| - 3] == WroteRecords(SavedRecords(c, r, EffectiveName(r.entry), p.records))
  {
  }

  /**
   A request that linked the stack had linked the client before: at an earlier moment the client's
   configuration held the entry, and the record of it was saved. A run may be cut off anywhere.
   */
  lemma StackIsLinkedLast<V(!new)>(c: Setting<V>, r: LinkRequest, w: World<V>, actions: seq<Action<V>>, i: nat)
    returns (seen: nat, saved: nat)
    requires r.Link? && Run(c, r, Start(w), actions).Some?
    requires var h := Run(c, r, Start(w), actions).value.history; i < |h| && h[i].WroteStack?
    ensures var h := Run(c, r, Start(w), actions).value.history;
            && seen <= i && saved < i
            && HasLink(c, r.entry, Replay(w, h[..seen])) && RecordsLink(c, r.entry, h[saved])
  {
    EveryRunIsAccounted(c, r, w, actions);
    seen, saved := LinkedLast(c, r, w, Run(c, r, Start(w), actions).value, i);
  }

  lemma LinkedLast<V(!new)>(c: Setting<V>, r: LinkRequest, w: World<V>, s: System<V>, i: nat)
    returns (seen: nat, saved: nat)
    requires r.Link? && AllJustified(c, r, w, s.history) && Trace(c, r, s.phase, Own(s.history))
    requires i < |s.history| && s.history[i].WroteStack?
    ensures seen <= i && saved < i
    ensures HasLink(c, r.entry, Replay(w, s.history[..seen])) && RecordsLink(c, r.entry, s.history[saved])
  {
    var p := EarlierEvents(c, r, s, i);
    JustifiedPrefix(c, r, w, s.history, i);
    seen, saved := LinkedBefore(c, r, w, s.history[..i], p);
    assert s.history[..i][..seen] == s.history[..seen];
  }

  /** What the request did before it wrote the stack. */
  lemma EarlierEvents<V(!new)>(c: Setting<V>, r: LinkRequest, s: System<V>, i: nat) returns (p: Plan<V>)
    requires r.Link? && Trace(c, r, s.phase, Own(s.history)) && i < |s.history| && s.history[i].WroteStack?
    ensures PlanFits(c, r, p) && p.what != Refuse
    ensures var early := Own(s.history[..i]);
            && |early| > 2 && early[1] == Judged(EffectiveName(r.entry), p.what, p.records)
            && (p.what == Write ==> early[2] == WroteEntry(EffectiveName(r.entry), c.planned(r.entry)))
            && early[|early| - 2] == WroteRecords(SavedRecords(c, r, EffectiveName(r.entry), p.records))
  {
    OwnPrefix(s.history, i);
    var early := Own(s.history[..i]);
    p := StackWriter(c, r, s.phase, Own(s.history), |early|);
    CompleteLink(c, r, p);
    assert forall n | 0 <= n < |early| :: early[n] == Complete(c, r, p)[n];
  }

  /** A history with a decided link in it, up to the moment before the stack is written. */
  lemma LinkedBefore<V(!new)>(c: Setting<V>, r: LinkRequest, w: World<V>, h: seq<Event<V>>, p: Plan<V>)
                       returns (seen: nat, saved: nat)
    requires r.Link? && AllJustified(c, r, w, h) && p.what in {Write, Adopt, Unchanged}
    requires |Own(h)| > 2 && Own(h)[1] == Judged(EffectiveName(r.entry), p.what, p.records)
    requires p.what == Write ==> Own(h)[2] == WroteEntry(EffectiveName(r.entry), c.planned(r.entry))
    requires Own(h)[|Own(h)| - 2] == WroteRecords(SavedRecords(c, r, EffectiveName(r.entry), p.records))
    ensures seen <= |h| && saved < |h|
    ensures HasLink(c, r.entry, Replay(w, h[..seen])) && RecordsLink(c, r.entry, h[saved])
  {
    if p.what == Write {
      seen := EntryWritten(c, r, w, h);
    } else {
      seen := EntryFound(c, r, w, h);
    }
    saved := OwnAt(h, |Own(h)| - 2);
  }

  lemma EntryWritten<V(!new)>(c: Setting<V>, r: LinkRequest, w: World<V>, h: seq<Event<V>>) returns (seen: nat)
    requires |Own(h)| > 2 && Own(h)[2] == WroteEntry(EffectiveName(r.entry), c.planned(r.entry))
    ensures seen <= |h| && HasLink(c, r.entry, Replay(w, h[..seen]))
  {
    var k := OwnAt(h, 2);
    ReplayOne(w, h[..k], h[k]);
    seen := k + 1;
    assert h[..k] + [h[k]] == h[..seen];
  }

  /** The entry was in place when the request decided what to do. */
  lemma EntryFound<V(!new)>(c: Setting<V>, r: LinkRequest, w: World<V>, h: seq<Event<V>>) returns (seen: nat)
    requires r.Link? && AllJustified(c, r, w, h)
    requires |Own(h)| > 1 && Own(h)[1].Judged? && Own(h)[1].name == EffectiveName(r.entry)
            && Own(h)[1].what in {Adopt, Unchanged}
    ensures seen <= |h| && HasLink(c, r.entry, Replay(w, h[..seen]))
  {
    seen := OwnAt(h, 1);
    assert Justified(c, r, Replay(w, h[..seen]), h[seen]);
  }

  lemma JustifiedPrefix<V(!new)>(c: Setting<V>, r: LinkRequest, w: World<V>, h: seq<Event<V>>, i: nat)
    requires AllJustified(c, r, w, h) && i <= |h|
    ensures AllJustified(c, r, w, h[..i])
  {
    forall j | 0 <= j < i ensures Justified(c, r, Replay(w, h[..i][..j]), h[..i][j]) {
      assert h[..i][..j] == h[..j];
    }
  }

  /***** What a response means *****/

  ghost predicate WroteTheStack<V(!new)>(own: seq<Event<V>>) { exists n | 0 <= n < |own| :: own[n].WroteStack? }

  ghost predicate WroteTheClient<V(!new)>(own: seq<Event<V>>) {
    exists n | 0 <= n < |own| :: own[n].WroteEntry? || own[n].RemovedEntry?
  }

  ghost predicate WroteTheRecords<V(!new)>(own: seq<Event<V>>) { exists n | 0 <= n < |own| :: own[n].WroteRecords? }

  ghost predicate WroteNothing<V(!new)>(own: seq<Event<V>>) {
    !WroteTheStack(own) && !WroteTheClient(own) && !WroteTheRecords(own)
  }

  /** What the request decided about the client's entry, once it did. */
  function VerdictOf<V>(own: seq<Event<V>>): Option<Ownership> {
    if |own| > 1 && own[1].Judged? then Some(own[1].what) else None
  }

  /** Which of the stack, the client's configuration and the records a response says were written. */
  ghost predicate Means<V(!new)>(r: LinkRequest, response: Response, own: seq<Event<V>>) {
    var what := VerdictOf(own);
    match response
    case Linked(already) =>
      && r.Link? && what in {Some(Write), Some(Adopt), Some(Unchanged)} && already == (what == Some(Unchanged))
      && WroteTheStack(own) && WroteTheRecords(own) && (WroteTheClient(own) <==> what == Some(Write))
    case Unlinked =>
      && r.Unlink? && what in {Some(Delete), Some(Purge), Some(Forget), Some(Nothing)}
      && own[0].Read? && (WroteTheStack(own) <==> Remove(own[0].base, r.entry.client).Ok?)
      && (WroteTheClient(own) <==> what == Some(Delete)) && (WroteTheRecords(own) <==> what != Some(Nothing))
    case StackNotUpdated =>
      && what.Some? && what != Some(Refuse) && !WroteTheStack(own)
      && (WroteTheClient(own) <==> what in {Some(Write), Some(Delete)})
          && (WroteTheRecords(own) <==> what != Some(Nothing))
    case Failed =>
      && !WroteTheStack(own) && !WroteTheRecords(own) && what !in {Some(Nothing), Some(Refuse)}
      && (WroteTheClient(own) ==> what in {Some(Write), Some(Delete)})
    case Conflict => what == Some(Refuse) && WroteNothing(own)
    case NeitherLinkedNorDeclared => what == Some(Nothing) && WroteNothing(own)
    case _ => what == None && WroteNothing(own)
  }

  /** Which files a request wrote, by its answer, whatever else happened meanwhile. */
  lemma WhatAResponseMeans<V(!new)>(c: Setting<V>, r: LinkRequest, w: World<V>, actions: seq<Action<V>>)
    requires Run(c, r, Start(w), actions).Some? && Run(c, r, Start(w), actions).value.phase.Done?
    ensures var s := Run(c, r, Start(w), actions).value; Means(r, s.phase.response, Own(s.history))
  {
    var s := Run(c, r, Start(w), actions).value;
    EveryRunIsAccounted(c, r, w, actions);
    AnswerMeans(c, r, s.phase, Own(s.history));
  }

  lemma WritesConcat<V(!new)>(a: seq<Event<V>>, b: seq<Event<V>>)
    ensures WroteTheStack(a + b) <==> WroteTheStack(a) || WroteTheStack(b)
    ensures WroteTheClient(a + b) <==> WroteTheClient(a) || WroteTheClient(b)
    ensures WroteTheRecords(a + b) <==> WroteTheRecords(a) || WroteTheRecords(b)
  {
    assert forall n | 0 <= n < |a| :: (a + b)[n] == a[n];
    assert forall n | 0 <= n < |b| :: (a + b)[|a| + n] == b[n];
  }

  lemma AnswerMeans<V(!new)>(c: Setting<V>, r: LinkRequest, phase: Phase<V>, own: seq<Event<V>>)
    requires phase.Done? && Trace(c, r, phase, own)
    ensures Means(r, phase.response, own)
  {
    if |own| > 1 {
      var p := Stages(c, r, phase, own);
      PlanMeans(c, r, phase.response, p, own);
    }
  }

  /** A plan begins with the read and the decision. */
  lemma VerdictIs<V(!new)>(c: Setting<V>, r: LinkRequest, p: Plan<V>, more: seq<Event<V>>)
    ensures VerdictOf(Judgement(p) + more) == Some(p.what) && (Judgement(p) + more)[0] == Read(p.base)
  {
  }

  lemma SideBegins<V(!new)>(c: Setting<V>, r: LinkRequest, p: Plan<V>, more: seq<Event<V>>)
    ensures VerdictOf(ClientSide(c, r, p) + more) == Some(p.what) && (ClientSide(c, r, p) + more)[0] == Read(p.base)
  {
    var side := ClientSide(c, r, p);
    assert side[0] == Read(p.base) && side[1] == Judged(p.name, p.what, p.records);
    assert (side + more)[0] == side[0] && (side + more)[1] == side[1];
  }

  lemma PlanMeans<V(!new)>(c: Setting<V>, r: LinkRequest, response: Response, p: Plan<V>, own: seq<Event<V>>)
    requires PlanFits(c, r, p) && Answers(c, r, response, p, own)
    ensures Means(r, response, own)
  {
    match response
    case Linked(_) => LinkedMeans(c, r, response, p, own);
    case Unlinked => UnlinkedMeans(c, r, p, own);
    case StackNotUpdated => NotUpdatedMeans(c, r, p, own);
    case Failed => FailedMeans(c, r, p, own);
    case _ =>
  }

  lemma LinkedMeans<V(!new)>(c: Setting<V>, r: LinkRequest, response: Response, p: Plan<V>, own: seq<Event<V>>)
    requires response.Linked? && PlanFits(c, r, p) && Answers(c, r, response, p, own)
    ensures Means(r, response, own)
  {
    WritesOf(c, r, p);
    SideBegins(c, r, p, [Verified(p.base), WroteStack(p.updated.value)]);
    CompleteWrites(ClientSide(c, r, p), p.base, p.updated.value);
  }

  lemma NotUpdatedMeans<V(!new)>(c: Setting<V>, r: LinkRequest, p: Plan<V>, own: seq<Event<V>>)
    requires PlanFits(c, r, p) && Answers(c, r, StackNotUpdated, p, own)
    ensures Means(r, StackNotUpdated, own)
  {
    var side := ClientSide(c, r, p);
    WritesOf(c, r, p);
    if own == side {
      assert side + [] == side;
      SideBegins(c, r, p, []);
    } else {
      SideBegins(c, r, p, [Verified(p.base)]);
      WritesConcat(side, [Verified(p.base)]);
    }
  }

  lemma FailedMeans<V(!new)>(c: Setting<V>, r: LinkRequest, p: Plan<V>, own: seq<Event<V>>)
    requires PlanFits(c, r, p) && Answers(c, r, Failed, p, own)
    ensures Means(r, Failed, own)
  {
    assert Judgement(p) + [] == Judgement(p);
    VerdictIs(c, r, p, []);
    VerdictIs(c, r, p, EntryPart(c, r, p));
    WritesConcat(Judgement(p), EntryPart(c, r, p));
  }

  lemma UnlinkedMeans<V(!new)>(c: Setting<V>, r: LinkRequest, p: Plan<V>, own: seq<Event<V>>)
    requires PlanFits(c, r, p) && Answers(c, r, Unlinked, p, own)
    ensures Means(r, Unlinked, own)
  {
    var side := ClientSide(c, r, p);
    WritesOf(c, r, p);
    if p.updated.Some? {
      SideBegins(c, r, p, [Verified(p.base), WroteStack(p.updated.value)]);
      CompleteWrites(side, p.base, p.updated.value);
    } else {
      assert side + [] == side;
      SideBegins(c, r, p, []);
    }
  }

  lemma CompleteWrites<V(!new)>(side: seq<Event<V>>, base: Node, doc: Node)
    ensures var own := side + [Verified(base), WroteStack(doc)];
            && WroteTheStack(own)
            && (WroteTheClient(own) <==> WroteTheClient(side))
            && (WroteTheRecords(own) <==> WroteTheRecords(side))
  {
    var last := [Verified(base), WroteStack(doc)];
    WritesConcat(side, last);
    assert last[1].WroteStack?;
  }

  lemma WritesOf<V(!new)>(c: Setting<V>, r: LinkRequest, p: Plan<V>)
    ensures var own := ClientSide(c, r, p);
            && !WroteTheStack(own)
            && (WroteTheRecords(own) <==> p.what !in {Nothing, Refuse})
            && (WroteTheClient(own) <==> p.what in {Write, Delete})
  {
    var own := ClientSide(c, r, p);
    assert p.what !in {Nothing, Refuse} ==> own[|own| - 1].WroteRecords?;
    assert p.what in {Write, Delete} ==> own[2].WroteEntry? || own[2].RemovedEntry?;
  }

  /***** Nothing foreign is touched *****/

  ghost predicate IsEntryEvent<V(!new)>(e: Event<V>) { e.WroteEntry? || e.RemovedEntry? }

  /** An entry is written or removed third, after the decision that says so. */
  lemma EntryComesThird<V(!new)>(c: Setting<V>, r: LinkRequest, p: Plan<V>, own: seq<Event<V>>, n: nat)
    requires Partial(c, r, p, own) || (p.updated.Some? && own == Complete(c, r, p))
    requires n < |own| && IsEntryEvent(own[n])
    ensures n == 2 && p.what in {Write, Delete}
    ensures own[1] == Judged(p.name, p.what, p.records) && [own[2]] == EntryPart(c, r, p)
  {
    var full := if p.updated.Some? then Complete(c, r, p) else ClientSide(c, r, p) + [Verified(p.base)];
    assert forall i | 0 <= i < |own| :: own[i] == full[i];
    assert full[0].Read? && full[1].Judged?;
  }

  /**
   In every run an entry is removed only if, when the request looked, it held a value gridctl had written, and is
   written over only if it did, or was missing, or the request forces it.
   */
  lemma OnlyOwnedIsTouched<V(!new)>(c: Setting<V>, r: LinkRequest, w: World<V>, actions: seq<Action<V>>, i: nat)
                             returns (seen: nat)
    requires Run(c, r, Start(w), actions).Some?
    requires var h := Run(c, r, Start(w), actions).value.history; i < |h| && IsEntryEvent(h[i])
    ensures var h := Run(c, r, Start(w), actions).value.history;
            seen < i && MayTouch(r, Replay(w, h[..seen]), h[i])
  {
    EveryRunIsAccounted(c, r, w, actions);
    seen := TouchSeen(c, r, w, Run(c, r, Start(w), actions).value, i);
  }

  lemma TouchSeen<V(!new)>(c: Setting<V>, r: LinkRequest, w: World<V>, s: System<V>, i: nat) returns (seen: nat)
    requires AllJustified(c, r, w, s.history) && Trace(c, r, s.phase, Own(s.history))
    requires i < |s.history| && IsEntryEvent(s.history[i])
    ensures seen < i && MayTouch(r, Replay(w, s.history[..seen]), s.history[i])
  {
    var h := s.history[..i];
    OwnPrefix(s.history, i);
    var p := TouchPlan(c, r, s.phase, Own(s.history), |Own(h)|);
    assert Own(h)[1] == Own(s.history)[1];
    seen := OwnAt(h, 1);
    TouchAllowed(c, r, Replay(w, s.history[..seen]), p, s.history[i]);
  }

  lemma TouchAllowed<V(!new)>(c: Setting<V>, r: LinkRequest, now: World<V>, p: Plan<V>, e: Event<V>)
    requires PlanFits(c, r, p) && p.what in {Write, Delete} && Justified(c, r, now, Judged(p.name, p.what, p.records))
    requires [e] == EntryPart(c, r, p) && IsEntryEvent(e)
    ensures MayTouch(r, now, e)
  {
    assert e == EntryPart(c, r, p)[0];
  }

  /** When an entry may be removed or written, by what the request saw. */
  ghost predicate MayTouch<V(!new)>(r: LinkRequest, now: World<V>, e: Event<V>)
    requires IsEntryEvent(e)
  {
    if e.RemovedEntry? then r.Unlink? && Owned(now, e.name)
    else r.Link? && (r.force || e.name !in now.config || Owned(now, e.name))
  }

  lemma TouchPlan<V(!new)>(c: Setting<V>, r: LinkRequest, phase: Phase<V>, own: seq<Event<V>>, n: nat)
                    returns (p: Plan<V>)
    requires Trace(c, r, phase, own) && n < |own| && IsEntryEvent(own[n])
    ensures n == 2 && PlanFits(c, r, p) && p.what in {Write, Delete}
    ensures own[1] == Judged(p.name, p.what, p.records) && [own[2]] == EntryPart(c, r, p)
  {
    p := Stages(c, r, phase, own);
    EntryComesThird(c, r, p, own, n);
  }

  /***** Errors *****/

  /** The next step reads or writes something, so it can fail. Dropping a missing client's record may fail silently. */
  predicate CanFail<V>(r: LinkRequest, w: World<V>, phase: Phase<V>) {
    match phase
    case Detected => true
    case HasPatch(_, _, _) => r.Link? || w.installed
    case Decided(p) => p.what == Write || p.what == Delete
    case EntryDone(p) => p.what != Forget
    case RecordDone(_) => true
    case Checked(_) => true
    case _ => false
  }

  /** What an error is answered with: by then the client's side is done, or it is not. */
  function ErrorResponse<V>(phase: Phase<V>): Response {
    if phase.RecordDone? || phase.Checked? then StackNotUpdated else Failed
  }

  lemma ErrorStep<V(!new)>(c: Setting<V>, r: LinkRequest, w: World<V>, phase: Phase<V>, outcome: Outcome)
    requires CanFail(r, w, phase) && outcome != Succeeds
    ensures var e := Advance(c, r, w, phase, outcome); e.phase == Done(ErrorResponse(phase)) && e.world.stack == w.stack
  {
  }

  lemma {:induction false} DoneIsFinal<V(!new)>(c: Setting<V>, r: LinkRequest, s: System<V>, actions: seq<Action<V>>)
    requires s.phase.Done? && Run(c, r, s, actions).Some?
    ensures Run(c, r, s, actions).value.phase == s.phase
    decreases |actions|
  {
    if actions != [] { DoneIsFinal(c, r, Step(c, r, s, actions[0]).value, actions[1..]); }
  }

  /** In every run an error ends the request, is what it reports, and keeps the stack from being written. */
  lemma {:induction false} ErrorsAreReported<V(!new)>(c: Setting<V>, r: LinkRequest, s: System<V>,
                                                      actions: seq<Action<V>>, i: nat)
    requires i < |actions| && Run(c, r, s, actions).Some? && Run(c, r, s, actions[..i]).Some?
    requires actions[i].Next? && actions[i].outcome != Succeeds
    requires var now := Run(c, r, s, actions[..i]).value; CanFail(r, now.world, now.phase)
    ensures Run(c, r, s, actions).value.phase == Done(ErrorResponse(Run(c, r, s, actions[..i]).value.phase))
    decreases i
  {
    var next := Step(c, r, s, actions[0]).value;
    if i == 0 {
      assert actions[..0] == [];
      ErrorStep(c, r, s.world, s.phase, actions[0].outcome);
      DoneIsFinal(c, r, next, actions[1..]);
    } else {
      assert actions[..i][0] == actions[0] && actions[..i][1..] == actions[1..][..i - 1];
      ErrorsAreReported(c, r, next, actions[1..], i - 1);
    }
  }

  /***** The other clients *****/

  /** Every other client is declared as before. */
  ghost predicate OthersDeclared(rest: Rest, before: Node, after: Node, client: string) {
    Decodes(rest, before) ==>
      && Decodes(rest, after)
      && forall other | other != "" && other != client ::
           Declared(rest, after, other) == Declared(rest, before, other)
  }

  lemma PlanKeepsOthers<V(!new)>(c: Setting<V>, r: LinkRequest, p: Plan<V>)
    requires PlanFits(c, r, p) && p.updated.Some? && r.entry.client != ""
    ensures OthersDeclared(c.rest, p.base, p.updated.value, r.entry.client)
  {
    if Decodes(c.rest, p.base) {
      forall other | other != "" && other != r.entry.client
        ensures Declared(c.rest, p.updated.value, other) == Declared(c.rest, p.base, other)
      {
        if r.Link? { UpsertKeepsOthers(c.rest, p.base, r.entry, other); }
        else { RemoveKeepsOthers(c.rest, p.base, r.entry.client, other); }
      }
      if r.Link? { UpsertDeclares(c.rest, p.base, r.entry); }
      else { RemoveDecodes(c.rest, p.base, r.entry.client); }
    }
  }

  /** In every run, a stack that is written declares every other client as the stack that was read does. */
  lemma OthersStayDeclared<V(!new)>(c: Setting<V>, r: LinkRequest, w: World<V>, actions: seq<Action<V>>, i: nat)
    returns (base: Node)
    requires r.entry.client != "" && Run(c, r, Start(w), actions).Some?
    requires var h := Run(c, r, Start(w), actions).value.history; i < |h| && h[i].WroteStack?
    ensures var h := Run(c, r, Start(w), actions).value.history;
            Verified(base) in h[..i] && OthersDeclared(c.rest, base, h[i].doc, r.entry.client)
  {
    EveryRunIsAccounted(c, r, w, actions);
    var s := Run(c, r, Start(w), actions).value;
    OwnPrefix(s.history, i);
    var own, n := Own(s.history), |Own(s.history[..i])|;
    var p := StackWriter(c, r, s.phase, own, n);
    base := p.base;
    PlanKeepsOthers(c, r, p);
    assert own[n - 1] == Verified(base) && Own(s.history[..i])[n - 1] == own[n - 1];
    var k := OwnAt(s.history[..i], n - 1);
    assert s.history[..i][k] in s.history[..i];
  }
}
