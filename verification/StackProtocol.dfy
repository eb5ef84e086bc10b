/**
 The cycle every edit of stack.yaml follows: take the path lock, read, patch, read again
 and compare, (in the command-line writer) back up, replace the file, release the lock.

 Any number of writers share the lock; everybody else is an outside editor who may replace
 or remove the file between any two steps. A run is a sequence of actions, so the theorems
 below, which hold for every sequence of actions, hold for every interleaving.
 */
module StackProtocol {
  import opened Base

  /** `Cli` is the command-line writer, which backs the file up before replacing it. */
  datatype Kind = Api | Cli

  /** What one request wants done: `patch` rejects the document (None) or rewrites it. */
  datatype Job<!D> = Job(kind: Kind, patch: D -> Option<D>)

  /** How far a writer got. The `At` fields are positions in the history. */
  datatype Phase<+D> =
    | Waiting
    | Locked
    | HasBase(base: D)
    | HasPatch(base: D, updated: D)
    | Checked(base: D, updated: D, checkedAt: nat)
    | BackedUp(base: D, updated: D, checkedAt: nat, savedAt: nat)
    | Returning(committed: bool)
    | Finished(committed: bool)

  /** What happened to the file, in order. `Verified` is a second read that found the base. */
  datatype Event<+D> =
    | Outside(now: Option<D>)
    | Verified(writer: nat, base: D)
    | Saved(writer: nat, copy: Option<D>)
    | Commit(writer: nat, updated: D, checkedAt: nat, savedAt: Option<nat>)

  datatype System<+D> = System(file: Option<D>, lock: Option<nat>, phases: seq<Phase<D>>, history: seq<Event<D>>)

  /** One step. `ok` is false when the operating system reports an error. */
  datatype Action<+D> =
    | Acquire(writer: nat)
    | Read(writer: nat, ok: bool)
    | Patch(writer: nat)
    | Reread(writer: nat, ok: bool)
    | Backup(writer: nat, ok: bool)
    | Replace(writer: nat, ok: bool)
    | Release(writer: nat)
    | Edit(now: Option<D>)

  function Start<D>(file: Option<D>, writers: nat): System<D> {
    System(file, None, seq(writers, _ => Waiting), [])
  }

  function Move<D>(s: System<D>, w: nat, phase: Phase<D>): System<D>
    requires w < |s.phases|
  {
    s.(phases := s.phases[w := phase])
  }

  function Note<D>(s: System<D>, event: Event<D>): System<D> {
    s.(history := s.history + [event])
  }

  /** The effect of an action, or None when the action is not possible in this state. */
  function Step<D(==)>(jobs: seq<Job<D>>, s: System<D>, a: Action<D>): Option<System<D>>
    requires |s.phases| == |jobs|
  {
    if a.Edit? then
      Some(Note(s.(file := a.now), Outside(a.now)))
    else if a.writer >= |jobs| then
      None
    else
      StepOf(jobs[a.writer], s, a)
  }

  function StepOf<D(==)>(job: Job<D>, s: System<D>, a: Action<D>): Option<System<D>>
    requires !a.Edit? && a.writer < |s.phases|
  {
    var w := a.writer;
    match (a, s.phases[w])
    case (Acquire(_), Waiting) =>
      if s.lock.None? then Some(Move(s.(lock := Some(w)), w, Locked)) else None
    case (Read(_, ok), Locked) =>
      if ok && s.file.Some? then Some(Move(s, w, HasBase(s.file.value))) else Some(Move(s, w, Returning(false)))
    case (Patch(_), HasBase(base)) =>
      var updated := job.patch(base);
      Some(Move(s, w, if updated.Some? then HasPatch(base, updated.value) else Returning(false)))
    case (Reread(_, ok), HasPatch(base, updated)) =>
      if ok && s.file == Some(base) then
        Some(Note(Move(s, w, Checked(base, updated, |s.history|)), Verified(w, base)))
      else
        Some(Move(s, w, Returning(false)))
    case (Backup(_, ok), Checked(base, updated, at)) =>
      if job.kind == Api then None
      else if ok then
        Some(Note(Move(s, w, BackedUp(base, updated, at, |s.history|)), Saved(w, s.file)))
      else
        Some(Move(s, w, Returning(false)))
    case (Replace(_, ok), Checked(_, updated, at)) =>
      if job.kind == Cli then None else Some(Replaced(s, w, ok, updated, at, None))
    case (Replace(_, ok), BackedUp(_, updated, at, saved)) =>
      Some(Replaced(s, w, ok, updated, at, Some(saved)))
    case (Release(_), Returning(committed)) =>
      Some(Move(s.(lock := None), w, Finished(committed)))
    case _ => None
  }

  function Replaced<D>(s: System<D>, w: nat, ok: bool, updated: D, at: nat, saved: Option<nat>): System<D>
    requires w < |s.phases|
  {
    if ok then Note(Move(s.(file := Some(updated)), w, Returning(true)), Commit(w, updated, at, saved))
    else Move(s, w, Returning(false))
  }

  /** The state after a whole run, or None when some action was not possible. */
  function Run<D(==)>(jobs: seq<Job<D>>, s: System<D>, actions: seq<Action<D>>): (r: Option<System<D>>)
    requires |s.phases| == |jobs|
    ensures r.Some? ==> |r.value.phases| == |jobs|
    decreases |actions|
  {
    if actions == [] then Some(s)
    else
      var next := Step(jobs, s, actions[0]);
      if next.None? then None else Run(jobs, next.value, actions[1..])
  }

  /***** What a history says *****/

  /** The file after the events: the last outside edit or committed write. */
  function Content<D>(file: Option<D>, history: seq<Event<D>>): Option<D> {
    if history == [] then file
    else
      match history[|history| - 1]
      case Outside(now) => now
      case Commit(_, updated, _, _) => Some(updated)
      case _ => Content(file, history[..|history| - 1])
  }

  ghost predicate OutsideBetween<D(!new)>(history: seq<Event<D>>, lo: int, hi: int) {
    exists k | lo < k < hi :: 0 <= k < |history| && history[k].Outside?
  }

  /** Between two positions the history holds outside edits and nothing else than this writer's own backup. */
  ghost predicate OnlyOutside<D>(history: seq<Event<D>>, lo: nat, hi: nat, w: nat) {
    hi <= |history| &&
    forall k | lo < k < hi :: history[k].Outside? || (history[k].Saved? && history[k].writer == w)
  }

  /** An event is justified by what came before it. */
  ghost predicate Justified<D>(jobs: seq<Job<D>>, file: Option<D>, history: seq<Event<D>>, j: nat)
    requires j < |history|
  {
    match history[j]
    case Outside(_) => true
    case Verified(w, base) => Content(file, history[..j]) == Some(base)
    case Saved(w, copy) => w < |jobs| && jobs[w].kind == Cli && Content(file, history[..j]) == copy
    case Commit(w, updated, at, saved) =>
      && w < |jobs| && at < j
      && history[at].Verified? && history[at].writer == w
      && jobs[w].patch(history[at].base) == Some(updated)
      && OnlyOutside(history, at, j, w)
      && (jobs[w].kind == Cli <==> saved.Some?)
      && (saved.Some? ==> at < saved.value < j && history[saved.value].Saved? && history[saved.value].writer == w)
  }

  ghost predicate Sound<D>(jobs: seq<Job<D>>, file: Option<D>, history: seq<Event<D>>) {
    forall j | 0 <= j < |history| :: Justified(jobs, file, history, j)
  }

  /** The writers that replaced the file, in the order they did. */
  function CommitOrder<D>(history: seq<Event<D>>): seq<nat> {
    if history == [] then []
    else
      var last := history[|history| - 1];
      CommitOrder(history[..|history| - 1]) + (if last.Commit? then [last.writer] else [])
  }

  /***** The invariant *****/

  predicate InCycle<D>(p: Phase<D>) {
    !p.Waiting? && !p.Finished?
  }

  predicate Committed<D>(p: Phase<D>) {
    (p.Returning? || p.Finished?) && p.committed
  }

  ghost predicate PhaseOk<D>(job: Job<D>, w: nat, p: Phase<D>, history: seq<Event<D>>) {
    match p
    case HasPatch(base, updated) => job.patch(base) == Some(updated)
    case Checked(base, updated, at) => Pending(job, w, base, updated, at, history)
    case BackedUp(base, updated, at, saved) =>
      && job.kind == Cli
      && Pending(job, w, base, updated, at, history)
      && at < saved < |history| && history[saved].Saved? && history[saved].writer == w
    case _ => true
  }

  ghost predicate Pending<D>(job: Job<D>, w: nat, base: D, updated: D, at: nat, history: seq<Event<D>>) {
    && job.patch(base) == Some(updated)
    && at < |history| && history[at] == Verified(w, base)
    && OnlyOutside(history, at, |history|, w)
  }

  ghost predicate Inv<D>(jobs: seq<Job<D>>, file: Option<D>, s: System<D>) {
    && |s.phases| == |jobs|
    && s.file == Content(file, s.history)
    && Sound(jobs, file, s.history)
    && (s.lock.Some? ==> s.lock.value < |jobs|)
    && (forall w | 0 <= w < |jobs| :: InCycle(s.phases[w]) <==> s.lock == Some(w))
    && (forall w | 0 <= w < |jobs| :: PhaseOk(jobs[w], w, s.phases[w], s.history))
    && Distinct(CommitOrder(s.history))
    && (forall w: nat :: w in CommitOrder(s.history) <==> w < |jobs| && Committed(s.phases[w]))
  }

  lemma SoundExtends<D>(jobs: seq<Job<D>>, file: Option<D>, h: seq<Event<D>>, e: Event<D>)
    requires Sound(jobs, file, h)
    requires Justified(jobs, file, h + [e], |h|)
    ensures Sound(jobs, file, h + [e])
  {
    var h' := h + [e];
    forall j | 0 <= j < |h'| ensures Justified(jobs, file, h', j) {
      if j < |h| {
        assert h'[..j] == h[..j];
        assert Justified(jobs, file, h, j);
      }
    }
  }

  lemma Appended<D>(file: Option<D>, h: seq<Event<D>>, e: Event<D>)
    ensures (h + [e])[..|h|] == h
    ensures Content(file, h + [e]) ==
            (match e
             case Outside(now) => now
             case Commit(_, updated, _, _) => Some(updated)
             case _ => Content(file, h))
    ensures CommitOrder(h + [e]) == CommitOrder(h) + (if e.Commit? then [e.writer] else [])
  {
    assert (h + [e])[..|h|] == h;
  }

  /** A step of the lock holder (or of the writer that takes the free lock) that leaves no trace. */
  lemma QuietStep<D(!new)>(jobs: seq<Job<D>>, file: Option<D>, s: System<D>, w: nat, lock: Option<nat>, p: Phase<D>)
    requires Inv(jobs, file, s) && w < |jobs|
    requires s.lock.None? || s.lock == Some(w)
    requires lock == if InCycle(p) then Some(w) else None
    requires PhaseOk(jobs[w], w, p, s.history)
    requires Committed(p) == Committed(s.phases[w])
    ensures Inv(jobs, file, Move(s.(lock := lock), w, p))
  {
  }

  /** A step of the lock holder that is recorded in the history. */
  lemma RecordedStep<D(!new)>(jobs: seq<Job<D>>, file: Option<D>, s: System<D>, w: nat, p: Phase<D>, e: Event<D>,
                       now: Option<D>)
    requires Inv(jobs, file, s) && w < |jobs| && s.lock == Some(w)
    requires !e.Outside? && e.writer == w
    requires Justified(jobs, file, s.history + [e], |s.history|)
    requires InCycle(p) && PhaseOk(jobs[w], w, p, s.history + [e])
    requires !Committed(s.phases[w]) && (Committed(p) <==> e.Commit?)
    requires now == if e.Commit? then Some(e.updated) else s.file
    ensures Inv(jobs, file, Note(Move(s.(file := now), w, p), e))
  {
    Appended(file, s.history, e);
    SoundExtends(jobs, file, s.history, e);
  }

  /** Every action keeps the invariant, whoever takes it. */
  lemma StepKeepsInv<D(!new)>(jobs: seq<Job<D>>, file: Option<D>, s: System<D>, a: Action<D>)
    requires Inv(jobs, file, s)
    requires Step(jobs, s, a).Some?
    ensures Inv(jobs, file, Step(jobs, s, a).value)
  {
    if a.Edit? {
      OutsideKeepsInv(jobs, file, s, a.now);
    } else {
      var w, s' := a.writer, Step(jobs, s, a).value;
      var h, p := s.history, s.phases[w];
      assert PhaseOk(jobs[w], w, p, h);
      if s'.history == h {
        QuietStep(jobs, file, s, w, s'.lock, s'.phases[w]);
      } else {
        RecordedStepKeepsInv(jobs, file, s, a);
      }
    }
  }

  lemma RecordedStepKeepsInv<D(!new)>(jobs: seq<Job<D>>, file: Option<D>, s: System<D>, a: Action<D>)
    requires Inv(jobs, file, s) && !a.Edit?
    requires Step(jobs, s, a).Some? && Step(jobs, s, a).value.history != s.history
    ensures Inv(jobs, file, Step(jobs, s, a).value)
  {
    var w, s' := a.writer, Step(jobs, s, a).value;
    var h := s.history;
    assert PhaseOk(jobs[w], w, s.phases[w], h);
    var e := s'.history[|h|];
    assert s'.history == h + [e] && (h + [e])[..|h|] == h;
    RecordedStep(jobs, file, s, w, s'.phases[w], e, s'.file);
  }

  lemma OutsideKeepsInv<D(!new)>(jobs: seq<Job<D>>, file: Option<D>, s: System<D>, now: Option<D>)
    requires Inv(jobs, file, s)
    ensures Inv(jobs, file, Note(s.(file := now), Outside(now)))
  {
    Appended(file, s.history, Outside(now));
    SoundExtends(jobs, file, s.history, Outside(now));
    forall w | 0 <= w < |jobs| ensures PhaseOk(jobs[w], w, s.phases[w], s.history + [Outside(now)]) {
      assert PhaseOk(jobs[w], w, s.phases[w], s.history);
    }
  }

  /***** Theorems over every run *****/

  lemma {:induction false} RunKeepsInv<D(!new)>(jobs: seq<Job<D>>, file: Option<D>, s: System<D>,
                                actions: seq<Action<D>>)
    requires Inv(jobs, file, s)
    requires Run(jobs, s, actions).Some?
    ensures Inv(jobs, file, Run(jobs, s, actions).value)
    decreases |actions|
  {
    if actions != [] {
      StepKeepsInv(jobs, file, s, actions[0]);
      RunKeepsInv(jobs, file, Step(jobs, s, actions[0]).value, actions[1..]);
    }
  }

  /** Whatever the writers and the outside editors did, the history of a run is sound and tells what is in the file. */
  lemma EveryRunIsSound<D(!new)>(jobs: seq<Job<D>>, file: Option<D>, actions: seq<Action<D>>, s: System<D>)
    requires Run(jobs, Start(file, |jobs|), actions) == Some(s)
    ensures Inv(jobs, file, s)
  {
    RunKeepsInv(jobs, file, Start(file, |jobs|), actions);
  }

  /** Without an outside edit in between, the file does not change after a position of a lone writer's window. */
  lemma {:induction false} QuietWindow<D(!new)>(file: Option<D>, h: seq<Event<D>>, lo: nat, hi: nat, w: nat)
    requires lo < hi && OnlyOutside(h, lo, hi, w)
    requires !h[lo].Outside? && !h[lo].Commit?
    ensures Content(file, h[..hi]) == Content(file, h[..lo]) ||
            exists k | lo < k < hi :: h[k].Outside? && Content(file, h[..hi]) == h[k].now
    ensures !OutsideBetween(h, lo, hi) ==> Content(file, h[..hi]) == Content(file, h[..lo])
    decreases hi
  {
    Appended(file, h[..hi - 1], h[hi - 1]);
    assert h[..hi] == h[..hi - 1] + [h[hi - 1]];
    if lo < hi - 1 {
      QuietWindow(file, h, lo, hi - 1, w);
    }
  }

  /**
   A committed write was computed from the contents found by its second read, and what it overwrites is
   that base or an outside edit made after the second read. The command-line writer narrows the loss
   further: what it overwrites is in its backup or is an outside edit made after the backup.
   */
  lemma WhatACommitReplaces<D(!new)>(jobs: seq<Job<D>>, file: Option<D>, h: seq<Event<D>>, j: nat)
    requires Sound(jobs, file, h) && j < |h| && h[j].Commit?
    ensures var at, w := h[j].checkedAt, h[j].writer;
            && w < |jobs| && at < j && h[at].Verified? && h[at].writer == w
            && Content(file, h[..at]) == Some(h[at].base)
            && jobs[w].patch(h[at].base) == Some(h[j].updated)
            && (Content(file, h[..j]) == Some(h[at].base) ||
                exists k | at < k < j :: h[k].Outside? && Content(file, h[..j]) == h[k].now)
            && (!OutsideBetween(h, at, j) ==> Content(file, h[..j]) == Some(h[at].base))
    ensures jobs[h[j].writer].kind == Cli ==>
              && h[j].savedAt.Some?
              && var saved := h[j].savedAt.value;
                && h[j].checkedAt < saved < j && h[saved].Saved?
                && h[saved].copy == Content(file, h[..saved])
                && (Content(file, h[..j]) == h[saved].copy ||
                    exists k | saved < k < j :: h[k].Outside? && Content(file, h[..j]) == h[k].now)
                && (!OutsideBetween(h, saved, j) ==> Content(file, h[..j]) == h[saved].copy)
  {
    var at, w := h[j].checkedAt, h[j].writer;
    assert Justified(jobs, file, h, j) && Justified(jobs, file, h, at);
    QuietWindow(file, h, at, j, w);
    if jobs[w].kind == Cli {
      var saved := h[j].savedAt.value;
      assert Justified(jobs, file, h, saved);
      QuietWindow(file, h, saved, j, w);
    }
  }

  /** Doing the same things one after another, each write patching what is in the file at that moment. */
  function Serial<D>(jobs: seq<Job<D>>, file: Option<D>, history: seq<Event<D>>): Option<D> {
    if history == [] then file
    else
      var before := Serial(jobs, file, history[..|history| - 1]);
      match history[|history| - 1]
      case Outside(now) => now
      case Commit(w, _, _, _) => Apply(jobs, w, before)
      case _ => before
  }

  function Apply<D>(jobs: seq<Job<D>>, w: nat, file: Option<D>): Option<D> {
    if w < |jobs| && file.Some? then jobs[w].patch(file.value) else None
  }

  /** The patches of the given writers applied in order. */
  function Fold<D>(jobs: seq<Job<D>>, file: Option<D>, order: seq<nat>): Option<D> {
    if order == [] then file else Apply(jobs, order[|order| - 1], Fold(jobs, file, order[..|order| - 1]))
  }

  /** No outside edit fell between a commit and the second read it relied on. */
  ghost predicate CleanWindows<D(!new)>(h: seq<Event<D>>) {
    forall j | 0 <= j < |h| && h[j].Commit? :: !OutsideBetween(h, h[j].checkedAt, j)
  }

  lemma {:induction false} SerialPrefix<D(!new)>(jobs: seq<Job<D>>, file: Option<D>, h: seq<Event<D>>, n: nat)
    requires Sound(jobs, file, h) && CleanWindows(h) && n <= |h|
    ensures Content(file, h[..n]) == Serial(jobs, file, h[..n])
  {
    if n > 0 {
      SerialPrefix(jobs, file, h, n - 1);
      assert h[..n][..n - 1] == h[..n - 1] && h[..n][n - 1] == h[n - 1];
      if h[n - 1].Commit? { WhatACommitReplaces(jobs, file, h, n - 1); }
    }
  }

  /** If no outside edit falls into the gap between second read and replacement, the run is serial. */
  lemma CleanRunsAreSerial<D(!new)>(jobs: seq<Job<D>>, file: Option<D>, actions: seq<Action<D>>, s: System<D>)
    requires Run(jobs, Start(file, |jobs|), actions) == Some(s)
    requires CleanWindows(s.history)
    ensures s.file == Serial(jobs, file, s.history)
  {
    EveryRunIsSound(jobs, file, actions, s);
    SerialPrefix(jobs, file, s.history, |s.history|);
    assert s.history[..|s.history|] == s.history;
  }

  ghost predicate NoOutsideEdits<D>(actions: seq<Action<D>>) {
    forall i | 0 <= i < |actions| :: !actions[i].Edit?
  }

  lemma {:induction false} SerialIsFold<D(!new)>(jobs: seq<Job<D>>, file: Option<D>, h: seq<Event<D>>)
    requires forall i | 0 <= i < |h| :: !h[i].Outside?
    ensures Serial(jobs, file, h) == Fold(jobs, file, CommitOrder(h))
  {
    if h != [] {
      var rest := h[..|h| - 1];
      SerialIsFold(jobs, file, rest);
      assert h == rest + [h[|h| - 1]];
      if h[|h| - 1].Commit? {
        assert CommitOrder(h)[..|CommitOrder(h)| - 1] == CommitOrder(rest);
      } else {
        assert CommitOrder(h) == CommitOrder(rest);
      }
    }
  }

  lemma {:induction false} QuietHistory<D(!new)>(jobs: seq<Job<D>>, s: System<D>, actions: seq<Action<D>>)
    requires |s.phases| == |jobs| && Run(jobs, s, actions).Some? && NoOutsideEdits(actions)
    requires forall i | 0 <= i < |s.history| :: !s.history[i].Outside?
    ensures var h := Run(jobs, s, actions).value.history; forall i | 0 <= i < |h| :: !h[i].Outside?
    decreases |actions|
  {
    if actions != [] {
      assert !actions[0].Edit?;
      QuietHistory(jobs, Step(jobs, s, actions[0]).value, actions[1..]);
    }
  }

  /** Without outside edits the file is the committed patches applied in commit order, each writer once. */
  lemma LockedWritersFold<D(!new)>(jobs: seq<Job<D>>, file: Option<D>, actions: seq<Action<D>>, s: System<D>)
    requires Run(jobs, Start(file, |jobs|), actions) == Some(s)
    requires NoOutsideEdits(actions)
    ensures s.file == Fold(jobs, file, CommitOrder(s.history))
    ensures Distinct(CommitOrder(s.history))
    ensures forall w: nat :: w in CommitOrder(s.history) <==> w < |jobs| && Committed(s.phases[w])
  {
    QuietHistory(jobs, Start(file, |jobs|), actions);
    EveryRunIsSound(jobs, file, actions, s);
    CleanRunsAreSerial(jobs, file, actions, s);
    SerialIsFold(jobs, file, s.history);
  }

  lemma {:induction false} CommitsAreOrdered<D>(h: seq<Event<D>>, j: nat)
    requires j < |h| && h[j].Commit?
    ensures h[j].writer in CommitOrder(h)
  {
    if j < |h| - 1 { CommitsAreOrdered(h[..|h| - 1], j); }
  }

  /** A writer that did not report success never replaced the file. */
  lemma FailedWritersLeaveTheFileAlone<D(!new)>(jobs: seq<Job<D>>, file: Option<D>, actions: seq<Action<D>>,
                                s: System<D>, w: nat)
    requires Run(jobs, Start(file, |jobs|), actions) == Some(s)
    requires w < |jobs| && !Committed(s.phases[w])
    ensures forall j | 0 <= j < |s.history| :: s.history[j].Commit? ==> s.history[j].writer != w
  {
    EveryRunIsSound(jobs, file, actions, s);
    forall j | 0 <= j < |s.history| && s.history[j].Commit? ensures s.history[j].writer != w {
      CommitsAreOrdered(s.history, j);
    }
  }

  /***** Failures *****/

  /** The operating system reports an error to the writer. */
  predicate Fails<D>(a: Action<D>) {
    (a.Read? || a.Reread? || a.Backup? || a.Replace?) && !a.ok
  }

  /** The writer gave up, or has reported that it did. */
  predicate GaveUp<D>(p: Phase<D>) {
    p == Returning(false) || p == Finished(false)
  }

  /** What makes a writer give up: an error, a patch that is rejected, a file that is missing or has changed. */
  predicate Stops<D(==)>(jobs: seq<Job<D>>, s: System<D>, a: Action<D>)
    requires |s.phases| == |jobs|
  {
    && !a.Edit? && a.writer < |jobs|
    && (|| Fails(a)
        || (a.Read? && s.file.None?)
        || (a.Patch? && s.phases[a.writer].HasBase? && jobs[a.writer].patch(s.phases[a.writer].base).None?)
        || (a.Reread? && s.phases[a.writer].HasPatch? && s.file != Some(s.phases[a.writer].base)))
  }

  lemma StopsHere<D(!new)>(jobs: seq<Job<D>>, s: System<D>, a: Action<D>)
    requires |s.phases| == |jobs| && Step(jobs, s, a).Some? && Stops(jobs, s, a)
    ensures GaveUp(Step(jobs, s, a).value.phases[a.writer]) && Step(jobs, s, a).value.file == s.file
  {
  }

  lemma {:induction false} GaveUpForGood<D(!new)>(jobs: seq<Job<D>>, s: System<D>, actions: seq<Action<D>>, w: nat)
    requires w < |jobs| == |s.phases| && GaveUp(s.phases[w]) && Run(jobs, s, actions).Some?
    ensures GaveUp(Run(jobs, s, actions).value.phases[w])
    decreases |actions|
  {
    if actions != [] { GaveUpForGood(jobs, Step(jobs, s, actions[0]).value, actions[1..], w); }
  }

  /**
   In every run a writer that meets an error, has its patch rejected or finds the file gone or changed does not
   touch the file in that step, never commits, before or after, and never reports success.
   */
  lemma FailureIsFinal<D(!new)>(jobs: seq<Job<D>>, file: Option<D>, actions: seq<Action<D>>, s: System<D>, i: nat)
    requires Run(jobs, Start(file, |jobs|), actions) == Some(s) && i < |actions|
    requires Run(jobs, Start(file, |jobs|), actions[..i]).Some?
             && Stops(jobs, Run(jobs, Start(file, |jobs|), actions[..i]).value, actions[i])
    ensures GaveUp(s.phases[actions[i].writer]) && !Committed(s.phases[actions[i].writer])
    ensures forall j | 0 <= j < |s.history| :: s.history[j].Commit? ==> s.history[j].writer != actions[i].writer
  {
    StopsInRun(jobs, Start(file, |jobs|), actions, i);
    FailedWritersLeaveTheFileAlone(jobs, file, actions, s, actions[i].writer);
  }

  lemma {:induction false} StopsInRun<D(!new)>(jobs: seq<Job<D>>, s: System<D>, actions: seq<Action<D>>, i: nat)
    requires |s.phases| == |jobs| && i < |actions| && Run(jobs, s, actions).Some?
    requires Run(jobs, s, actions[..i]).Some? && Stops(jobs, Run(jobs, s, actions[..i]).value, actions[i])
    ensures GaveUp(Run(jobs, s, actions).value.phases[actions[i].writer])
    decreases i
  {
    var next := Step(jobs, s, actions[0]).value;
    if i == 0 {
      assert actions[..0] == [];
      StopsHere(jobs, s, actions[0]);
      GaveUpForGood(jobs, next, actions[1..], actions[0].writer);
    } else {
      assert actions[..i][0] == actions[0] && actions[..i][1..] == actions[1..][..i - 1];
      StopsInRun(jobs, next, actions[1..], i - 1);
    }
  }

  /** The beginning of a run is a run. */
  lemma RunHasPrefixes<D(!new)>(jobs: seq<Job<D>>, s: System<D>, actions: seq<Action<D>>, i: nat)
    requires |s.phases| == |jobs| && Run(jobs, s, actions).Some? && i <= |actions|
    ensures Run(jobs, s, actions[..i]).Some?
    decreases i
  {
    if i > 0 {
      assert actions[..i][0] == actions[0] && actions[..i][1..] == actions[1..][..i - 1];
      RunHasPrefixes(jobs, Step(jobs, s, actions[0]).value, actions[1..], i - 1);
    }
  }

  /** In particular an error reported to a writer, at any point of any run, keeps it from committing. */
  lemma ErrorsAreNotIgnored<D(!new)>(jobs: seq<Job<D>>, file: Option<D>, actions: seq<Action<D>>, s: System<D>, i: nat)
    requires Run(jobs, Start(file, |jobs|), actions) == Some(s) && i < |actions|
    requires Fails(actions[i]) && actions[i].writer < |jobs|
    ensures !Committed(s.phases[actions[i].writer])
    ensures forall j | 0 <= j < |s.history| :: s.history[j].Commit? ==> s.history[j].writer != actions[i].writer
  {
    RunHasPrefixes(jobs, Start(file, |jobs|), actions, i);
    FailureIsFinal(jobs, file, actions, s, i);
  }

  /**
   The gap is real: an outside edit between second read and replacement is overwritten by an API writer
   and is neither in the file nor in the base the patch was computed from.
   */
  lemma GapLosesAnEdit<D(!new)>(job: Job<D>, base: D, edited: D, updated: D) returns (actions: seq<Action<D>>)
    requires job.kind == Api && job.patch(base) == Some(updated)
    ensures Edit(Some(edited)) in actions
    ensures var r := Run([job], Start(Some(base), 1), actions);
            && r.Some? && r.value.phases == [Finished(true)] && r.value.file == Some(updated)
            && r.value.history == [Verified(0, base), Outside(Some(edited)), Commit(0, updated, 0, None)]
  {
    var first := [Acquire(0), Read(0, true), Patch(0), Reread(0, true)];
    var s := CheckedState(job, base, updated, first);
    var last := [Edit(Some(edited)), Replace(0, true), Release(0)];
    var end := OverwrittenState(job, s, base, edited, updated, last);
    RunConcat([job], Start(Some(base), 1), first, last);
    actions := first + last;
    assert actions[4] == Edit(Some(edited));
  }

  lemma {:induction false} RunConcat<D(!new)>(jobs: seq<Job<D>>, s: System<D>, a: seq<Action<D>>, b: seq<Action<D>>)
    requires |s.phases| == |jobs| && Run(jobs, s, a).Some?
    ensures Run(jobs, s, a + b) == Run(jobs, Run(jobs, s, a).value, b)
    decreases |a|
  {
    if a == [] {
      assert a + b == b;
    } else {
      assert (a + b)[0] == a[0] && (a + b)[1..] == a[1..] + b;
      RunConcat(jobs, Step(jobs, s, a[0]).value, a[1..], b);
    }
  }

  lemma OverwrittenState<D(!new)>(job: Job<D>, s: System<D>, base: D, edited: D, updated: D, last: seq<Action<D>>)
                           returns (end: System<D>)
    requires job.kind == Api && last == [Edit(Some(edited)), Replace(0, true), Release(0)]
    requires s.phases == [Checked(base, updated, 0)] && s.history == [Verified(0, base)] && s.lock == Some(0)
    ensures Run([job], s, last) == Some(end)
    ensures end.phases == [Finished(true)] && end.file == Some(updated)
    ensures end.history == [Verified(0, base), Outside(Some(edited)), Commit(0, updated, 0, None)]
  {
    var edit := Step([job], s, last[0]).value;
    var done := Step([job], edit, last[1]).value;
    end := Step([job], done, last[2]).value;
    assert last[1..] == [Replace(0, true), Release(0)] && last[1..][1..] == [Release(0)] && last[1..][1..][1..] == [];
    assert Run([job], done, last[1..][1..]) == Run([job], end, []);
    assert Run([job], edit, last[1..]) == Run([job], done, last[1..][1..]);
  }

  /** A lone API writer that got as far as its second read. */
  lemma CheckedState<D(!new)>(job: Job<D>, base: D, updated: D, first: seq<Action<D>>) returns (s: System<D>)
    requires job.kind == Api && job.patch(base) == Some(updated)
    requires first == [Acquire(0), Read(0, true), Patch(0), Reread(0, true)]
    ensures Run([job], Start(Some(base), 1), first) == Some(s)
    ensures s.phases == [Checked(base, updated, 0)] && s.history == [Verified(0, base)] && s.lock == Some(0)
  {
    var s0 := Start(Some(base), 1);
    assert s0.phases == [Waiting];
    var s1 := Step([job], s0, first[0]).value;
    var s2 := Step([job], s1, first[1]).value;
    var s3 := Step([job], s2, first[2]).value;
    s := Step([job], s3, first[3]).value;
    assert first[1..] == [Read(0, true), Patch(0), Reread(0, true)] && first[1..][1..] == [Patch(0), Reread(0, true)];
    assert first[1..][1..][1..] == [Reread(0, true)] && first[1..][1..][1..][1..] == [];
    assert Run([job], s3, first[1..][1..][1..]) == Run([job], s, []);
    assert Run([job], s1, first[1..]) == Run([job], s2, first[1..][1..]);
  }

  /***** Progress *****/

  function StepsLeft<D>(p: Phase<D>): nat {
    match p
    case Waiting => 7 case Locked => 6 case HasBase(_) => 5 case HasPatch(_, _) => 4
    case Checked(_, _, _) => 3 case BackedUp(_, _, _, _) => 2 case Returning(_) => 1 case Finished(_) => 0
  }

  function TotalLeft<D>(phases: seq<Phase<D>>): nat {
    if phases == [] then 0 else StepsLeft(phases[0]) + TotalLeft(phases[1..])
  }

  lemma {:induction false} TotalDrops<D>(phases: seq<Phase<D>>, w: nat, p: Phase<D>)
    requires w < |phases| && StepsLeft(p) < StepsLeft(phases[w])
    ensures TotalLeft(phases[w := p]) < TotalLeft(phases)
  {
    if w > 0 {
      TotalDrops(phases[1..], w - 1, p);
      assert phases[w := p][1..] == phases[1..][w - 1 := p];
    } else {
      assert phases[w := p][1..] == phases[1..];
    }
  }

  /** Some writer that is not done can always take its next step: the lock holder, or anybody when it is free. */
  function NextAction<D>(jobs: seq<Job<D>>, s: System<D>, w: nat): Action<D>
    requires w < |s.phases| == |jobs|
  {
    match s.phases[w]
    case Waiting => Acquire(w) case Locked => Read(w, true) case HasBase(_) => Patch(w)
    case HasPatch(_, _) => Reread(w, true)
    case Checked(_, _, _) => if jobs[w].kind == Cli then Backup(w, true) else Replace(w, true)
    case BackedUp(_, _, _, _) => Replace(w, true)
    case _ => Release(w)
  }

  lemma NextActionWorks<D(!new)>(jobs: seq<Job<D>>, file: Option<D>, s: System<D>, w: nat)
    requires Inv(jobs, file, s) && w < |jobs| && !s.phases[w].Finished?
    requires s.lock.Some? ==> s.lock == Some(w)
    ensures var next := Step(jobs, s, NextAction(jobs, s, w));
            && next.Some? && !NextAction(jobs, s, w).Edit?
            && TotalLeft(next.value.phases) < TotalLeft(s.phases)
  {
    assert PhaseOk(jobs[w], w, s.phases[w], s.history);
    var s' := Step(jobs, s, NextAction(jobs, s, w)).value;
    assert s'.phases == s.phases[w := s'.phases[w]];
    TotalDrops(s.phases, w, s'.phases[w]);
  }

  /** No run gets stuck: from every reachable state the writers can all be brought to an end. */
  lemma {:induction false} EveryWriterCanFinish<D(!new)>(jobs: seq<Job<D>>, file: Option<D>, s: System<D>)
                                returns (actions: seq<Action<D>>)
    requires Inv(jobs, file, s)
    ensures NoOutsideEdits(actions) && Run(jobs, s, actions).Some?
    ensures var s' := Run(jobs, s, actions).value; forall w | 0 <= w < |jobs| :: s'.phases[w].Finished?
    decreases TotalLeft(s.phases)
  {
    if forall w | 0 <= w < |jobs| :: s.phases[w].Finished? {
      actions := [];
    } else {
      var v :| 0 <= v < |jobs| && !s.phases[v].Finished?;
      var w := if s.lock.Some? then s.lock.value else v;
      var a := NextAction(jobs, s, w);
      NextActionWorks(jobs, file, s, w);
      StepKeepsInv(jobs, file, s, a);
      var s' := Step(jobs, s, a).value;
      var rest := EveryWriterCanFinish(jobs, file, s');
      actions := [a] + rest;
      assert actions[1..] == rest;
    }
  }

  /** Writer `w` is on its way from `base` to `updated`, and nothing has gone wrong. */
  ghost predicate OnTrack<D(!new)>(job: Job<D>, s: System<D>, w: nat, base: D, updated: D)
    requires w < |s.phases|
  {
    && job.patch(base) == Some(updated)
    && (s.phases[w].Waiting? ==> s.lock.None?)
    && match s.phases[w]
       case Waiting => s.file == Some(base)
       case Locked => s.file == Some(base)
       case HasBase(b) => b == base && s.file == Some(base)
       case HasPatch(b, u) => b == base && u == updated && s.file == Some(base)
       case Checked(b, u, _) => u == updated
       case BackedUp(b, u, _, _) => job.kind == Cli && u == updated
       case Returning(committed) => committed && s.file == Some(updated)
       case Finished(committed) => committed && s.file == Some(updated)
  }

  /** A writer whose turn it is and whose patch is accepted commits it, when nothing fails and nobody edits. */
  lemma {:induction false} AcceptedWriterCommits<D(!new)>(jobs: seq<Job<D>>, s: System<D>, w: nat, base: D,
                                updated: D) returns (actions: seq<Action<D>>)
    requires w < |jobs| == |s.phases| && OnTrack(jobs[w], s, w, base, updated)
    ensures NoOutsideEdits(actions) && Run(jobs, s, actions).Some?
    ensures var s' := Run(jobs, s, actions).value; s'.phases[w] == Finished(true) && s'.file == Some(updated)
    decreases StepsLeft(s.phases[w])
  {
    if s.phases[w].Finished? {
      actions := [];
    } else {
      var a := NextAction(jobs, s, w);
      TrackedStep(jobs, s, w, base, updated);
      var rest := AcceptedWriterCommits(jobs, Step(jobs, s, a).value, w, base, updated);
      actions := [a] + rest;
      assert actions[1..] == rest;
    }
  }

  lemma TrackedStep<D(!new)>(jobs: seq<Job<D>>, s: System<D>, w: nat, base: D, updated: D)
    requires w < |jobs| == |s.phases| && OnTrack(jobs[w], s, w, base, updated) && !s.phases[w].Finished?
    ensures var next := Step(jobs, s, NextAction(jobs, s, w));
            && next.Some? && !NextAction(jobs, s, w).Edit? && |next.value.phases| == |jobs|
            && OnTrack(jobs[w], next.value, w, base, updated)
            && StepsLeft(next.value.phases[w]) < StepsLeft(s.phases[w])
  {
  }
}
