/**
 Client-scope requests running at the same time through the protocol of `StackProtocol`.
 Requests for different clients do not disturb each other, whatever the interleaving.
 */
module ConcurrentScopes {
  import opened Base
  import opened StackProtocol
  import P = ScopePatch

  /** What `setClientScope` asks of the protocol. */
  function ScopeJob(r: P.Request): Job<P.Node> {
    Job(Api, (doc: P.Node) => var patched := P.PatchBy(doc, r); if patched.Ok? then Some(patched.value) else None)
  }

  function ScopeJobs(rs: seq<P.Request>): seq<Job<P.Node>> {
    seq(|rs|, i requires 0 <= i < |rs| => ScopeJob(rs[i]))
  }

  ghost predicate DifferentProfiles(rs: seq<P.Request>) {
    forall i, j | 0 <= i < j < |rs| :: rs[i].profile != rs[j].profile
  }

  /** What a patch makes of its profile depends on that profile alone. */
  lemma PatchSeesItsProfile(a: P.Node, b: P.Node, r: P.Request)
    requires P.PatchBy(a, r).Ok? && P.PatchBy(b, r).Ok?
    requires P.Profile(a, r.profile) == P.Profile(b, r.profile)
    ensures P.Profile(P.PatchBy(a, r).value, r.profile) == P.Profile(P.PatchBy(b, r).value, r.profile)
  {
    PatchedProfile(a, r);
    PatchedProfile(b, r);
    var content := P.SetProfile(P.PairsOf(P.Profile(a, r.profile)), r.servers, r.tools);
    P.SamePut(P.PairsOf(P.Profiles(a)), P.PairsOf(P.Profiles(b)), r.profile, content);
  }

  lemma PatchedProfile(a: P.Node, r: P.Request)
    requires P.PatchBy(a, r).Ok?
    ensures P.Profile(P.PatchBy(a, r).value, r.profile)
            == P.Lookup(P.Put(P.PairsOf(P.Profiles(a)), r.profile,
                P.SetProfile(P.PairsOf(P.Profile(a, r.profile)), r.servers, r.tools)), r.profile)
    ensures P.Lookup(P.PairsOf(P.Profiles(a)), r.profile) == P.Profile(a, r.profile)
  {
    P.PatchedWay(a, r.profile, r.servers, r.tools);
    P.PatchIsSeen(a, r.profile, r.servers, r.tools);
  }

  /** After the given writers committed: their profiles are as if each had been alone, the others are as before. */
  ghost predicate AsIfAlone(doc: P.Node, rs: seq<P.Request>, order: seq<nat>, now: P.Node) {
    && (forall w | 0 <= w < |rs| && w in order ::
          P.PatchBy(doc, rs[w]).Ok?
              && P.Profile(now, rs[w].profile) == P.Profile(P.PatchBy(doc, rs[w]).value, rs[w].profile))
    && (forall k | (forall w | 0 <= w < |rs| && w in order :: rs[w].profile != k) ::
        P.Profile(now, k) == P.Profile(doc, k))
    && (forall w | 0 <= w < |rs| && w !in order :: P.PatchBy(now, rs[w]).Ok? <==> P.PatchBy(doc, rs[w]).Ok?)
    && doc.Mapping? && now.Mapping?
    && P.Others(now.pairs, {"clients"}) == P.Others(doc.pairs, {"clients"})
    && P.Others(P.PairsOf(P.Clients(now)), {"profiles"}) == P.Others(P.PairsOf(P.Clients(doc)), {"profiles"})
  }

  lemma OneMore(doc: P.Node, rs: seq<P.Request>, order: seq<nat>, now: P.Node, w: nat)
    requires DifferentProfiles(rs) && AsIfAlone(doc, rs, order, now)
    requires w < |rs| && w !in order && P.PatchBy(now, rs[w]).Ok?
    ensures AsIfAlone(doc, rs, order + [w], P.PatchBy(now, rs[w]).value)
  {
    var r, next := rs[w], P.PatchBy(now, rs[w]).value;
    assert P.Profile(now, r.profile) == P.Profile(doc, r.profile);
    PatchSeesItsProfile(doc, now, r);
    P.PatchKeepsRest(now, r.profile, r.servers, r.tools);
    forall v | 0 <= v < |rs| && v !in order + [w] ensures P.PatchBy(next, rs[v]).Ok? <==> P.PatchBy(doc, rs[v]).Ok? {
      P.SecondIsFree(now, r, rs[v]);
    }
    forall v | 0 <= v < |rs| && v in order + [w]
      ensures P.PatchBy(doc, rs[v]).Ok?
              && P.Profile(next, rs[v].profile) == P.Profile(P.PatchBy(doc, rs[v]).value, rs[v].profile)
    {
      if v != w { assert rs[v].profile != r.profile; }
    }
    forall k | forall v | 0 <= v < |rs| && v in order + [w] :: rs[v].profile != k
      ensures P.Profile(next, k) == P.Profile(doc, k)
    {
      assert w in order + [w];
      assert forall v | 0 <= v < |rs| && v in order :: v in order + [w];
    }
  }

  lemma JobApplies(rs: seq<P.Request>, w: nat, doc: P.Node)
    requires w < |rs|
    ensures var r := P.PatchBy(doc, rs[w]);
            Apply(ScopeJobs(rs), w, Some(doc)) == if r.Ok? then Some(r.value) else None
  {
  }

  lemma {:induction false} FoldAsIfAlone(doc: P.Node, rs: seq<P.Request>, order: seq<nat>)
    requires DifferentProfiles(rs) && doc.Mapping? && Distinct(order)
    requires forall w | w in order :: w < |rs|
    requires Fold(ScopeJobs(rs), Some(doc), order).Some?
    ensures AsIfAlone(doc, rs, order, Fold(ScopeJobs(rs), Some(doc), order).value)
  {
    if order != [] {
      var most, w := order[..|order| - 1], order[|order| - 1];
      assert order == most + [w];
      var now := Fold(ScopeJobs(rs), Some(doc), most);
      assert Fold(ScopeJobs(rs), Some(doc), order) == Apply(ScopeJobs(rs), w, now);
      assert w !in most && forall v | v in most :: v in order;
      FoldAsIfAlone(doc, rs, most);
      JobApplies(rs, w, now.value);
      OneMore(doc, rs, most, now.value, w);
    }
  }

  /** A committed write is in the file. */
  lemma {:induction false} FoldSucceeds<D>(jobs: seq<Job<D>>, file: Option<D>, h: seq<Event<D>>)
    requires Sound(jobs, file, h) && file.Some?
    requires forall i | 0 <= i < |h| :: !h[i].Outside?
    ensures Content(file, h).Some?
  {
    if h != [] {
      var most := h[..|h| - 1];
      forall j | 0 <= j < |most| ensures Justified(jobs, file, most, j) {
        assert Justified(jobs, file, h, j) && most[..j] == h[..j];
      }
      FoldSucceeds(jobs, file, most);
    }
  }

  /**
   Whatever the interleaving of the requests, if nobody outside edits the file then every request that
   reported success left its client's profile as if it had been the only one, the profiles of the
   requests that failed and of all other clients are untouched, and so is the rest of the file.
   */
  lemma ConcurrentRequests(doc: P.Node, rs: seq<P.Request>, actions: seq<Action<P.Node>>, s: System<P.Node>)
    requires doc.Mapping? && DifferentProfiles(rs)
    requires Run(ScopeJobs(rs), Start(Some(doc), |rs|), actions) == Some(s) && NoOutsideEdits(actions)
    ensures s.file.Some? && s.file.value.Mapping?
    ensures forall w | 0 <= w < |rs| :: Committed(s.phases[w]) ==>
              && P.PatchBy(doc, rs[w]).Ok?
              && P.Profile(s.file.value, rs[w].profile) == P.Profile(P.PatchBy(doc, rs[w]).value, rs[w].profile)
    ensures forall k | (forall w | 0 <= w < |rs| && Committed(s.phases[w]) :: rs[w].profile != k) ::
              P.Profile(s.file.value, k) == P.Profile(doc, k)
    ensures P.Others(s.file.value.pairs, {"clients"}) == P.Others(doc.pairs, {"clients"})
    ensures P.Others(P.PairsOf(P.Clients(s.file.value)), {"profiles"})
            == P.Others(P.PairsOf(P.Clients(doc)), {"profiles"})
  {
    var jobs := ScopeJobs(rs);
    LockedWritersFold(jobs, Some(doc), actions, s);
    EveryRunIsSound(jobs, Some(doc), actions, s);
    QuietHistory(jobs, Start(Some(doc), |rs|), actions);
    FoldSucceeds(jobs, Some(doc), s.history);
    FoldAsIfAlone(doc, rs, CommitOrder(s.history));
  }

  /** What the scope preview computes: the patched document it shows the difference to. */
  function Preview(doc: P.Node, r: P.Request): Option<P.Node> {
    var patched := P.PatchBy(doc, r);
    if patched.Ok? then Some(patched.value) else None
  }

  /**
   A request that commits while the file is as it was when previewed stores exactly the previewed document;
   in any run, whatever the other writers do in between.
   */
  lemma PreviewIsWritten(file: Option<P.Node>, rs: seq<P.Request>, actions: seq<Action<P.Node>>, s: System<P.Node>,
                         doc: P.Node, j: nat)
    requires Run(ScopeJobs(rs), Start(file, |rs|), actions) == Some(s)
    requires j < |s.history| && s.history[j].Commit? && s.history[j].checkedAt < j && s.history[j].writer < |rs|
    requires Content(file, s.history[..s.history[j].checkedAt]) == Some(doc)
    ensures Preview(doc, rs[s.history[j].writer]) == Some(s.history[j].updated)
    ensures Content(file, s.history[..j + 1]) == Some(s.history[j].updated)
  {
    EveryRunIsSound(ScopeJobs(rs), file, actions, s);
    WhatACommitReplaces(ScopeJobs(rs), file, s.history, j);
    CommitIsContent(file, s.history, j);
  }

  /** Requests of the scope editor make no backups, in no run. */
  lemma NoBackups(file: Option<P.Node>, rs: seq<P.Request>, actions: seq<Action<P.Node>>, s: System<P.Node>, j: nat)
    requires Run(ScopeJobs(rs), Start(file, |rs|), actions) == Some(s) && j < |s.history|
    ensures !s.history[j].Saved? && (s.history[j].Commit? ==> s.history[j].savedAt.None?)
  {
    EveryRunIsSound(ScopeJobs(rs), file, actions, s);
    assert Justified(ScopeJobs(rs), file, s.history, j);
  }

  lemma CommitIsContent<D>(file: Option<D>, h: seq<Event<D>>, j: nat)
    requires j < |h| && h[j].Commit?
    ensures Content(file, h[..j + 1]) == Some(h[j].updated)
  {
    assert h[..j + 1][j] == h[j];
  }
}
