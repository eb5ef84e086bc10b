/**
 What `patchClientScope` does to the YAML tree of a stack file: the entry
 clients.profiles.<profile> gets the requested server and tool allow-lists, and the mappings
 on the way are created when they are missing or empty. `YamlEdit` runs the same edit in place.
 */
module ScopePatch {
  import opened Base

  /** A YAML node without comments and style. */
  datatype Node =
    | Scalar(tag: string, value: string)
    | Sequence(tag: string, items: seq<Node>)
    | Mapping(tag: string, pairs: seq<Pair>)
    | Alias(anchor: string)

  datatype Pair = Pair(key: Node, value: Node)

  datatype Error = EmptyProfileKey | NothingToSet | TopLevelNotAMapping | NotAMapping(key: string)

  const STR := "!!str"
  const MAP := "!!map"
  const SEQ := "!!seq"
  const NULL := "!!null"

  /** The text a key is compared by: scalars and aliases carry one. */
  function Text(n: Node): string {
    match n
    case Scalar(_, value) => value
    case Alias(anchor) => anchor
    case _ => ""
  }

  /** Position of the first pair with the key, or the number of pairs. */
  function Find(pairs: seq<Pair>, key: string): (i: nat)
    ensures i <= |pairs|
    ensures i < |pairs| ==> Text(pairs[i].key) == key
    ensures forall j | 0 <= j < i :: Text(pairs[j].key) != key
  {
    FindFrom(pairs, key, 0)
  }

  function FindFrom(pairs: seq<Pair>, key: string, k: nat): (i: nat)
    requires k <= |pairs|
    ensures k <= i <= |pairs|
    ensures i < |pairs| ==> Text(pairs[i].key) == key
    ensures forall j | k <= j < i :: Text(pairs[j].key) != key
    decreases |pairs| - k
  {
    if k == |pairs| || Text(pairs[k].key) == key then k else FindFrom(pairs, key, k + 1)
  }

  function Lookup(pairs: seq<Pair>, key: string): Option<Node> {
    var i := Find(pairs, key);
    if i < |pairs| then Some(pairs[i].value) else None
  }

  function Count(pairs: seq<Pair>, key: string): nat {
    if pairs == [] then 0 else (if Text(pairs[0].key) == key then 1 else 0) + Count(pairs[1..], key)
  }

  /** An empty value, as a bare `key:` line leaves it. */
  predicate IsBlank(n: Node) {
    n.Scalar? && (n.tag == NULL || n.value == "")
  }

  /** The pairs of the mapping at `key`; none when the key is missing or blank. */
  function Child(pairs: seq<Pair>, key: string): Result<seq<Pair>, Error> {
    match Lookup(pairs, key)
    case None => Ok([])
    case Some(n) => if n.Mapping? then Ok(n.pairs) else if IsBlank(n) then Ok([]) else Err(NotAMapping(key))
  }

  /** Makes `key` hold a mapping with the given pairs: in place, or as a new last key. */
  function Put(pairs: seq<Pair>, key: string, child: seq<Pair>): seq<Pair> {
    var i := Find(pairs, key);
    if i < |pairs| then
      var was := pairs[i].value;
      pairs[i := pairs[i].(value := Mapping(if was.Mapping? then was.tag else MAP, child))]
    else
      pairs + [Pair(Scalar(STR, key), Mapping(MAP, child))]
  }

  function Strings(values: seq<string>): Node {
    Sequence(SEQ, seq(|values|, i requires 0 <= i < |values| => Scalar(STR, values[i])))
  }

  /** Replaces or appends the list at `key`; an empty list drops the first such key. */
  function SetList(pairs: seq<Pair>, key: string, values: seq<string>): seq<Pair> {
    var i := Find(pairs, key);
    if i < |pairs| then
      if values == [] then pairs[..i] + pairs[i + 1..] else pairs[i := pairs[i].(value := Strings(values))]
    else if values == [] then pairs
    else pairs + [Pair(Scalar(STR, key), Strings(values))]
  }

  /** An absent axis is left alone. */
  function SetAxis(pairs: seq<Pair>, key: string, axis: Option<seq<string>>): seq<Pair> {
    if axis.Some? then SetList(pairs, key, axis.value) else pairs
  }

  function SetProfile(profile: seq<Pair>, servers: Option<seq<string>>, tools: Option<seq<string>>): seq<Pair> {
    SetAxis(SetAxis(profile, "servers", servers), "tools", tools)
  }

  /** The three mappings on the way to a profile, or the first one that is something else. */
  datatype Way = Way(clients: seq<Pair>, profiles: seq<Pair>, profile: seq<Pair>)

  function FindWay(doc: seq<Pair>, profile: string): Result<Way, Error> {
    var clients := Child(doc, "clients");
    if clients.Err? then Err(clients.error) else
    var profiles := Child(clients.value, "profiles");
    if profiles.Err? then Err(profiles.error) else
    var p := Child(profiles.value, profile);
    if p.Err? then Err(p.error) else Ok(Way(clients.value, profiles.value, p.value))
  }

  function Rebuild(doc: seq<Pair>, way: Way, profile: string, content: seq<Pair>): seq<Pair> {
    Put(doc, "clients", Put(way.clients, "profiles", Put(way.profiles, profile, content)))
  }

  function Patch(root: Node, profile: string, servers: Option<seq<string>>, tools: Option<seq<string>>)
    : Result<Node, Error>
  {
    if profile == "" then Err(EmptyProfileKey)
    else if servers.None? && tools.None? then Err(NothingToSet)
    else if !root.Mapping? then Err(TopLevelNotAMapping)
    else
      var way := FindWay(root.pairs, profile);
      if way.Err? then Err(way.error)
      else Ok(root.(pairs := Rebuild(root.pairs, way.value, profile, SetProfile(way.value.profile, servers, tools))))
  }

  /***** Single edits *****/

  /** The pairs under other keys, in order. */
  function Others(pairs: seq<Pair>, keys: set<string>): seq<Pair> {
    if pairs == [] then [] else Unless(pairs[0], keys) + Others(pairs[1..], keys)
  }

  function Unless(p: Pair, keys: set<string>): seq<Pair> {
    if Text(p.key) in keys then [] else [p]
  }

  lemma FindIsFirst(pairs: seq<Pair>, key: string, i: nat)
    requires i <= |pairs| && (i < |pairs| ==> Text(pairs[i].key) == key)
    requires forall j | 0 <= j < i :: Text(pairs[j].key) != key
    ensures Find(pairs, key) == i
  {
  }

  lemma {:induction false} OthersConcat(a: seq<Pair>, b: seq<Pair>, keys: set<string>)
    ensures Others(a + b, keys) == Others(a, keys) + Others(b, keys)
  {
    if a == [] {
      assert a + b == b;
    } else {
      OthersConcat(a[1..], b, keys);
      assert (a + b)[0] == a[0] && (a + b)[1..] == a[1..] + b;
      Associative(Unless(a[0], keys), Others(a[1..], keys), Others(b, keys));
    }
  }

  lemma {:induction false} CountConcat(a: seq<Pair>, b: seq<Pair>, key: string)
    ensures Count(a + b, key) == Count(a, key) + Count(b, key)
  {
    if a == [] {
      assert a + b == b;
    } else {
      CountConcat(a[1..], b, key);
      assert (a + b)[1..] == a[1..] + b;
    }
  }

  lemma {:induction false} CountZero(pairs: seq<Pair>, key: string)
    ensures Count(pairs, key) == 0 <==> Find(pairs, key) == |pairs|
  {
    if pairs != [] { CountZero(pairs[1..], key); }
  }

  /** Around the first pair with the key. */
  lemma SplitAt(pairs: seq<Pair>, i: nat, p: Pair)
    requires i < |pairs|
    ensures pairs == pairs[..i] + [pairs[i]] + pairs[i + 1..]
    ensures pairs[i := p] == pairs[..i] + [p] + pairs[i + 1..]
  {
  }

  /** Replacing a value under a key keeps all other pairs and the key order. */
  lemma ReplacedValue(pairs: seq<Pair>, i: nat, n: Node, keys: set<string>)
    requires i < |pairs| && Text(pairs[i].key) in keys
    ensures Others(pairs[i := pairs[i].(value := n)], keys) == Others(pairs, keys)
    ensures forall key :: Find(pairs[i := pairs[i].(value := n)], key) == Find(pairs, key)
    ensures forall key :: Count(pairs[i := pairs[i].(value := n)], key) == Count(pairs, key)
  {
    var p := pairs[i].(value := n);
    var pairs' := pairs[i := p];
    SplitAt(pairs, i, p);
    OthersConcat(pairs[..i] + [pairs[i]], pairs[i + 1..], keys);
    OthersConcat(pairs[..i], [pairs[i]], keys);
    OthersConcat(pairs[..i] + [p], pairs[i + 1..], keys);
    OthersConcat(pairs[..i], [p], keys);
    forall key ensures Find(pairs', key) == Find(pairs, key) && Count(pairs', key) == Count(pairs, key) {
      FindIsFirst(pairs', key, Find(pairs, key));
      CountConcat(pairs[..i] + [pairs[i]], pairs[i + 1..], key);
      CountConcat(pairs[..i], [pairs[i]], key);
      CountConcat(pairs[..i] + [p], pairs[i + 1..], key);
      CountConcat(pairs[..i], [p], key);
    }
  }

  lemma AppendedPair(pairs: seq<Pair>, key: string, n: Node, keys: set<string>)
    requires Find(pairs, key) == |pairs| && key in keys
    ensures var pairs' := pairs + [Pair(Scalar(STR, key), n)];
            && Others(pairs', keys) == Others(pairs, keys)
            && Find(pairs', key) == |pairs|
            && Count(pairs', key) == 1
            && forall k | k != key :: Lookup(pairs', k) == Lookup(pairs, k) && Count(pairs', k) == Count(pairs, k)
  {
    var p := Pair(Scalar(STR, key), n);
    OthersConcat(pairs, [p], keys);
    FindIsFirst(pairs + [p], key, |pairs|);
    CountZero(pairs, key);
    CountConcat(pairs, [p], key);
    forall k | k != key ensures Lookup(pairs + [p], k) == Lookup(pairs, k) && Count(pairs + [p], k) == Count(pairs, k) {
      var i := Find(pairs, k);
      FindIsFirst(pairs + [p], k, if i < |pairs| then i else |pairs| + 1);
      CountConcat(pairs, [p], k);
    }
  }

  /** `Put` is seen under its own key, and nowhere else. */
  lemma PutLaws(pairs: seq<Pair>, key: string, child: seq<Pair>)
    ensures var pairs' := Put(pairs, key, child);
            && Lookup(pairs', key).Some? && Lookup(pairs', key).value.Mapping? && Child(pairs', key) == Ok(child)
            && Others(pairs', {key}) == Others(pairs, {key})
            && forall k | k != key :: Lookup(pairs', k) == Lookup(pairs, k)
  {
    var i := Find(pairs, key);
    if i < |pairs| {
      ReplacedValue(pairs, i, Put(pairs, key, child)[i].value, {key});
    } else {
      AppendedPair(pairs, key, Mapping(MAP, child), {key});
    }
  }

  lemma PutTwice(pairs: seq<Pair>, key: string, first: seq<Pair>, second: seq<Pair>)
    ensures Put(Put(pairs, key, first), key, second) == Put(pairs, key, second)
  {
    var i := Find(pairs, key);
    if i < |pairs| {
      ReplacedValue(pairs, i, Put(pairs, key, first)[i].value, {key});
    } else {
      AppendedPair(pairs, key, Mapping(MAP, first), {key});
    }
  }

  lemma RemovedPair(pairs: seq<Pair>, key: string, keys: set<string>)
    requires Find(pairs, key) < |pairs| && key in keys
    ensures var i := Find(pairs, key); var pairs' := pairs[..i] + pairs[i + 1..];
            && Others(pairs', keys) == Others(pairs, keys)
            && Count(pairs', key) == Count(pairs, key) - 1
            && forall k | k != key :: Lookup(pairs', k) == Lookup(pairs, k) && Count(pairs', k) == Count(pairs, k)
  {
    RemovedAt(pairs, Find(pairs, key), keys);
  }

  /** The same for one key alone. */
  lemma RemovedFirst(pairs: seq<Pair>, key: string, less: seq<Pair>)
    requires Find(pairs, key) < |pairs| && less == pairs[..Find(pairs, key)] + pairs[Find(pairs, key) + 1..]
    ensures Others(less, {key}) == Others(pairs, {key}) && Count(less, key) == Count(pairs, key) - 1
  {
    RemovedOthers(pairs, Find(pairs, key), {key});
    RemovedKey(pairs, Find(pairs, key), key);
  }

  lemma RemovedAt(pairs: seq<Pair>, i: nat, keys: set<string>)
    requires i < |pairs| && Text(pairs[i].key) in keys
    ensures var less, key := pairs[..i] + pairs[i + 1..], Text(pairs[i].key);
            && Others(less, keys) == Others(pairs, keys)
            && Count(less, key) == Count(pairs, key) - 1
            && forall k | k != key :: Lookup(less, k) == Lookup(pairs, k) && Count(less, k) == Count(pairs, k)
  {
    RemovedOthers(pairs, i, keys);
    RemovedKey(pairs, i, Text(pairs[i].key));
    forall k | k != Text(pairs[i].key)
      ensures var less := pairs[..i] + pairs[i + 1..];
              Lookup(less, k) == Lookup(pairs, k) && Count(less, k) == Count(pairs, k)
    {
      RemovedKey(pairs, i, k);
    }
  }

  lemma RemovedOthers(pairs: seq<Pair>, i: nat, keys: set<string>)
    requires i < |pairs| && Text(pairs[i].key) in keys
    ensures Others(pairs[..i] + pairs[i + 1..], keys) == Others(pairs, keys)
  {
    var a, rest, b := pairs[..i], pairs[i..], pairs[i + 1..];
    assert a + rest == pairs && rest[0] == pairs[i] && rest[1..] == b;
    OthersConcat(a, rest, keys);
    OthersConcat(a, b, keys);
    assert Others(rest, keys) == [] + Others(b, keys);
  }

  /** The first value under a key is in the first part that has one. */
  lemma {:induction false} LookupConcat(a: seq<Pair>, b: seq<Pair>, key: string)
    ensures Lookup(a + b, key) == if Lookup(a, key).Some? then Lookup(a, key) else Lookup(b, key)
  {
    if a == [] {
      assert a + b == b;
    } else {
      assert (a + b)[0] == a[0] && (a + b)[1..] == a[1..] + b;
      LookupCons(a + b, key);
      LookupCons(a, key);
      LookupConcat(a[1..], b, key);
    }
  }

  lemma LookupCons(pairs: seq<Pair>, key: string)
    requires pairs != []
    ensures Lookup(pairs, key) == if Text(pairs[0].key) == key then Some(pairs[0].value) else Lookup(pairs[1..], key)
  {
  }

  lemma RemovedKey(pairs: seq<Pair>, i: nat, k: string)
    requires i < |pairs|
    ensures var less := pairs[..i] + pairs[i + 1..];
            && Count(pairs, k) == Count(less, k) + (if k == Text(pairs[i].key) then 1 else 0)
            && (k != Text(pairs[i].key) ==> Lookup(less, k) == Lookup(pairs, k))
  {
    var a, b, p := pairs[..i], pairs[i + 1..], [pairs[i]];
    SplitAt(pairs, i, pairs[i]);
    CountConcat(a + p, b, k);
    CountConcat(a, p, k);
    CountConcat(a, b, k);
    LookupConcat(a + p, b, k);
    LookupConcat(a, p, k);
    LookupConcat(a, b, k);
    LookupCons(p, k);
  }

  /** A list that is set is found; a list that is dropped is gone exactly when its key was there at most once. */
  lemma SetListLaws(pairs: seq<Pair>, key: string, values: seq<string>, keys: set<string>)
    requires key in keys
    ensures var pairs' := SetList(pairs, key, values);
            && (values != [] ==> Lookup(pairs', key) == Some(Strings(values)))
            && (values == [] ==> (Lookup(pairs', key).None? <==> Count(pairs, key) <= 1))
            && (values == [] && Count(pairs, key) > 0 ==> Count(pairs', key) == Count(pairs, key) - 1)
            && Others(pairs', keys) == Others(pairs, keys)
            && forall k | k != key :: Lookup(pairs', k) == Lookup(pairs, k) && Count(pairs', k) == Count(pairs, k)
  {
    var i := Find(pairs, key);
    CountZero(pairs, key);
    CountZero(SetList(pairs, key, values), key);
    if i < |pairs| {
      if values == [] { RemovedPair(pairs, key, keys); } else { ReplacedValue(pairs, i, Strings(values), keys); }
    } else if values != [] {
      AppendedPair(pairs, key, Strings(values), keys);
    }
  }

  lemma SetListTwice(pairs: seq<Pair>, key: string, values: seq<string>)
    ensures var pairs' := SetList(pairs, key, values);
            SetList(pairs', key, values) == pairs' <==> (values == [] ==> Count(pairs, key) <= 1)
  {
    var i := Find(pairs, key);
    SetListLaws(pairs, key, values, {key});
    if values == [] {
      CountZero(SetList(pairs, key, values), key);
    } else if i < |pairs| {
      ReplacedValue(pairs, i, Strings(values), {key});
    } else {
      AppendedPair(pairs, key, Strings(values), {key});
    }
  }

  /** Lists under different keys do not disturb each other's keys. */
  lemma SetListKeepsShape(pairs: seq<Pair>, key: string, other: string, values: seq<string>, v: seq<string>)
    requires key != other
    requires SetList(pairs, key, values) == pairs
    ensures SetList(SetList(pairs, other, v), key, values) == SetList(pairs, other, v)
  {
    var pairs' := SetList(pairs, other, v);
    SetListLaws(pairs, other, v, {other});
    CountZero(pairs, key);
    CountZero(pairs', key);
    var i, j := Find(pairs, key), Find(pairs', key);
    if i < |pairs| {
      SetListLaws(pairs, key, values, {key});
      assert pairs[i].value == Strings(values);
      assert Lookup(pairs', key) == Some(Strings(values));
      assert pairs'[j := pairs'[j].(value := Strings(values))] == pairs';
    }
  }

  /***** Reading a stack file *****/

  function At(n: Option<Node>, key: string): Option<Node> {
    if n.Some? && n.value.Mapping? then Lookup(n.value.pairs, key) else None
  }

  function PairsOf(n: Option<Node>): seq<Pair> {
    if n.Some? && n.value.Mapping? then n.value.pairs else []
  }

  function Clients(root: Node): Option<Node> { At(Some(root), "clients") }

  function Profiles(root: Node): Option<Node> { At(Clients(root), "profiles") }

  function Profile(root: Node, profile: string): Option<Node> { At(Profiles(root), profile) }

  lemma WayIsRead(root: Node, profile: string)
    requires root.Mapping? && FindWay(root.pairs, profile).Ok?
    ensures FindWay(root.pairs, profile).value
            == Way(PairsOf(Clients(root)), PairsOf(Profiles(root)), PairsOf(Profile(root, profile)))
  {
  }

  lemma PatchedWay(root: Node, profile: string, servers: Option<seq<string>>, tools: Option<seq<string>>)
    requires Patch(root, profile, servers, tools).Ok?
    ensures var root' := Patch(root, profile, servers, tools).value;
            && root'.Mapping? && root'.tag == root.tag
            && PairsOf(Clients(root')) == Put(PairsOf(Clients(root)), "profiles", PairsOf(Profiles(root')))
            && PairsOf(Profiles(root')) == Put(PairsOf(Profiles(root)), profile, PairsOf(Profile(root', profile)))
            && PairsOf(Profile(root', profile)) == SetProfile(PairsOf(Profile(root, profile)), servers, tools)
            && root'.pairs == Put(root.pairs, "clients", PairsOf(Clients(root')))
            && FindWay(root'.pairs, profile).Ok?
            && (forall k | k != "clients" :: Lookup(root'.pairs, k) == Lookup(root.pairs, k))
            && (forall k | k != "profiles" :: At(Clients(root'), k) == At(Clients(root), k))
            && (forall k | k != profile :: Profile(root', k) == Profile(root, k))
  {
    var way := FindWay(root.pairs, profile).value;
    WayIsRead(root, profile);
    var content := SetProfile(way.profile, servers, tools);
    PutLaws(way.profiles, profile, content);
    PutLaws(way.clients, "profiles", Put(way.profiles, profile, content));
    PutLaws(root.pairs, "clients", Put(way.clients, "profiles", Put(way.profiles, profile, content)));
  }

  /** What a reader finds in the patched profile for one axis. */
  ghost predicate AxisSet(before: seq<Pair>, after: seq<Pair>, key: string, axis: Option<seq<string>>) {
    match axis
    case None => Lookup(after, key) == Lookup(before, key)
    case Some(values) =>
      if values == [] then Lookup(after, key).None? <==> Count(before, key) <= 1
      else Lookup(after, key).Some? && IsListOf(Lookup(after, key).value, values)
  }

  /** A block sequence of plain strings, these and in this order. */
  ghost predicate IsListOf(n: Node, values: seq<string>) {
    && n.Sequence? && n.tag == "!!seq" && |n.items| == |values|
    && forall i | 0 <= i < |values| :: n.items[i] == Scalar("!!str", values[i])
  }

  /***** When a patch succeeds *****/

  /** A place where a mapping is or can be made: nothing there, a mapping, a null, or an empty scalar. */
  predicate CanHold(n: Option<Node>) {
    match n
    case None => true
    case Some(Mapping(_, _)) => true
    case Some(Scalar(tag, value)) => tag == "!!null" || value == ""
    case _ => false
  }

  /** A request that says something, on a file where every mapping on the way is or can be made. */
  predicate CanPatch(root: Node, profile: string, servers: Option<seq<string>>, tools: Option<seq<string>>) {
    && profile != "" && (servers.Some? || tools.Some?) && root.Mapping?
    && CanHold(Lookup(root.pairs, "clients"))
    && CanHold(At(Lookup(root.pairs, "clients"), "profiles"))
    && CanHold(At(At(Lookup(root.pairs, "clients"), "profiles"), profile))
  }

  lemma ChildExists(pairs: seq<Pair>, key: string)
    ensures Child(pairs, key).Ok? <==> CanHold(Lookup(pairs, key))
    ensures Child(pairs, key).Ok? ==> Child(pairs, key).value == PairsOf(Lookup(pairs, key))
    ensures Child(pairs, key).Err? ==> Child(pairs, key).error == NotAMapping(key)
  {
  }

  /** Looking below a place that is not a mapping finds nothing. */
  lemma LookBelow(n: Option<Node>, key: string)
    ensures Lookup(PairsOf(n), key) == At(n, key)
  {
  }

  /** A patch succeeds exactly then; otherwise the first place that is something else is named. */
  lemma PatchSucceeds(root: Node, profile: string, servers: Option<seq<string>>, tools: Option<seq<string>>)
    ensures Patch(root, profile, servers, tools).Ok? <==> CanPatch(root, profile, servers, tools)
    ensures Patch(root, profile, servers, tools).Err? && profile != "" && (servers.Some? || tools.Some?)
              && root.Mapping? ==>
              Patch(root, profile, servers, tools).error ==
              NotAMapping(if !CanHold(Clients(root)) then "clients"
                          else if !CanHold(Profiles(root)) then "profiles" else profile)
  {
    if root.Mapping? {
      ChildExists(root.pairs, "clients");
      ChildExists(PairsOf(Clients(root)), "profiles");
      ChildExists(PairsOf(Profiles(root)), profile);
      LookBelow(Clients(root), "profiles");
      LookBelow(Profiles(root), profile);
    }
  }

  /** What is made on the way: a plain key with a plain mapping as the last pair, or a mapping in the old place. */
  lemma WhatIsMade(pairs: seq<Pair>, key: string, child: seq<Pair>)
    ensures Lookup(pairs, key).None? ==>
              Put(pairs, key, child) == pairs + [Pair(Scalar("!!str", key), Mapping("!!map", child))]
    ensures Lookup(pairs, key).Some? && !Lookup(pairs, key).value.Mapping? ==>
              Lookup(Put(pairs, key, child), key) == Some(Mapping("!!map", child))
    ensures Lookup(pairs, key).Some? && Lookup(pairs, key).value.Mapping? ==>
              Lookup(Put(pairs, key, child), key) == Some(Mapping(Lookup(pairs, key).value.tag, child))
  {
    PutLaws(pairs, key, child);
    if Lookup(pairs, key).Some? { FindIsFirst(Put(pairs, key, child), key, Find(pairs, key)); }
  }

  /** A lookup gives the value of the first pair whose key is a scalar with that text, or an alias of that name. */
  lemma LookupIsFirst(pairs: seq<Pair>, i: nat, key: string)
    requires i < |pairs| && key != ""
    requires (exists tag :: pairs[i].key == Scalar(tag, key)) || pairs[i].key == Alias(key)
    requires forall j | 0 <= j < i :: (pairs[j].key.Scalar? ==> pairs[j].key.value != key) && pairs[j].key != Alias(key)
    ensures Lookup(pairs, key) == Some(pairs[i].value)
  {
    assert forall j | 0 <= j < i :: Text(pairs[j].key) != key;
    FindIsFirst(pairs, key, i);
  }

  /** The requested lists are what a reader of the patched file finds. */
  lemma PatchIsSeen(root: Node, profile: string, servers: Option<seq<string>>, tools: Option<seq<string>>)
    requires Patch(root, profile, servers, tools).Ok?
    ensures var after := Profile(Patch(root, profile, servers, tools).value, profile);
            var before := PairsOf(Profile(root, profile));
            && after.Some? && after.value.Mapping?
            && AxisSet(before, after.value.pairs, "servers", servers)
            && AxisSet(before, after.value.pairs, "tools", tools)
  {
    PatchedWay(root, profile, servers, tools);
    var root' := Patch(root, profile, servers, tools).value;
    PutLaws(PairsOf(Profiles(root)), profile, PairsOf(Profile(root', profile)));
    AxesSet(PairsOf(Profile(root, profile)), servers, tools);
  }

  lemma AxesSet(before: seq<Pair>, servers: Option<seq<string>>, tools: Option<seq<string>>)
    ensures AxisSet(before, SetProfile(before, servers, tools), "servers", servers)
    ensures AxisSet(before, SetProfile(before, servers, tools), "tools", tools)
  {
    if servers.Some? { SetListLaws(before, "servers", servers.value, {"servers"}); }
    if tools.Some? { SetListLaws(SetAxis(before, "servers", servers), "tools", tools.value, {"tools"}); }
  }

  /** The keys of a profile that a request is about; a nil axis is not. */
  function PatchedKeys(servers: Option<seq<string>>, tools: Option<seq<string>>): set<string> {
    (if servers.Some? then {"servers"} else {}) + (if tools.Some? then {"tools"} else {})
  }

  /**
   Everything else in the file stays, in its order: other top-level keys, `clients.default`, sibling profiles and
   the other fields of the profile, the list of a nil axis among them.
   */
  lemma PatchIsLocal(root: Node, profile: string, servers: Option<seq<string>>, tools: Option<seq<string>>)
    requires Patch(root, profile, servers, tools).Ok?
    ensures var root' := Patch(root, profile, servers, tools).value;
            && RestKept(root, root', profile)
            && Others(PairsOf(Profile(root', profile)), PatchedKeys(servers, tools))
               == Others(PairsOf(Profile(root, profile)), PatchedKeys(servers, tools))
  {
    PatchKeepsRest(root, profile, servers, tools);
    PatchedWay(root, profile, servers, tools);
    var root' := Patch(root, profile, servers, tools).value;
    PutLaws(PairsOf(Profiles(root)), profile, PairsOf(Profile(root', profile)));
    AxesAreLocal(PairsOf(Profile(root, profile)), servers, tools);
  }

  lemma AxesAreLocal(before: seq<Pair>, servers: Option<seq<string>>, tools: Option<seq<string>>)
    ensures Others(SetProfile(before, servers, tools), PatchedKeys(servers, tools))
            == Others(before, PatchedKeys(servers, tools))
  {
    var keys := PatchedKeys(servers, tools);
    if servers.Some? { SetListLaws(before, "servers", servers.value, keys); }
    if tools.Some? { SetListLaws(SetAxis(before, "servers", servers), "tools", tools.value, keys); }
  }

  /** Outside the profile nothing changed. */
  ghost predicate RestKept(root: Node, root': Node, profile: string) {
    && root.Mapping? && root'.Mapping? && Others(root'.pairs, {"clients"}) == Others(root.pairs, {"clients"})
    && Others(PairsOf(Clients(root')), {"profiles"}) == Others(PairsOf(Clients(root)), {"profiles"})
    && Others(PairsOf(Profiles(root')), {profile}) == Others(PairsOf(Profiles(root)), {profile})
    && (forall k | k != profile :: Profile(root', k) == Profile(root, k))
    && (forall k | k != "profiles" :: At(Clients(root'), k) == At(Clients(root), k))
  }

  lemma PatchKeepsRest(root: Node, profile: string, servers: Option<seq<string>>, tools: Option<seq<string>>)
    requires Patch(root, profile, servers, tools).Ok?
    ensures RestKept(root, Patch(root, profile, servers, tools).value, profile)
  {
    PatchedWay(root, profile, servers, tools);
    var root' := Patch(root, profile, servers, tools).value;
    PutLaws(root.pairs, "clients", PairsOf(Clients(root')));
    PutLaws(PairsOf(Clients(root)), "profiles", PairsOf(Profiles(root')));
    PutLaws(PairsOf(Profiles(root)), profile, PairsOf(Profile(root', profile)));
  }

  lemma RebuildTwice(root: Node, profile: string, servers: Option<seq<string>>, tools: Option<seq<string>>,
                     servers': Option<seq<string>>, tools': Option<seq<string>>)
    requires Patch(root, profile, servers, tools).Ok?
    requires servers'.Some? || tools'.Some?
    ensures var root' := Patch(root, profile, servers, tools).value;
            var content := SetProfile(SetProfile(PairsOf(Profile(root, profile)), servers, tools), servers', tools');
            Patch(root', profile, servers', tools')
            == Ok(root.(pairs := Rebuild(root.pairs, FindWay(root.pairs, profile).value, profile, content)))
  {
    PatchedWay(root, profile, servers, tools);
    WayIsRead(root, profile);
    var root' := Patch(root, profile, servers, tools).value;
    WayIsRead(root', profile);
    var way := FindWay(root.pairs, profile).value;
    var one := SetProfile(way.profile, servers, tools);
    var two := SetProfile(one, servers', tools');
    PutTwice(way.profiles, profile, one, two);
    PutTwice(way.clients, "profiles", Put(way.profiles, profile, one), Put(way.profiles, profile, two));
    PutTwice(root.pairs, "clients", Put(way.clients, "profiles", Put(way.profiles, profile, one)),
             Put(way.clients, "profiles", Put(way.profiles, profile, two)));
  }

  /** Dropping a list works once only if its key is there once. */
  predicate Settles(pairs: seq<Pair>, key: string, axis: Option<seq<string>>) {
    axis == Some([]) ==> Count(pairs, key) <= 1
  }

  lemma SetProfileTwice(p: seq<Pair>, servers: Option<seq<string>>, tools: Option<seq<string>>)
    ensures var one := SetProfile(p, servers, tools);
            SetProfile(one, servers, tools) == one <==> Settles(p, "servers", servers) && Settles(p, "tools", tools)
  {
    var q := SetAxis(p, "servers", servers);
    var one := SetAxis(q, "tools", tools);
    var r := SetAxis(one, "servers", servers);
    if servers.Some? {
      SetListLaws(p, "servers", servers.value, {"servers"});
      SetListLaws(one, "servers", servers.value, {"servers"});
      SetListTwice(p, "servers", servers.value);
    }
    if tools.Some? {
      SetListLaws(q, "tools", tools.value, {"tools"});
      SetListLaws(r, "tools", tools.value, {"tools"});
      SetListTwice(q, "tools", tools.value);
    }
    if Settles(p, "servers", servers) && servers.Some? && tools.Some? {
      SetListKeepsShape(q, "servers", "tools", servers.value, tools.value);
    }
  }

  /** Patching again changes nothing, exactly when every dropped list was there at most once. */
  lemma PatchIsIdempotent(root: Node, profile: string, servers: Option<seq<string>>, tools: Option<seq<string>>)
    requires Patch(root, profile, servers, tools).Ok?
    ensures var root' := Patch(root, profile, servers, tools).value;
            var before := PairsOf(Profile(root, profile));
            Patch(root', profile, servers, tools) == Ok(root')
            <==> Settles(before, "servers", servers) && Settles(before, "tools", tools)
  {
    RebuildTwice(root, profile, servers, tools, servers, tools);
    WayIsRead(root, profile);
    var way := FindWay(root.pairs, profile).value;
    var one := SetProfile(way.profile, servers, tools);
    var two := SetProfile(one, servers, tools);
    SetProfileTwice(way.profile, servers, tools);
    if Rebuild(root.pairs, way, profile, one) == Rebuild(root.pairs, way, profile, two) {
      forall c ensures Child(Put(way.profiles, profile, c), profile) == Ok(c) { PutLaws(way.profiles, profile, c); }
      forall c ensures Child(Put(way.clients, "profiles", c), "profiles") == Ok(c) {
        PutLaws(way.clients, "profiles", c);
      }
      forall c ensures Child(Put(root.pairs, "clients", c), "clients") == Ok(c) { PutLaws(root.pairs, "clients", c); }
      assert Put(way.profiles, profile, one) == Put(way.profiles, profile, two);
    }
  }

  /** Setting the servers and then the tools is the same as setting both at once. */
  lemma PatchAxesInTurn(root: Node, profile: string, servers: seq<string>, tools: seq<string>)
    ensures var first := Patch(root, profile, Some(servers), None);
            (if first.Ok? then Patch(first.value, profile, None, Some(tools)) else first)
            == Patch(root, profile, Some(servers), Some(tools))
  {
    if Patch(root, profile, Some(servers), None).Ok? {
      RebuildTwice(root, profile, Some(servers), None, None, Some(tools));
      WayIsRead(root, profile);
    }
  }

  /***** Edits of two profiles *****/

  datatype Request = Request(profile: string, servers: Option<seq<string>>, tools: Option<seq<string>>)

  function PatchBy(root: Node, r: Request): Result<Node, Error> {
    Patch(root, r.profile, r.servers, r.tools)
  }

  function PatchBoth(root: Node, first: Request, second: Request): Result<Node, Error> {
    var one := PatchBy(root, first);
    if one.Ok? then PatchBy(one.value, second) else one
  }

  lemma PutsSwap(pairs: seq<Pair>, k: string, c: seq<Pair>, l: string, d: seq<Pair>)
    requires k != l && Lookup(pairs, k).Some?
    ensures Put(Put(pairs, k, c), l, d) == Put(Put(pairs, l, d), k, c)
  {
    var i, j := Find(pairs, k), Find(pairs, l);
    FindIsFirst(Put(pairs, k, c), l, j);
    FindIsFirst(Put(pairs, l, d), k, i);
    if j == |pairs| { AppendAfter(pairs, i, Put(pairs, k, c)[i], Put(pairs, l, d)[j]); }
  }

  lemma AppendAfter(pairs: seq<Pair>, i: nat, p: Pair, last: Pair)
    requires i < |pairs|
    ensures pairs[i := p] + [last] == (pairs + [last])[i := p]
  {
  }

  lemma PutsCommute(pairs: seq<Pair>, k: string, c: seq<Pair>, l: string, d: seq<Pair>)
    requires k != l
    ensures var kl, lk := Put(Put(pairs, k, c), l, d), Put(Put(pairs, l, d), k, c);
            && multiset(kl) == multiset(lk)
            && (kl == lk <==> Lookup(pairs, k).Some? || Lookup(pairs, l).Some?)
  {
    if Lookup(pairs, k).Some? {
      PutsSwap(pairs, k, c, l, d);
    } else if Lookup(pairs, l).Some? {
      PutsSwap(pairs, l, d, k, c);
    } else {
      var x, y := Pair(Scalar(STR, k), Mapping(MAP, c)), Pair(Scalar(STR, l), Mapping(MAP, d));
      FindIsFirst(pairs + [x], l, |pairs| + 1);
      FindIsFirst(pairs + [y], k, |pairs| + 1);
      assert Put(Put(pairs, k, c), l, d) == pairs + [x] + [y];
      assert Put(Put(pairs, l, d), k, c) == pairs + [y] + [x];
      assert (pairs + [x] + [y])[|pairs|] != (pairs + [y] + [x])[|pairs|];
    }
  }

  lemma PutsAreSeen(pairs: seq<Pair>, k: string, c: seq<Pair>, l: string, d: seq<Pair>, key: string)
    requires k != l
    ensures Lookup(Put(Put(pairs, k, c), l, d), key) == Lookup(Put(Put(pairs, l, d), k, c), key)
  {
    PutLaws(pairs, k, c);
    PutLaws(pairs, l, d);
    PutLaws(Put(pairs, k, c), l, d);
    PutLaws(Put(pairs, l, d), k, c);
    if key == k {
      SamePut(pairs, Put(pairs, l, d), k, c);
    } else if key == l {
      SamePut(pairs, Put(pairs, k, c), l, d);
    }
  }

  /** What `Put` leaves under its key depends only on what was there. */
  lemma SamePut(a: seq<Pair>, b: seq<Pair>, key: string, child: seq<Pair>)
    requires Lookup(a, key) == Lookup(b, key)
    ensures Lookup(Put(a, key, child), key) == Lookup(Put(b, key, child), key)
  {
    PutIsFound(a, key, child);
    PutIsFound(b, key, child);
  }

  lemma PutIsFound(pairs: seq<Pair>, key: string, child: seq<Pair>)
    ensures var was := Lookup(pairs, key);
            Lookup(Put(pairs, key, child), key)
            == Some(Mapping(if was.Some? && was.value.Mapping? then was.value.tag else MAP, child))
  {
    FindIsFirst(Put(pairs, key, child), key, Find(pairs, key));
  }

  predicate CanHoldProfile(n: Option<Node>) {
    n.Some? ==> n.value.Mapping? || IsBlank(n.value)
  }

  lemma WayOnward(root: Node, k: string, l: string)
    requires root.Mapping? && FindWay(root.pairs, k).Ok?
    ensures FindWay(root.pairs, l).Ok? <==> CanHoldProfile(Profile(root, l))
  {
    WayIsRead(root, k);
  }

  lemma SecondIsFree(root: Node, first: Request, second: Request)
    requires first.profile != second.profile && PatchBy(root, first).Ok?
    ensures PatchBy(PatchBy(root, first).value, second).Ok? <==> PatchBy(root, second).Ok?
  {
    PatchedWay(root, first.profile, first.servers, first.tools);
    WayOnward(root, first.profile, second.profile);
    WayOnward(PatchBy(root, first).value, first.profile, second.profile);
  }

  lemma SecondWay(root: Node, first: Request, second: Request)
    requires first.profile != second.profile && PatchBy(root, first).Ok? && PatchBy(root, second).Ok?
    ensures var one := Put(PairsOf(Profiles(root)), first.profile,
            PairsOf(Profile(PatchBy(root, first).value, first.profile)));
            var two := Put(one, second.profile, PairsOf(Profile(PatchBy(root, second).value, second.profile)));
            PatchBoth(root, first, second)
            == Ok(root.(pairs := Put(root.pairs, "clients", Put(PairsOf(Clients(root)), "profiles", two))))
  {
    SecondIsFree(root, first, second);
    PatchedWay(root, first.profile, first.servers, first.tools);
    var root' := PatchBy(root, first).value;
    PatchedWay(root, second.profile, second.servers, second.tools);
    PatchedWay(root', second.profile, second.servers, second.tools);
    assert Profile(root', second.profile) == Profile(root, second.profile);
    var two := Put(PairsOf(Profiles(root')), second.profile,
        PairsOf(Profile(PatchBy(root, second).value, second.profile)));
    PutTwice(PairsOf(Clients(root)), "profiles", PairsOf(Profiles(root')), two);
    PutTwice(root.pairs, "clients", PairsOf(Clients(root')), Put(PairsOf(Clients(root)), "profiles", two));
  }

  /** A document whose `profiles` mapping was replaced. */
  lemma ProfilesPut(root: Node, ps: seq<Pair>)
    requires root.Mapping?
    ensures var root' := root.(pairs := Put(root.pairs, "clients", Put(PairsOf(Clients(root)), "profiles", ps)));
            && Profiles(root').Some? && Profiles(root').value.Mapping? && PairsOf(Profiles(root')) == ps
            && Others(PairsOf(Clients(root')), {"profiles"}) == Others(PairsOf(Clients(root)), {"profiles"})
            && Others(root'.pairs, {"clients"}) == Others(root.pairs, {"clients"})
  {
    var cs := PairsOf(Clients(root));
    PutLaws(cs, "profiles", ps);
    PutLaws(root.pairs, "clients", Put(cs, "profiles", ps));
  }

  /**
   Edits of different profiles commute: either order succeeds when the other does, everything outside
   the `profiles` mapping is equal, every profile reads the same, and the documents are equal unless
   both profiles are new, when only their order differs.
   */
  lemma PatchesCommute(root: Node, a: Request, b: Request)
    requires a.profile != b.profile
    ensures PatchBoth(root, a, b).Ok? <==> PatchBoth(root, b, a).Ok?
    ensures PatchBoth(root, a, b).Ok? ==>
              var ab, ba := PatchBoth(root, a, b).value, PatchBoth(root, b, a).value;
              && ab.Mapping? && ba.Mapping?
              && (ab == ba <==> Profile(root, a.profile).Some? || Profile(root, b.profile).Some?)
              && (forall k :: Profile(ab, k) == Profile(ba, k))
              && multiset(PairsOf(Profiles(ab))) == multiset(PairsOf(Profiles(ba)))
              && Others(PairsOf(Clients(ab)), {"profiles"}) == Others(PairsOf(Clients(ba)), {"profiles"})
              && Others(ab.pairs, {"clients"}) == Others(ba.pairs, {"clients"})
  {
    if PatchBy(root, a).Ok? && PatchBy(root, b).Ok? {
      SecondWay(root, a, b);
      SecondWay(root, b, a);
      var ca := PairsOf(Profile(PatchBy(root, a).value, a.profile));
      var cb := PairsOf(Profile(PatchBy(root, b).value, b.profile));
      var ps := PairsOf(Profiles(root));
      PutsCommute(ps, a.profile, ca, b.profile, cb);
      var pab, pba := Put(Put(ps, a.profile, ca), b.profile, cb), Put(Put(ps, b.profile, cb), a.profile, ca);
      forall k ensures Lookup(pab, k) == Lookup(pba, k) { PutsAreSeen(ps, a.profile, ca, b.profile, cb, k); }
      ProfilesPut(root, pab);
      ProfilesPut(root, pba);
    } else {
      if PatchBy(root, a).Ok? { SecondIsFree(root, a, b); }
      if PatchBy(root, b).Ok? { SecondIsFree(root, b, a); }
    }
  }
}
