/**
 Moving literal secrets into the variable store: the key search of `storeSecret` and its two
 users, the import of client configurations and the inputs of the `add` command.
 */
module Secrets {
  import opened Base
  import opened Text
  import opened Variables

  /***** Choosing a key *****/

  /** The keys tried in turn: KEY, KEY_2, KEY_3, ... */
  function Candidate(key: string, i: nat): string {
    if i == 0 then key else key + "_" + Decimal(i + 1)
  }

  lemma CandidatesAre(key: string)
    ensures Candidate(key, 0) == key && Candidate(key, 1) == key + "_2" && Candidate(key, 2) == key + "_3"
    ensures Candidate(key, 11) == key + "_12"
  {
    assert Decimal(2) == "2" && Decimal(3) == "3" && Decimal(1) == "1";
    assert Decimal(12) == Decimal(1) + [Digit(2)] == "12";
  }

  lemma CandidatesDiffer(key: string, i: nat, j: nat)
    requires i != j
    ensures Candidate(key, i) != Candidate(key, j)
  {
    if i != 0 && j != 0 && Candidate(key, i) == Candidate(key, j) {
      var n := |key| + 1;
      assert Candidate(key, i)[n..] == Decimal(i + 1) && Candidate(key, j)[n..] == Decimal(j + 1);
      DecimalInjective(i + 1, j + 1);
    }
  }

  /** The candidate is free or already holds the value. */
  predicate Usable(entries: Entries, key: string, value: string) {
    key in entries ==> entries[key].value == value
  }

  function Tried(key: string, n: nat): set<string> {
    if n == 0 then {} else Tried(key, n - 1) + {Candidate(key, n - 1)}
  }

  lemma {:induction false} TriedLaws(entries: Entries, key: string, value: string, n: nat, next: nat)
    requires n <= next && forall i | 0 <= i < n :: !Usable(entries, Candidate(key, i), value)
    ensures |Tried(key, n)| == n && Tried(key, n) <= entries.Keys && Candidate(key, next) !in Tried(key, n)
  {
    if n > 0 {
      TriedLaws(entries, key, value, n - 1, n - 1);
      TriedLaws(entries, key, value, n - 1, next);
      CandidatesDiffer(key, n - 1, next);
    }
  }

  /** Unusable candidates are all different keys of the store, so there are at most as many as entries. */
  lemma UnusableAreFew(entries: Entries, key: string, value: string, n: nat)
    requires forall i | 0 <= i < n :: !Usable(entries, Candidate(key, i), value)
    ensures n <= |entries|
  {
    TriedLaws(entries, key, value, n, n);
    SubsetSize(Tried(key, n), entries.Keys);
    assert |entries.Keys| == |entries|;
  }

  lemma {:induction false} SubsetSize<T>(a: set<T>, b: set<T>)
    requires a <= b
    ensures |a| <= |b|
  {
    if a != {} {
      var x :| x in a;
      SubsetSize(a - {x}, b - {x});
    }
  }

  /** The first usable candidate from `i` on. */
  function FirstUsable(entries: Entries, key: string, value: string, i: nat): (n: nat)
    requires forall j | 0 <= j < i :: !Usable(entries, Candidate(key, j), value)
    ensures i <= n && Usable(entries, Candidate(key, n), value)
    ensures forall j | 0 <= j < n :: !Usable(entries, Candidate(key, j), value)
    decreases |entries| - i
  {
    if Usable(entries, Candidate(key, i), value) then i
    else
      UnusableAreFew(entries, key, value, i + 1);
      FirstUsable(entries, key, value, i + 1)
  }

  function SecretKey(entries: Entries, key: string, value: string): string {
    Candidate(key, FirstUsable(entries, key, value, 0))
  }

  function Secret(key: string, value: string): Variable {
    Variable(key, value, TYPE_STRING, true, "", "", "", "", "")
  }

  /**
   `storeSecret`: the search stops for every store, returns the first usable candidate, and adds an entry
   only where there was none.
   */
  method StoreSecret(store: Store, key: string, value: string, saved: bool) returns (r: Result<string, StoreError>)
    modifies store
    ensures var k := SecretKey(old(store.entries), key, value);
            var error := SetError(Secret(k, value), saved);
            if k in old(store.entries) then r == Ok(k) && store.entries == old(store.entries)
            else if error.Some? then r == Err(error.value) && store.entries == old(store.entries)
            else r == Ok(k) && store.entries == old(store.entries)[k := Secret(k, value)]
    ensures AddsSecrets(old(store.entries), store.entries, {value})
  {
    var candidate := key;
    var n := 2;
    while candidate in store.entries
      invariant store.entries == old(store.entries)
      invariant n >= 2 && candidate == Candidate(key, n - 2)
      invariant forall j | 0 <= j < n - 2 :: !Usable(store.entries, Candidate(key, j), value)
      decreases |store.entries| + 2 - n
    {
      if store.entries[candidate].value == value {
        SearchEnds(store.entries, key, value, n - 2);
        return Ok(candidate);
      }
      UnusableAreFew(store.entries, key, value, n - 1);
      candidate := key + "_" + Decimal(n);
      n := n + 1;
    }
    SearchEnds(store.entries, key, value, n - 2);
    var error := store.SetVariable(Secret(candidate, value), saved);
    if error.Some? { return Err(error.value); }
    return Ok(candidate);
  }

  lemma SearchEnds(entries: Entries, key: string, value: string, n: nat)
    requires Usable(entries, Candidate(key, n), value)
    requires forall j | 0 <= j < n :: !Usable(entries, Candidate(key, j), value)
    ensures FirstUsable(entries, key, value, 0) == n
  {
  }

  /***** What a successful call leaves behind *****/

  /** A store grew: nothing that was there changed. */
  predicate Extends(before: Entries, after: Entries) {
    forall k | k in before :: k in after && after[k] == before[k]
  }

  /** `k` is what a successful call returned, and `after` the store it left. */
  ghost predicate StoredAs(before: Entries, key: string, value: string, k: string, after: Entries) {
    && k == SecretKey(before, key, value)
    && after == (if k in before then before else before[k := Secret(k, value)])
    && (k !in before ==> SetError(Secret(k, value), true).None?)
  }

  lemma StoredLaws(before: Entries, key: string, value: string, k: string, after: Entries)
    requires StoredAs(before, key, value, k, after)
    ensures Extends(before, after)
    ensures k in after && after[k].value == value
  {
  }

  /** Storing the same secret again finds the same key and changes nothing, also after the store grew. */
  lemma StoringAgain(before: Entries, key: string, value: string, k: string, after: Entries, later: Entries)
    requires StoredAs(before, key, value, k, after) && Extends(after, later)
    ensures StoredAs(later, key, value, k, later)
  {
    SearchEnds(later, key, value, FirstUsable(before, key, value, 0));
  }

  /** The suffix keeps a key inside the reference grammar, and cannot bring it there. */
  lemma CandidateIsName(key: string, i: nat)
    requires key != ""
    ensures IsName(Candidate(key, i)) <==> IsName(key)
  {
    var c := Candidate(key, i);
    assert c[..|key|] == key;
    if IsName(key) && i != 0 {
      forall j | 0 <= j < |c| ensures IsNameChar(c[j]) {
        if j < |key| { assert c[j] == key[j]; } else if j > |key| { assert c[j] == Decimal(i + 1)[j - |key| - 1]; }
      }
    } else if IsName(c) {
      assert forall j | 0 <= j < |key| :: key[j] == c[j];
    }
  }

  /***** Reserved keys *****/

  const STEM := "GRIDCTL"

  /** Which candidates for a key are reserved, said of the key itself. */
  predicate IsReserved(key: string, i: nat) {
    if i == 0 then IsInternal(key) else INTERNAL_PREFIX <= key || key == STEM
  }

  /** A key none of whose candidates can be reserved. */
  predicate IsFree(key: string) {
    !IsInternal(key) && key != STEM
  }

  lemma PrefixOfCandidate(key: string, i: nat)
    requires i > 0
    ensures INTERNAL_PREFIX <= Candidate(key, i) <==> INTERNAL_PREFIX <= key || key == STEM
  {
    var c := Candidate(key, i);
    assert |INTERNAL_PREFIX| == 8 && |STEM| == 7 && STEM + "_" == INTERNAL_PREFIX && c[|key|] == '_';
    assert forall j | 0 <= j < 7 :: INTERNAL_PREFIX[j] != '_';
    assert INTERNAL_PREFIX <= c <==> |c| >= 8 && c[..8] == INTERNAL_PREFIX;
    assert INTERNAL_PREFIX <= key <==> |key| >= 8 && key[..8] == INTERNAL_PREFIX;
    assert |key| >= 8 ==> c[..8] == key[..8];
    assert |key| == 7 ==> c[..8] == key + "_" && (key + "_")[..7] == key && (STEM + "_")[..7] == STEM;
    assert |key| < 7 && |c| >= 8 ==> c[..8][|key|] == '_';
  }

  /** The denied keys end in letters, a numbered candidate in a digit. */
  lemma NumberedIsNotDenied(key: string, i: nat)
    requires i > 0
    ensures Candidate(key, i) !in INTERNAL_KEYS
  {
    var c := Candidate(key, i);
    var d := Decimal(i + 1);
    assert c[|c| - 1] == d[|d| - 1];
    LastLetters();
  }

  lemma LastLetters()
    ensures forall k <- INTERNAL_KEYS :: k != "" && (k[|k| - 1] == 'E' || k[|k| - 1] == 'N')
  {
    assert |"GRIDCTL_SSH_KEY_PASSPHRASE"| == 26 && |"GRIDCTL_VAULT_PASSPHRASE"| == 24;
    assert |"OP_CONNECT_TOKEN"| == 16 && |"OP_SERVICE_ACCOUNT_TOKEN"| == 24;
  }

  /** A candidate is reserved if the key is, or if numbering it makes it so. */
  lemma ReservedCandidates(key: string, i: nat)
    ensures IsInternal(Candidate(key, i)) <==> IsReserved(key, i)
    ensures IsFree(key) ==> !IsInternal(Candidate(key, i))
  {
    if i > 0 {
      PrefixOfCandidate(key, i);
      NumberedIsNotDenied(key, i);
    }
  }

  /** Reserved keys are not added to a store. */
  ghost predicate AddsNoReserved(before: Entries, after: Entries) {
    forall k | k in after && IsInternal(k) :: k in before
  }

  /** Every entry that is new is a secret string under its own key, with one of these values and nothing else. */
  ghost predicate AddsSecrets(before: Entries, after: Entries, values: set<string>) {
    forall k | k in after && k !in before ::
      && after[k].key == k && after[k].isSecret && after[k].typ == "string" && after[k].value in values
      && after[k].group == "" && after[k].description == "" && after[k].docs == "" && after[k].example == ""
      && after[k].deprecated == ""
  }

  lemma AddsSecretsMore(before: Entries, mid: Entries, after: Entries, values: set<string>, more: set<string>)
    requires Extends(before, mid) && Extends(mid, after)
    requires AddsSecrets(before, mid, values) && AddsSecrets(mid, after, more)
    ensures AddsSecrets(before, after, values + more)
  {
  }

  /**
   What makes storing a secret fail, when the store does not hold it: the file, a key that is or becomes reserved,
   or an empty key.
   */
  ghost predicate Explains(error: StoreError, entries: Entries, key: string, value: string, saved: bool) {
    && SecretKey(entries, key, value) !in entries
    && match error
       case NotSaved => !saved
       case Reserved => !IsFree(key)
       case EmptyKey => key == ""
       case InvalidType => false
  }

  lemma WhyItFailed(before: Entries, key: string, value: string, saved: bool)
    ensures var k := SecretKey(before, key, value);
            var error := SetError(Secret(k, value), saved);
            && (error.Some? && k !in before ==> Explains(error.value, before, key, value, saved))
            && (error.None? ==> AddsNoReserved(before, before[k := Secret(k, value)]))
            && AddsSecrets(before, before[k := Secret(k, value)], {value})
  {
    ReservedCandidates(key, FirstUsable(before, key, value, 0));
  }

  /**
   The reference to a secret that was stored expands to its value if and only if its key fits the reference
   grammar and the first usable candidate is not reserved; that one is reserved only if the store held it before.
   */
  lemma StoredResolves(before: Entries, key: string, value: string, k: string, after: Entries, env: map<string, string>)
    requires key != "" && StoredAs(before, key, value, k, after)
    ensures Resolve(Reference(k), after, env) ==
            if IsName(key) && !IsReserved(key, FirstUsable(before, key, value, 0)) then Some(value) else None
    ensures IsReserved(key, FirstUsable(before, key, value, 0)) ==> k in before
  {
    var n := FirstUsable(before, key, value, 0);
    CandidateIsName(key, n);
    ReservedCandidates(key, n);
    ReferenceResolves(k, after, env);
  }

  /** A store that holds a reserved key: a secret of that name and value is taken to be stored, but never delivered. */
  lemma ReservedKeyIsNotResolved(value: string, env: map<string, string>)
    ensures var entries := map["GRIDCTL_X" := Secret("GRIDCTL_X", value)];
            && StoredAs(entries, "GRIDCTL_X", value, "GRIDCTL_X", entries)
            && IsName("GRIDCTL_X") && Resolve(Reference("GRIDCTL_X"), entries, env) == None
  {
    var entries := map["GRIDCTL_X" := Secret("GRIDCTL_X", value)];
    assert Candidate("GRIDCTL_X", 0) == "GRIDCTL_X";
    SearchEnds(entries, "GRIDCTL_X", value, 0);
    assert INTERNAL_PREFIX <= "GRIDCTL_X";
    ReferenceResolves("GRIDCTL_X", entries, env);
  }

  /***** Import *****/

  /** A server found in a client configuration. `skip` is empty when it is to be imported. */
  datatype Found = Found(name: string, env: map<string, string>, secretKeys: seq<string>, skip: string)

  /** Secret keys are distinct keys of the environment, as `ClassifySecretKeys` lists them. */
  ghost predicate WellClassified(c: Found) {
    Distinct(c.secretKeys) && forall k | k in c.secretKeys :: k in c.env
  }

  datatype Answer = Yes | No | Abort

  datatype MoveError = Aborted | Failed(error: StoreError)

  /**
   The first `n` secret keys of the server refer to store entries that hold their old values; the rest is as it was.
   */
  ghost predicate Moved(before: Found, after: Found, entries: Entries, n: nat) {
    && n <= |before.secretKeys|
    && after == before.(env := after.env) && after.env.Keys == before.env.Keys
    && (forall k | k in before.env && k !in before.secretKeys[..n] :: after.env[k] == before.env[k])
    && (forall i | 0 <= i < n :: before.secretKeys[i] in before.env)
    && forall i | 0 <= i < n ::
         HeldBy(entries, before.secretKeys[i], before.env[before.secretKeys[i]], after.env[before.secretKeys[i]])
  }

  /** The text refers to a store entry with the value, under one of the candidates for the key. */
  ghost predicate HeldBy(entries: Entries, key: string, value: string, text: string) {
    exists i: nat :: Candidate(key, i) in entries && entries[Candidate(key, i)].value == value
        && text == Reference(Candidate(key, i))
  }

  lemma MovedExtends(before: Found, after: Found, entries: Entries, more: Entries, n: nat)
    requires Moved(before, after, entries, n) && Extends(entries, more)
    ensures Moved(before, after, more, n)
  {
    forall i | 0 <= i < n ensures
        HeldBy(more, before.secretKeys[i], before.env[before.secretKeys[i]], after.env[before.secretKeys[i]])
    {
      HeldExtends(entries, more, before.secretKeys[i], before.env[before.secretKeys[i]],
          after.env[before.secretKeys[i]]);
    }
  }

  lemma HeldExtends(entries: Entries, more: Entries, key: string, value: string, text: string)
    requires HeldBy(entries, key, value, text) && Extends(entries, more)
    ensures HeldBy(more, key, value, text)
  {
    var i: nat :| Candidate(key, i) in entries && entries[Candidate(key, i)].value == value
        && text == Reference(Candidate(key, i));
    assert Candidate(key, i) in more;
  }

  /** The literal values under the secret keys of a server. */
  function SecretValues(c: Found): set<string> {
    set k | k in c.secretKeys && k in c.env :: c.env[k]
  }

  /** Moves the secrets of one server. */
  method MoveSecrets(store: Store, c: Found, saves: nat -> bool) returns (r: Result<Found, StoreError>)
    requires WellClassified(c)
    modifies store
    ensures Extends(old(store.entries), store.entries) && AddsNoReserved(old(store.entries), store.entries)
    ensures AddsSecrets(old(store.entries), store.entries, SecretValues(c))
    ensures r.Ok? ==> Moved(c, r.value, store.entries, |c.secretKeys|)
    ensures r.Err? ==> exists i | 0 <= i < |c.secretKeys| ::
              Explains(r.error, store.entries, c.secretKeys[i], c.env[c.secretKeys[i]], saves(i))
  {
    var now := c;
    for i := 0 to |c.secretKeys|
      invariant Extends(old(store.entries), store.entries) && AddsNoReserved(old(store.entries), store.entries)
      invariant AddsSecrets(old(store.entries), store.entries, SecretValues(c))
      invariant Moved(c, now, store.entries, i)
    {
      var key := c.secretKeys[i];
      assert now.env[key] == c.env[key];
      ghost var before := store.entries;
      WhyItFailed(before, key, now.env[key], saves(i));
      var stored := StoreSecret(store, key, now.env[key], saves(i));
      if stored.Err? { return Err(stored.error); }
      StoredLaws(before, key, c.env[key], stored.value, store.entries);
      assert HeldBy(store.entries, key, c.env[key], Reference(stored.value));
      MovedExtends(c, now, before, store.entries, i);
      OneMoreMoved(c, now, store.entries, i, Reference(stored.value));
      now := now.(env := now.env[key := Reference(stored.value)]);
    }
    return Ok(now);
  }

  lemma OneMoreMoved(c: Found, now: Found, entries: Entries, i: nat, text: string)
    requires WellClassified(c) && i < |c.secretKeys| && Moved(c, now, entries, i)
    requires HeldBy(entries, c.secretKeys[i], c.env[c.secretKeys[i]], text)
    ensures Moved(c, now.(env := now.env[c.secretKeys[i] := text]), entries, i + 1)
  {
    var key, next := c.secretKeys[i], now.(env := now.env[c.secretKeys[i] := text]);
    assert c.secretKeys[..i + 1] == c.secretKeys[..i] + [key];
    forall j | 0 <= j < i + 1 ensures
        HeldBy(entries, c.secretKeys[j], c.env[c.secretKeys[j]], next.env[c.secretKeys[j]])
    {
      if j < i { assert c.secretKeys[j] != key; }
    }
  }

  /** The servers a successful run moves the secrets of. */
  predicate Moves(c: Found, answer: Answer, enabled: bool) {
    enabled && c.skip == "" && c.secretKeys != [] && answer == Yes
  }

  /** The values that may be moved: those of the servers whose secrets are. */
  ghost function MovedValues(selected: seq<Found>, answers: nat -> Answer, enabled: bool): set<string> {
    set i, v | 0 <= i < |selected| && Moves(selected[i], answers(i), enabled) && v in SecretValues(selected[i]) :: v
  }

  /** The first `n` servers are dealt with, the others are as they were. */
  ghost predicate MovedSoFar(were: seq<Found>, now: seq<Found>, answers: nat -> Answer, enabled: bool,
                             entries: Entries, n: nat) {
    && |were| == |now| && n <= |now| && now[n..] == were[n..]
    && forall j | 0 <= j < n ::
         if Moves(were[j], answers(j), enabled) then Moved(were[j], now[j], entries, |were[j].secretKeys|)
         else now[j] == were[j]
  }

  lemma OneMoreServer(were: seq<Found>, now: seq<Found>, answers: nat -> Answer, enabled: bool, entries: Entries,
                      more: Entries, n: nat, c: Found)
    requires MovedSoFar(were, now, answers, enabled, entries, n) && n < |now| && Extends(entries, more)
    requires if Moves(were[n], answers(n), enabled) then Moved(were[n], c, more, |were[n].secretKeys|) else c == were[n]
    ensures MovedSoFar(were, now[n := c], answers, enabled, more, n + 1)
  {
    forall j | 0 <= j < n && Moves(were[j], answers(j), enabled)
      ensures Moved(were[j], now[j], more, |were[j].secretKeys|)
    {
      MovedExtends(were[j], now[j], entries, more, |were[j].secretKeys|);
    }
    assert now[n := c][n + 1..] == now[n..][1..] && were[n + 1..] == were[n..][1..];
  }

  /** What ends a run early: the user aborts at a server with secrets, or storing one of its secrets fails. */
  ghost predicate MoveFails(c: Found, answer: Answer, enabled: bool, saves: nat -> bool, entries: Entries,
                            error: MoveError)
    requires WellClassified(c)
  {
    && enabled && c.skip == "" && c.secretKeys != []
    && match error
       case Aborted => answer == Abort
       case Failed(e) => answer == Yes && exists j | 0 <= j < |c.secretKeys| ::
         Explains(e, entries, c.secretKeys[j], c.env[c.secretKeys[j]], saves(j))
  }

  /**
   `vaultSelectedSecrets`. `available` is whether the store could be opened and unlocked, `answers` what the
   user says for each server (always yes when not asked), `saves` whether each write of the store file works.
   */
  method VaultSelectedSecrets(selected: array<Found>, store: Store, noVault: bool, available: bool,
                              answers: nat -> Answer, saves: (nat, nat) -> bool) returns (error: Option<MoveError>)
    requires forall i | 0 <= i < selected.Length :: WellClassified(selected[i])
    modifies selected, store
    ensures Extends(old(store.entries), store.entries) && AddsNoReserved(old(store.entries), store.entries)
    ensures AddsSecrets(old(store.entries), store.entries,
                        MovedValues(old(selected[..]), answers, !noVault && available))
    ensures error.Some? ==> exists i | 0 <= i < selected.Length ::
              MoveFails(old(selected[i]), answers(i), !noVault && available, (j: nat) => saves(i, j), store.entries,
                        error.value)
    ensures error.None? ==> forall i | 0 <= i < selected.Length ::
              if Moves(old(selected[i]), answers(i), !noVault && available)
              then Moved(old(selected[i]), selected[i], store.entries, |old(selected[i]).secretKeys|)
              else selected[i] == old(selected[i])
  {
    var ready, disabled := false, noVault;
    ghost var were, enabled := selected[..], !noVault && available;
    ghost var values := MovedValues(were, answers, enabled);
    for i := 0 to selected.Length
      invariant AddsSecrets(old(store.entries), store.entries, values)
      invariant Extends(old(store.entries), store.entries) && AddsNoReserved(old(store.entries), store.entries)
      invariant ready ==> !disabled && available
      invariant (disabled ==> noVault || !available) && (noVault ==> disabled)
      invariant MovedSoFar(were, selected[..], answers, enabled, store.entries, i)
    {
      var c := selected[i];
      assert c == selected[..][i..][0] == were[i..][0];
      ghost var before, now := store.entries, selected[..];
      if !Moves(c, answers(i), enabled) { OneMoreServer(were, now, answers, enabled, before, before, i, c); }
      assert now[i := c] == now;
      if c.skip != "" || c.secretKeys == [] { continue; }
      if !disabled && !ready {
        if available { ready := true; } else { disabled := true; }
      }
      if disabled { continue; }
      if answers(i) == Abort { return Some(Aborted); }
      if answers(i) == No { continue; }
      var moved := MoveSecrets(store, c, (j: nat) => saves(i, j));
      AddsSecretsMore(old(store.entries), before, store.entries, values, SecretValues(c));
      assert values + SecretValues(c) == values;
      if moved.Err? { return Some(Failed(moved.error)); }
      OneMoreServer(were, now, answers, enabled, before, store.entries, i, moved.value);
      selected[i] := moved.value;
      assert selected[..] == now[i := moved.value];
    }
    return None;
  }

  /**
   A moved key expands to its old value in the final store, unless it does not fit the reference grammar or the
   store held a reserved key before: always if the key is a name and free, or a name and no reserved key was there,
   and never if it is no name.
   */
  lemma MovedKeysResolve(before: Found, after: Found, first: Entries, entries: Entries, env: map<string, string>,
                         i: nat)
    requires Moved(before, after, entries, |before.secretKeys|) && i < |before.secretKeys|
    requires before.secretKeys[i] != "" && AddsNoReserved(first, entries)
    ensures var key := before.secretKeys[i];
            var result := Resolve(after.env[key], entries, env);
            && (result.Some? ==> IsName(key) && result.value == before.env[key])
            && (!IsName(key) ==> result.None?)
            && (IsName(key) && (IsFree(key) || forall k <- first :: !IsInternal(k)) ==> result == Some(before.env[key]))
            && (IsName(key) ==>
                  (result.None? <==> exists n: nat | IsReserved(key, n) ::
                    Candidate(key, n) in first && after.env[key] == Reference(Candidate(key, n))))
  {
    var key := before.secretKeys[i];
    assert HeldBy(entries, key, before.env[key], after.env[key]);
    HeldResolves(first, entries, key, before.env[key], after.env[key], env);
  }

  /** The same for any text that refers to a held value. */
  lemma HeldResolves(first: Entries, entries: Entries, key: string, value: string, text: string,
                     env: map<string, string>)
    requires key != "" && HeldBy(entries, key, value, text) && AddsNoReserved(first, entries)
    ensures var result := Resolve(text, entries, env);
            && (result.Some? ==> IsName(key) && result.value == value)
            && (!IsName(key) ==> result.None?)
            && (IsName(key) && (IsFree(key) || forall k <- first :: !IsInternal(k)) ==> result == Some(value))
            && (IsName(key) ==>
                  (result.None? <==> exists n: nat | IsReserved(key, n) ::
                    Candidate(key, n) in first && text == Reference(Candidate(key, n))))
  {
    var n: nat :| Candidate(key, n) in entries && entries[Candidate(key, n)].value == value
        && text == Reference(Candidate(key, n));
    CandidateIsName(key, n);
    ReservedCandidates(key, n);
    ReferenceResolves(Candidate(key, n), entries, env);
    forall m: nat | IsReserved(key, m) && text == Reference(Candidate(key, m))
      ensures IsName(key) ==> IsReserved(key, n)
    {
      ReservedCandidates(key, m);
      CandidateIsName(key, m);
      SameReference(Candidate(key, m), Candidate(key, n));
    }
  }

  lemma SameReference(a: string, b: string)
    requires Reference(a) == Reference(b)
    ensures a == b
  {
    assert Reference(a)[6..|Reference(a)| - 1] == a && Reference(b)[6..|Reference(b)| - 1] == b;
  }

  /** A client may name a variable with a dash; its secret is stored but its reference is not one. */
  lemma DashedKeyIsNotResolved(value: string, env: map<string, string>)
    ensures var before := Found("s", map["API-KEY" := value], ["API-KEY"], "");
            var after := before.(env := map["API-KEY" := "${var:API-KEY}"]);
            var entries := map["API-KEY" := Secret("API-KEY", value)];
            && WellClassified(before)
            && StoredAs(map[], "API-KEY", value, "API-KEY", entries)
            && Moved(before, after, entries, 1)
            && Resolve(after.env["API-KEY"], entries, env) == None
  {
    var entries := map["API-KEY" := Secret("API-KEY", value)];
    assert Candidate("API-KEY", 0) in entries && "${var:API-KEY}" == Reference(Candidate("API-KEY", 0));
    assert HeldBy(entries, "API-KEY", value, "${var:API-KEY}");
    assert "API-KEY"[3] == '-' && ["API-KEY"][..1] == ["API-KEY"];
    ReferenceResolves("API-KEY", entries, env);
  }

  /***** Inputs of the add command *****/

  /** Runs of other characters become one underscore. */
  function Collapse(s: string, inRun: bool): string {
    if s == "" then ""
    else if IsNameChar(s[0]) then [s[0]] + Collapse(s[1..], false)
    else if inRun then Collapse(s[1..], true)
    else "_" + Collapse(s[1..], true)
  }

  function TrimUnderscores(s: string): string {
    if s != "" && s[0] == '_' then TrimUnderscores(s[1..])
    else if s != "" && s[|s| - 1] == '_' then TrimUnderscores(s[..|s| - 1])
    else s
  }

  /** `catalog.VarKey`: folds an input name into the reference grammar. */
  function VarKey(name: string): string {
    var key := TrimUnderscores(Collapse(name, false));
    if key == "" then "VALUE" else if IsDigit(key[0]) then "_" + key else key
  }

  lemma {:induction false} CollapseIsClean(s: string, inRun: bool)
    ensures forall c | c in Collapse(s, inRun) :: IsNameChar(c)
  {
    if s != "" {
      CollapseIsClean(s[1..], false);
      CollapseIsClean(s[1..], true);
    }
  }

  lemma {:induction false} TrimKeeps(s: string)
    ensures forall c | c in TrimUnderscores(s) :: c in s
  {
    if s != "" && s[0] == '_' { TrimKeeps(s[1..]); }
    else if s != "" && s[|s| - 1] == '_' { TrimKeeps(s[..|s| - 1]); }
  }

  /** Whatever the input is called, its key fits the reference grammar. */
  lemma VarKeyIsName(name: string)
    ensures IsName(VarKey(name))
  {
    CollapseIsClean(name, false);
    TrimKeeps(Collapse(name, false));
    var key := TrimUnderscores(Collapse(name, false));
    assert forall i | 0 <= i < |key| :: key[i] in key;
  }

  ghost predicate IsAlphanumeric(c: char) {
    'a' <= c <= 'z' || 'A' <= c <= 'Z' || '0' <= c <= '9'
  }

  /** The letters and digits of a text, in order. */
  ghost function Alphanumerics(s: string): string {
    if s == "" then "" else (if IsAlphanumeric(s[0]) then [s[0]] else "") + Alphanumerics(s[1..])
  }

  lemma {:induction false} AlphanumericsConcat(a: string, b: string)
    ensures Alphanumerics(a + b) == Alphanumerics(a) + Alphanumerics(b)
  {
    if a == "" {
      assert a + b == b;
    } else {
      assert (a + b)[0] == a[0] && (a + b)[1..] == a[1..] + b;
      AlphanumericsConcat(a[1..], b);
      Associative(if IsAlphanumeric(a[0]) then [a[0]] else "", Alphanumerics(a[1..]), Alphanumerics(b));
    }
  }

  lemma {:induction false} CollapseKeeps(s: string, inRun: bool)
    ensures Alphanumerics(Collapse(s, inRun)) == Alphanumerics(s)
  {
    if s != "" {
      var rest := Collapse(s[1..], !IsNameChar(s[0]));
      CollapseKeeps(s[1..], !IsNameChar(s[0]));
      AlphanumericsConcat([s[0]], rest);
      AlphanumericsConcat("_", rest);
      assert Alphanumerics([s[0]]) == (if IsAlphanumeric(s[0]) then [s[0]] else "") && Alphanumerics("_") == "";
    }
  }

  lemma {:induction false} TrimUnderscoresKeeps(s: string)
    ensures Alphanumerics(TrimUnderscores(s)) == Alphanumerics(s)
  {
    if s != "" && s[0] == '_' {
      TrimUnderscoresKeeps(s[1..]);
    } else if s != "" && s[|s| - 1] == '_' {
      var most := s[..|s| - 1];
      TrimUnderscoresKeeps(most);
      assert s == most + "_";
      AlphanumericsConcat(most, "_");
      assert Alphanumerics("_") == "";
    }
  }

  lemma {:induction false} TrimUnderscoresEnds(s: string)
    ensures var t := TrimUnderscores(s); t == "" || (t[0] != '_' && t[|t| - 1] != '_')
  {
    if s != "" && s[0] == '_' { TrimUnderscoresEnds(s[1..]); }
    else if s != "" && s[|s| - 1] == '_' { TrimUnderscoresEnds(s[..|s| - 1]); }
  }

  lemma {:induction false} CollapseNames(a: string, b: string, inRun: bool)
    requires a != "" && forall c <- a :: IsNameChar(c)
    ensures Collapse(a + b, inRun) == a + Collapse(b, false)
  {
    assert (a + b)[0] == a[0] && a[0] in a && (a + b)[1..] == a[1..] + b;
    if |a| == 1 {
      assert a[1..] + b == b;
    } else {
      assert forall c <- a[1..] :: c in a;
      CollapseNames(a[1..], b, false);
    }
  }

  lemma {:induction false} CollapseRun(run: string, b: string, inRun: bool)
    requires (forall c <- run :: !IsNameChar(c)) && (b == "" || IsNameChar(b[0]))
    ensures Collapse(run + b, inRun) == (if run == "" || inRun then "" else "_") + Collapse(b, false)
  {
    if run == "" {
      assert run + b == b;
    } else {
      assert (run + b)[0] == run[0] && run[0] in run && (run + b)[1..] == run[1..] + b;
      assert forall c <- run[1..] :: c in run;
      CollapseRun(run[1..], b, true);
    }
  }

  /**
   The key keeps the letters and digits of the name in order; without any it is VALUE. A key is its own key, and
   so is every name without underscores at its ends.
   */
  lemma VarKeyLaws(name: string)
    ensures Alphanumerics(VarKey(name)) == if Alphanumerics(name) == "" then "VALUE" else Alphanumerics(name)
    ensures Alphanumerics(name) == "" ==> VarKey(name) == "VALUE"
    ensures VarKey(VarKey(name)) == VarKey(name)
    ensures IsName(name) && name[0] != '_' && name[|name| - 1] != '_' ==> VarKey(name) == name
  {
    VarKeyKeeps(name);
    VarKeyAgain(name);
    if IsName(name) && name[0] != '_' && name[|name| - 1] != '_' { VarKeyOfName(name); }
  }

  lemma VarKeyAgain(name: string)
    ensures VarKey(VarKey(name)) == VarKey(name)
  {
    var key := TrimUnderscores(Collapse(name, false));
    TrimUnderscoresEnds(Collapse(name, false));
    VarKeyIsName(name);
    if key == "" {
      VarKeyOfName("VALUE");
    } else if IsDigit(key[0]) {
      NameCollapses("_" + key);
      UnderscoreFirst(key);
    } else {
      VarKeyOfName(key);
    }
  }

  lemma UnderscoreFirst(s: string)
    ensures TrimUnderscores("_" + s) == TrimUnderscores(s)
    ensures s != "" && s[0] != '_' && s[|s| - 1] != '_' ==> TrimUnderscores(s) == s
  {
    assert ("_" + s)[1..] == s;
  }

  lemma UnderscoreLast(s: string)
    requires s != "" && s[0] != '_' && s[|s| - 1] != '_'
    ensures TrimUnderscores(s + "_") == s
  {
    var t := s + "_";
    assert t[0] == s[0] && t[|t| - 1] == '_' && t[..|t| - 1] == s;
    UnderscoreFirst(s);
  }

  lemma VarKeyKeeps(name: string)
    ensures Alphanumerics(VarKey(name)) == if Alphanumerics(name) == "" then "VALUE" else Alphanumerics(name)
    ensures Alphanumerics(name) == "" ==> VarKey(name) == "VALUE"
  {
    var key := TrimUnderscores(Collapse(name, false));
    CollapseKeeps(name, false);
    TrimUnderscoresKeeps(Collapse(name, false));
    TrimUnderscoresEnds(Collapse(name, false));
    CollapseIsClean(name, false);
    TrimKeeps(Collapse(name, false));
    if key == "" {
      assert Alphanumerics("VALUE") == "VALUE";
    } else {
      assert key[0] in key && IsAlphanumeric(key[0]);
      assert Alphanumerics(key) != "";
      AlphanumericsConcat("_", key);
      assert Alphanumerics("_") == "";
    }
  }

  lemma NameCollapses(name: string)
    requires IsName(name)
    ensures Collapse(name, false) == name
  {
    assert forall c <- name :: IsNameChar(c);
    CollapseNames(name, "", false);
    assert name + "" == name && name + Collapse("", false) == name;
  }

  lemma VarKeyOfName(name: string)
    requires IsName(name) && name[0] != '_' && name[|name| - 1] != '_'
    ensures VarKey(name) == name
  {
    NameCollapses(name);
  }

  ghost predicate IsWord(s: string) {
    s != "" && forall c <- s :: IsAlphanumeric(c)
  }

  /** No letters, digits or underscores. */
  ghost predicate IsGap(s: string) {
    forall c <- s :: !IsAlphanumeric(c) && c != '_'
  }

  /** Two words with anything else around and between them are joined by one underscore; a digit first gets another. */
  lemma VarKeyJoins(l: string, a: string, run: string, b: string, r: string)
    requires IsWord(a) && IsWord(b) && IsGap(l) && IsGap(run) && IsGap(r) && run != ""
    ensures VarKey(l + a + run + b + r) == (if '0' <= a[0] <= '9' then "_" else "") + (a + "_" + b)
  {
    CollapseJoins(l, a, run, b, r);
    var core := a + "_" + b;
    assert a[0] in a && b[|b| - 1] in b && core[0] == a[0] && core[|core| - 1] == b[|b| - 1];
    JoinedIsTrimmed(if l == "" then "" else "_", core, if r == "" then "" else "_");
  }

  lemma CollapseWord(gap: string, word: string, rest: string)
    requires IsGap(gap) && IsWord(word)
    ensures Collapse(gap + (word + rest), false) == (if gap == "" then "" else "_") + (word + Collapse(rest, false))
  {
    assert word[0] in word && (word + rest)[0] == word[0];
    CollapseNames(word, rest, false);
    CollapseRun(gap, word + rest, false);
  }

  lemma CollapseJoins(l: string, a: string, run: string, b: string, r: string)
    requires IsWord(a) && IsWord(b) && IsGap(l) && IsGap(run) && IsGap(r) && run != ""
    ensures Collapse(l + a + run + b + r, false)
            == (if l == "" then "" else "_") + (a + "_" + b) + if r == "" then "" else "_"
  {
    var end := if r == "" then "" else "_";
    CollapseRun(r, "", false);
    assert r + "" == r && end + "" == end;
    CollapseWord(run, b, r);
    CollapseWord(l, a, run + (b + r));
    assert l + a + run + b + r == l + (a + (run + (b + r)));
    assert a + ("_" + (b + end)) == (a + "_" + b) + end;
  }

  lemma JoinedIsTrimmed(l: string, core: string, r: string)
    requires l in ["", "_"] && r in ["", "_"] && core != "" && core[0] != '_' && core[|core| - 1] != '_'
    ensures TrimUnderscores(l + core + r) == core
  {
    var end := core + r;
    if r == "" {
      assert end == core;
      UnderscoreFirst(core);
    } else {
      UnderscoreLast(core);
    }
    assert l + core + r == l + end;
    if l == "" { assert l + end == end; } else { UnderscoreFirst(end); }
  }

  datatype Input = Input(name: string, fallback: string, required: bool, auth: bool, secret: bool)

  function ValueOf(i: Input, values: map<string, string>): string {
    var v := if i.name in values then TrimSpace(values[i.name]) else "";
    if v == "" then i.fallback else v
  }

  /** The value given for an input counts without the blanks around it; if nothing is left, the fallback is used. */
  lemma ValueIsTrimmed(i: Input, values: map<string, string>, l: string, v: string, r: string)
    requires IsBlank(l) && IsBlank(r)
    ensures i.name !in values || values[i.name] == l ==> ValueOf(i, values) == i.fallback
    ensures i.name in values && IsSolid(v) && values[i.name] == l + v + r ==> ValueOf(i, values) == v
  {
    TrimText(l, v, r);
  }

  /** An input that is optional and unset is left out of the block. */
  predicate IsWritten(i: Input, values: map<string, string>) {
    ValueOf(i, values) != "" || i.required || i.auth
  }

  /** What the server block gets for an input that is written, given the store at the end. */
  ghost predicate Routed(i: Input, values: map<string, string>, dryRun: bool, enabled: bool, text: string,
                         entries: Entries) {
    var v := ValueOf(i, values);
    if v == "" || (i.secret && dryRun) then text == Reference(VarKey(i.name))
    else if i.secret && enabled then HeldBy(entries, VarKey(i.name), v, text)
    else text == v
  }

  /** No input after `i` among the first `n` is written under the same name. */
  ghost predicate IsLast(inputs: seq<Input>, i: nat, n: nat, values: map<string, string>)
    requires i < n <= |inputs|
  {
    forall j | i < j < n :: inputs[j].name == inputs[i].name ==> !IsWritten(inputs[j], values)
  }

  /** One of the first `n` inputs is written under this name. */
  ghost predicate WritesName(inputs: seq<Input>, n: nat, values: map<string, string>, name: string)
    requires n <= |inputs|
  {
    exists i | 0 <= i < n :: inputs[i].name == name && IsWritten(inputs[i], values)
  }

  /** Of the first `n` inputs exactly those that are written are in the block. */
  ghost predicate NamesRouted(inputs: seq<Input>, n: nat, values: map<string, string>, resolved: map<string, string>)
    requires n <= |inputs|
  {
    forall k :: k in resolved <==> WritesName(inputs, n, values, k)
  }

  /** Exactly the inputs that are written are in the block, the last of each name as it is routed. */
  ghost predicate AllRouted(inputs: seq<Input>, n: nat, values: map<string, string>, dryRun: bool, enabled: bool,
                            resolved: map<string, string>, entries: Entries) {
    && n <= |inputs| && NamesRouted(inputs, n, values, resolved)
    && ValuesRouted(inputs, n, values, dryRun, enabled, resolved, entries)
  }

  ghost predicate ValuesRouted(inputs: seq<Input>, n: nat, values: map<string, string>, dryRun: bool, enabled: bool,
                               resolved: map<string, string>, entries: Entries)
    requires n <= |inputs|
  {
    forall i | 0 <= i < n && IsWritten(inputs[i], values) && IsLast(inputs, i, n, values) ::
      inputs[i].name in resolved && Routed(inputs[i], values, dryRun, enabled, resolved[inputs[i].name], entries)
  }

  lemma RoutedExtends(i: Input, values: map<string, string>, dryRun: bool, enabled: bool, text: string,
                      entries: Entries, more: Entries)
    requires Routed(i, values, dryRun, enabled, text, entries) && Extends(entries, more)
    ensures Routed(i, values, dryRun, enabled, text, more)
  {
    var v := ValueOf(i, values);
    if v != "" && i.secret && !dryRun && enabled { HeldExtends(entries, more, VarKey(i.name), v, text); }
  }

  lemma NamesOneMore(inputs: seq<Input>, n: nat, values: map<string, string>, before: map<string, string>,
                     after: map<string, string>)
    requires n < |inputs| && NamesRouted(inputs, n, values, before)
    requires if IsWritten(inputs[n], values) then after.Keys == before.Keys + {inputs[n].name} else after == before
    ensures NamesRouted(inputs, n + 1, values, after)
  {
    forall k
      ensures WritesName(inputs, n + 1, values, k)
              <==> WritesName(inputs, n, values, k) || (inputs[n].name == k && IsWritten(inputs[n], values))
    {
    }
    assert forall k :: k in after <==> k in after.Keys;
  }

  /** What the next input does to the block: it writes under its name, or nothing. */
  ghost predicate NextRouted(inputs: seq<Input>, n: nat, values: map<string, string>, dryRun: bool, enabled: bool,
                             before: map<string, string>, after: map<string, string>, entries: Entries)
    requires n < |inputs|
  {
    if IsWritten(inputs[n], values)
    then
      && inputs[n].name in after && after == before[inputs[n].name := after[inputs[n].name]]
      && Routed(inputs[n], values, dryRun, enabled, after[inputs[n].name], entries)
    else after == before
  }

  lemma RoutedStays(inputs: seq<Input>, i: nat, n: nat, values: map<string, string>, dryRun: bool, enabled: bool,
                    before: map<string, string>, after: map<string, string>, entries: Entries, more: Entries)
    requires i < n < |inputs| && ValuesRouted(inputs, n, values, dryRun, enabled, before, entries)
            && Extends(entries, more)
    requires NextRouted(inputs, n, values, dryRun, enabled, before, after, more)
    requires IsWritten(inputs[i], values) && IsLast(inputs, i, n + 1, values)
    ensures inputs[i].name in after && Routed(inputs[i], values, dryRun, enabled, after[inputs[i].name], more)
  {
    StillLast(inputs, i, n, values);
    RoutedExtends(inputs[i], values, dryRun, enabled, before[inputs[i].name], entries, more);
  }

  lemma ValuesOneMore(inputs: seq<Input>, n: nat, values: map<string, string>, dryRun: bool, enabled: bool,
                      before: map<string, string>, after: map<string, string>, entries: Entries, more: Entries)
    requires n < |inputs| && ValuesRouted(inputs, n, values, dryRun, enabled, before, entries) && Extends(entries, more)
    requires NextRouted(inputs, n, values, dryRun, enabled, before, after, more)
    ensures ValuesRouted(inputs, n + 1, values, dryRun, enabled, after, more)
  {
    forall i | 0 <= i < n && IsWritten(inputs[i], values) && IsLast(inputs, i, n + 1, values)
      ensures inputs[i].name in after && Routed(inputs[i], values, dryRun, enabled, after[inputs[i].name], more)
    {
      RoutedStays(inputs, i, n, values, dryRun, enabled, before, after, entries, more);
    }
  }

  lemma OneMoreRouted(inputs: seq<Input>, n: nat, values: map<string, string>, dryRun: bool, enabled: bool,
                      before: map<string, string>, after: map<string, string>, entries: Entries, more: Entries)
    requires n < |inputs| && AllRouted(inputs, n, values, dryRun, enabled, before, entries) && Extends(entries, more)
    requires NextRouted(inputs, n, values, dryRun, enabled, before, after, more)
    ensures AllRouted(inputs, n + 1, values, dryRun, enabled, after, more)
  {
    NamesOneMore(inputs, n, values, before, after);
    ValuesOneMore(inputs, n, values, dryRun, enabled, before, after, entries, more);
  }

  lemma StillLast(inputs: seq<Input>, i: nat, n: nat, values: map<string, string>)
    requires i < n < |inputs| && IsLast(inputs, i, n + 1, values)
    ensures IsLast(inputs, i, n, values) && (IsWritten(inputs[n], values) ==> inputs[n].name != inputs[i].name)
  {
  }

  /** What one input puts into the block, if it does; a secret goes to the store. */
  method RouteOne(i: Input, values: map<string, string>, store: Store, dryRun: bool, enabled: bool, saved: bool)
    returns (r: Result<Option<string>, StoreError>)
    modifies store
    ensures Extends(old(store.entries), store.entries) && AddsNoReserved(old(store.entries), store.entries)
    ensures AddsSecrets(old(store.entries), store.entries, if i.secret then {ValueOf(i, values)} else {})
    ensures dryRun || !enabled ==> store.entries == old(store.entries) && r.Ok?
    ensures r.Ok? ==> (r.value.Some? <==> IsWritten(i, values))
    ensures r.Ok? ==> (r.value.Some? <==> ValueOf(i, values) != "" || i.required || i.auth)
    ensures r.Ok? && r.value.Some? ==> Routed(i, values, dryRun, enabled, r.value.value, store.entries)
    ensures r.Err? ==> i.secret && ValueOf(i, values) != ""
    ensures r.Err? ==> Explains(r.error, store.entries, VarKey(i.name), ValueOf(i, values), saved)
  {
    var v, key := ValueOf(i, values), VarKey(i.name);
    if v == "" { return Ok(if i.required || i.auth then Some(Reference(key)) else None); }
    if !i.secret { return Ok(Some(v)); }
    if dryRun { return Ok(Some(Reference(key))); }
    if !enabled { return Ok(Some(v)); }
    ghost var entries := store.entries;
    WhyItFailed(entries, key, v, saved);
    var stored := StoreSecret(store, key, v, saved);
    if stored.Err? { return Err(stored.error); }
    StoredLaws(entries, key, v, stored.value, store.entries);
    assert HeldBy(store.entries, key, v, Reference(stored.value));
    return Ok(Some(Reference(stored.value)));
  }

  /** The values of the secret inputs. */
  ghost function RoutedValues(inputs: seq<Input>, values: map<string, string>): set<string> {
    set i | 0 <= i < |inputs| && inputs[i].secret :: ValueOf(inputs[i], values)
  }

  /** An input whose value has to be stored, which is when the store is first opened. */
  predicate NeedsStore(i: Input, values: map<string, string>, dryRun: bool) {
    ValueOf(i, values) != "" && i.secret && !dryRun
  }

  /** `routeInputValues`: secrets go to the store, missing values become references to be filled in later. */
  method RouteInputValues(inputs: seq<Input>, values: map<string, string>, store: Store, dryRun: bool, noVault: bool,
                          available: bool,
                          saves: nat -> bool)
    returns (r: Result<map<string, string>, StoreError>)
    modifies store
    ensures Extends(old(store.entries), store.entries) && (dryRun ==> store.entries == old(store.entries))
    ensures AddsNoReserved(old(store.entries), store.entries)
    ensures AddsSecrets(old(store.entries), store.entries, RoutedValues(inputs, values))
    ensures r.Ok? ==> AllRouted(inputs, |inputs|, values, dryRun, !noVault && available, r.value, store.entries)
    ensures r.Ok? ==> forall i | 0 <= i < |inputs| ::
              ValueOf(inputs[i], values) != "" || inputs[i].required || inputs[i].auth ==> inputs[i].name in r.value
    ensures r.Err? ==> !dryRun && !noVault && available && exists i | 0 <= i < |inputs| ::
              inputs[i].secret && ValueOf(inputs[i], values) != ""
                  && Explains(r.error, store.entries, VarKey(inputs[i].name), ValueOf(inputs[i], values), saves(i))
  {
    var resolved: map<string, string> := map[];
    var disabled := noVault;
    for n := 0 to |inputs|
      invariant Extends(old(store.entries), store.entries) && (dryRun ==> store.entries == old(store.entries))
      invariant AddsNoReserved(old(store.entries), store.entries)
      invariant AddsSecrets(old(store.entries), store.entries, RoutedValues(inputs, values))
      invariant (disabled ==> noVault || !available) && (noVault ==> disabled)
      invariant AllRouted(inputs, n, values, dryRun, !noVault && available, resolved, store.entries)
    {
      ghost var before, entries := resolved, store.entries;
      if NeedsStore(inputs[n], values, dryRun) && !disabled && !available { disabled := true; }
      var text := RouteOne(inputs[n], values, store, dryRun, !disabled && available, saves(n));
      ghost var mine := if inputs[n].secret then {ValueOf(inputs[n], values)} else {};
      AddsSecretsMore(old(store.entries), entries, store.entries, RoutedValues(inputs, values), mine);
      assert RoutedValues(inputs, values) + mine == RoutedValues(inputs, values);
      if text.Err? { return Err(text.error); }
      if text.value.Some? { resolved := resolved[inputs[n].name := text.value.value]; }
      OneMoreRouted(inputs, n, values, dryRun, !noVault && available, before, resolved, entries, store.entries);
    }
    return Ok(resolved);
  }

  /** A stored input expands to its value, unless the store held a reserved key before and its key is not free. */
  lemma RoutedSecretsResolve(i: Input, values: map<string, string>, text: string, first: Entries, entries: Entries,
                             env: map<string, string>)
    requires Routed(i, values, false, true, text, entries) && i.secret && ValueOf(i, values) != ""
    requires AddsNoReserved(first, entries)
    ensures var result := Resolve(text, entries, env);
            && (result.Some? ==> result.value == ValueOf(i, values))
            && (IsFree(VarKey(i.name)) || (forall k <- first :: !IsInternal(k)) ==> result == Some(ValueOf(i, values)))
            && (result.None? <==> exists n: nat | IsReserved(VarKey(i.name), n) ::
                  Candidate(VarKey(i.name), n) in first && text == Reference(Candidate(VarKey(i.name), n)))
  {
    VarKeyIsName(i.name);
    HeldResolves(first, entries, VarKey(i.name), ValueOf(i, values), text, env);
  }
}
