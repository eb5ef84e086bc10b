/** Which variables a run gets: all of them, named ones, or the members of named sets. */
module Selection {
  import opened Base
  import opened Text
  import opened Variables

  datatype SelectError = SetNotFound(name: string) | KeysNotFound(keys: set<string>)

  /** The keys asked for, trimmed; blank ones are ignored. */
  function WantedKeys(only: seq<string>): set<string> {
    set k | k in only && TrimSpace(k) != "" :: TrimSpace(k)
  }

  predicate Chosen(v: Variable, everything: bool, wanted: set<string>, groups: set<string>) {
    everything || v.key in wanted || v.group in groups
  }

  /** The chosen variables in order, without the reserved ones. */
  function Picked(vars: seq<Variable>, everything: bool, wanted: set<string>, groups: set<string>): seq<Variable> {
    if vars == [] then []
    else
      var v := vars[|vars| - 1];
      Picked(vars[..|vars| - 1], everything, wanted, groups) + if Chosen(v, everything, wanted, groups)
          && !IsInternal(v.key) then [v] else []
  }

  ghost predicate DistinctKeys(vars: seq<Variable>) {
    forall i, j | 0 <= i < j < |vars| :: vars[i].key != vars[j].key
  }

  ghost predicate HasKey(vars: seq<Variable>, key: string) {
    exists i | 0 <= i < |vars| :: vars[i].key == key
  }

  ghost predicate HasMember(vars: seq<Variable>, group: string) {
    exists i | 0 <= i < |vars| :: vars[i].group == group
  }

  /** The loop's sets after a prefix of the variables. */
  ghost predicate Seen(vars: seq<Variable>, wanted: set<string>, groups: set<string>, left: set<string>,
                       found: set<string>) {
    && (forall key :: key in left <==> key in wanted && !HasKey(vars, key))
    && (forall group :: group in found <==> group in groups && HasMember(vars, group))
  }

  lemma HasOneMore(vars: seq<Variable>, i: nat, key: string, group: string)
    requires i < |vars|
    ensures HasKey(vars[..i + 1], key) <==> HasKey(vars[..i], key) || vars[i].key == key
    ensures HasMember(vars[..i + 1], group) <==> HasMember(vars[..i], group) || vars[i].group == group
  {
    var before, after := vars[..i], vars[..i + 1];
    assert after == before + [vars[i]] && after[i] == vars[i];
    assert forall j | 0 <= j < i :: after[j] == before[j];
  }

  lemma SeenOneMore(vars: seq<Variable>, i: nat, everything: bool, wanted: set<string>, groups: set<string>,
                    left: set<string>, found: set<string>)
    requires i < |vars| && Seen(vars[..i], wanted, groups, left, found)
    ensures var v := vars[i];
            Seen(vars[..i + 1], wanted, groups,
                 if everything || v.key in left || v.group in groups then left - {v.key} else left,
                 if v.group in groups then found + {v.group} else found)
  {
    forall key ensures HasKey(vars[..i + 1], key) <==> HasKey(vars[..i], key) || vars[i].key == key {
      HasOneMore(vars, i, key, "");
    }
    forall group ensures HasMember(vars[..i + 1], group) <==> HasMember(vars[..i], group) || vars[i].group == group {
      HasOneMore(vars, i, "", group);
    }
  }

  /** With distinct keys, shrinking the wanted set as it goes does not change what is chosen. */
  lemma StillWanted(vars: seq<Variable>, i: nat, wanted: set<string>, groups: set<string>, left: set<string>,
                    found: set<string>)
    requires i < |vars| && DistinctKeys(vars) && Seen(vars[..i], wanted, groups, left, found)
    ensures vars[i].key in left <==> vars[i].key in wanted
  {
    assert forall j | 0 <= j < i :: vars[..i][j].key != vars[i].key;
  }

  /** The selection loop. */
  method SelectRunVariables(vars: seq<Variable>, everything: bool, only: seq<string>, sets: seq<string>)
    returns (r: Result<seq<Variable>, SelectError>)
    requires DistinctKeys(vars)
    ensures var wanted, groups := WantedKeys(only), set g | g in sets;
            && (r.Ok? ==> r.value == Picked(vars, everything, wanted, groups))
            && (r.Ok? <==>
                  (forall g | g in groups :: HasMember(vars, g)) && (forall k | k in wanted :: HasKey(vars, k)))
            && (r.Err? && r.error.SetNotFound? ==> r.error.name in groups && !HasMember(vars, r.error.name))
            && (r.Err? && r.error.KeysNotFound? ==>
                  r.error.keys != {} && forall k :: k in r.error.keys <==> k in wanted && !HasKey(vars, k))
  {
    var wanted, groups := WantedKeys(only), set g | g in sets;
    var left, found: set<string>, selected: seq<Variable> := wanted, {}, [];
    assert vars[..0] == [];
    for i := 0 to |vars|
      invariant Seen(vars[..i], wanted, groups, left, found)
      invariant selected == Picked(vars[..i], everything, wanted, groups)
    {
      var v := vars[i];
      StillWanted(vars, i, wanted, groups, left, found);
      SeenOneMore(vars, i, everything, wanted, groups, left, found);
      assert vars[..i + 1][..i] == vars[..i] && vars[..i + 1][i] == v;
      if v.group in groups { found := found + {v.group}; }
      if everything || v.key in left || v.group in groups {
        if !IsInternal(v.key) { selected := selected + [v]; }
        left := left - {v.key};
      }
    }
    assert vars[..|vars|] == vars;
    for i := 0 to |sets|
      invariant forall j | 0 <= j < i :: sets[j] in found
    {
      if sets[i] !in found { return Err(SetNotFound(sets[i])); }
    }
    if left != {} { return Err(KeysNotFound(left)); }
    return Ok(selected);
  }

  /** The picked variables are exactly the chosen ones that are not reserved. */
  lemma {:induction false} PickedAre(vars: seq<Variable>, everything: bool, wanted: set<string>, groups: set<string>)
    ensures forall v ::
              v in Picked(vars, everything, wanted, groups)
              <==> v in vars && (everything || v.key in wanted || v.group in groups) && !IsInternal(v.key)
  {
    if vars != [] {
      PickedAre(vars[..|vars| - 1], everything, wanted, groups);
      assert vars == vars[..|vars| - 1] + [vars[|vars| - 1]];
    }
  }

  /** They come in the order of the list, as often as they are there. */
  lemma {:induction false} PickedInOrder(a: seq<Variable>, b: seq<Variable>, everything: bool, wanted: set<string>,
                                         groups: set<string>)
    ensures Picked(a + b, everything, wanted, groups)
            == Picked(a, everything, wanted, groups) + Picked(b, everything, wanted, groups)
    decreases |b|
  {
    if b == [] {
      assert a + b == a;
    } else {
      assert (a + b)[..|a + b| - 1] == a + b[..|b| - 1];
      PickedInOrder(a, b[..|b| - 1], everything, wanted, groups);
    }
  }

  /** Keys are wanted without the blanks around them, and blank ones not at all. */
  lemma WantedAre(only: seq<string>, l: string, key: string, r: string)
    requires IsBlank(l) && IsBlank(r) && IsSolid(key)
    ensures l + key + r in only ==> key in WantedKeys(only)
    ensures WantedKeys([l + key + r]) == {key} && WantedKeys([l]) == {}
  {
    TrimText(l, key, r);
    assert TrimSpace(l + key + r) == key && TrimSpace(l) == "";
    assert l + key + r in [l + key + r] && l in [l];
  }
}
