/** What a change of a client's scope does to the servers the client reaches, as the preview reports it. */
module ScopeImpact {
  import opened Base

  /** The elements of a list that are not in the other. */
  function Missing(list: seq<string>, other: seq<string>): seq<string> {
    if list == [] then []
    else Missing(list[..|list| - 1], other) + if list[|list| - 1] in other then [] else [list[|list| - 1]]
  }

  /** The elements of a list as a set. */
  function Members(list: seq<string>): set<string> {
    set x | x in list
  }

  lemma {:induction false} MissingLaws(list: seq<string>, other: seq<string>)
    ensures Distinct(list) ==> Distinct(Missing(list, other))
    ensures Members(Missing(list, other)) == Members(list) - Members(other)
  {
    if list != [] {
      var most, last := list[..|list| - 1], list[|list| - 1];
      MissingLaws(most, other);
      assert list == most + [last];
      assert Members(list) == Members(most) + {last};
      assert Distinct(list) ==> Distinct(most) && last !in Members(most);
      if last !in other { assert Members(Missing(list, other)) == Members(Missing(most, other)) + {last}; }
      AsMembers(Missing(most, other));
    }
  }

  lemma {:induction false} MembersCount(list: seq<string>)
    requires Distinct(list)
    ensures |Members(list)| == |list|
  {
    if list != [] {
      var most, last := list[..|list| - 1], list[|list| - 1];
      MembersCount(most);
      assert list == most + [last] && Members(list) == Members(most) + {last} && last !in Members(most);
    }
  }

  datatype Impact = Impact(before: nat, after: nat, lost: seq<string>, gained: seq<string>)

  method MissingFrom(list: seq<string>, other: seq<string>) returns (missing: seq<string>)
    ensures missing == Missing(list, other)
  {
    missing := [];
    for i := 0 to |list|
      invariant missing == Missing(list[..i], other)
    {
      assert list[..i + 1][..i] == list[..i] && list[..i + 1][i] == list[i];
      if list[i] !in other { missing := missing + [list[i]]; }
    }
    assert list[..|list|] == list;
  }

  /**
   Lost and gained have nothing in common; for lists without repetition they account for the difference of the counts.
   */
  method ImpactFromScopes(before: seq<string>, after: seq<string>) returns (r: Impact)
    ensures r.before == |before| && r.after == |after|
    ensures Distinct(before) && Distinct(after) ==> r.after == r.before - |r.lost| + |r.gained|
    ensures forall s :: s in r.lost <==> s in before && s !in after
    ensures forall s :: s in r.gained <==> s in after && s !in before
    ensures forall s | s in r.lost :: s !in r.gained
  {
    var lost := MissingFrom(before, after);
    var gained := MissingFrom(after, before);
    Accounted(before, after);
    r := Impact(|before|, |after|, lost, gained);
  }

  lemma Accounted(before: seq<string>, after: seq<string>)
    ensures Distinct(before) && Distinct(after) ==>
            |after| == |before| - |Missing(before, after)| + |Missing(after, before)|
    ensures forall s :: s in Missing(before, after) <==> s in before && s !in after
    ensures forall s :: s in Missing(after, before) <==> s in after && s !in before
  {
    MissingLaws(before, after);
    MissingLaws(after, before);
    AsMembers(Missing(before, after));
    AsMembers(Missing(after, before));
    if Distinct(before) && Distinct(after) {
      MembersCount(before);
      MembersCount(after);
      MembersCount(Missing(before, after));
      MembersCount(Missing(after, before));
      SetsDiffer(Members(before), Members(after));
    }
  }

  lemma SetsDiffer(b: set<string>, a: set<string>)
    ensures |a| == |b| - |b - a| + |a - b|
  {
    assert (b - a) + (b * a) == b && (a - b) + (b * a) == a;
    assert |b - a| + |b * a| == |b| && |a - b| + |b * a| == |a|;
  }

  lemma AsMembers(list: seq<string>)
    ensures forall s :: s in list <==> s in Members(list)
  {
  }
}
