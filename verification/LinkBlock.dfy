/**
 The `link:` block of a stack file: the clients the stack declares as linked, and the edits that
 declare a client or take its declaration away.
 */
module LinkBlock {
  import opened Base
  import opened ScopePatch

  datatype Entry = Entry(client: string, group: string, clientId: string, name: string)

  datatype LinkError = NoClient | NotADocument | NotASequence | NoLinkBlock | NotDeclared

  const LINK := "link"

  /** The name of the entry a link writes into the client's own configuration. */
  function EffectiveName(e: Entry): string {
    if e.name != "" then e.name else if e.group != "" then "gridctl-" + e.group else "gridctl"
  }

  function Plain(n: Node): string {
    if n.Scalar? then n.value else ""
  }

  /** An item declares a client by its text or by a `client` field. */
  predicate Matches(item: Node, client: string) {
    match item
    case Scalar(_, value) => value == client
    case Mapping(_, pairs) =>
      exists j | 0 <= j < |pairs| :: Text(pairs[j].key) == "client" && Plain(pairs[j].value) == client
    case _ => false
  }

  function Index(items: seq<Node>, client: string): (i: nat)
    ensures i <= |items|
    ensures i < |items| ==> Matches(items[i], client)
    ensures forall j | 0 <= j < i :: !Matches(items[j], client)
  {
    IndexFrom(items, client, 0)
  }

  function IndexFrom(items: seq<Node>, client: string, k: nat): (i: nat)
    requires k <= |items|
    ensures k <= i <= |items|
    ensures i < |items| ==> Matches(items[i], client)
    ensures forall j | k <= j < i :: !Matches(items[j], client)
    decreases |items| - k
  {
    if k == |items| || Matches(items[k], client) then k else IndexFrom(items, client, k + 1)
  }

  /** How many items declare the client. */
  function Declarations(items: seq<Node>, client: string): nat {
    if items == [] then 0 else (if Matches(items[0], client) then 1 else 0) + Declarations(items[1..], client)
  }

  function Field(key: string, value: string): seq<Pair> {
    if value == "" then [] else [Pair(Scalar(STR, key), Scalar(STR, value))]
  }

  /** The node written for an entry: the bare client when there is nothing else to say. */
  function ItemOf(e: Entry): Node {
    if e.group == "" && e.clientId == "" && e.name == "" then Scalar(STR, e.client)
    else
      var client, group := Field("client", e.client), Field("group", e.group);
      Mapping(MAP, client + group + Field("client_id", e.clientId) + Field("name", e.name))
  }

  /** The items of the block, when it is a sequence, empty or missing. */
  function Items(pairs: seq<Pair>): Option<seq<Node>> {
    match Lookup(pairs, LINK)
    case None => Some([])
    case Some(n) => if n.Sequence? then Some(n.items) else if n.Scalar? && n.tag == NULL then Some([]) else None
  }

  function PutItems(pairs: seq<Pair>, items: seq<Node>): seq<Pair> {
    var i := Find(pairs, LINK);
    if i < |pairs| then
      var was := pairs[i].value;
      pairs[i := pairs[i].(value := Sequence(if was.Sequence? then was.tag else SEQ, items))]
    else
      pairs + [Pair(Scalar(STR, LINK), Sequence(SEQ, items))]
  }

  function DropBlock(pairs: seq<Pair>): seq<Pair> {
    var i := Find(pairs, LINK);
    if i < |pairs| then pairs[..i] + pairs[i + 1..] else pairs
  }

  function UpsertItem(items: seq<Node>, e: Entry): seq<Node> {
    var i := Index(items, e.client);
    if i < |items| then items[i := ItemOf(e)] else items + [ItemOf(e)]
  }

  /** Declares the client, in place of its first declaration or at the end. */
  function Upsert(root: Node, e: Entry): Result<Node, LinkError> {
    if e.client == "" then Err(NoClient)
    else if !root.Mapping? then Err(NotADocument)
    else if Items(root.pairs).None? then Err(NotASequence)
    else Ok(root.(pairs := PutItems(root.pairs, UpsertItem(Items(root.pairs).value, e))))
  }

  /** Takes the first declaration away, and the block with the last one. */
  function Remove(root: Node, client: string): Result<Node, LinkError> {
    if !root.Mapping? then Err(NotADocument)
    else
      var block := Lookup(root.pairs, LINK);
      if block.None? || !block.value.Sequence? then Err(NoLinkBlock)
      else
        var items := block.value.items;
        var i := Index(items, client);
        if i == |items| then Err(NotDeclared)
        else
          var left := items[..i] + items[i + 1..];
          Ok(root.(pairs := if left == [] then DropBlock(root.pairs) else PutItems(root.pairs, left)))
  }

  /***** Reading the block back *****/

  function DecodeText(n: Node): Option<string> {
    if n.Scalar? then Some(if n.tag == NULL then "" else n.value) else None
  }

  function DecodeField(pairs: seq<Pair>, key: string): Option<string> {
    match Lookup(pairs, key)
    case None => Some("")
    case Some(n) => DecodeText(n)
  }

  predicate UniqueKeys(pairs: seq<Pair>) {
    forall i, j | 0 <= i < j < |pairs| :: Text(pairs[i].key) != Text(pairs[j].key)
  }

  function DecodeItem(item: Node): Option<Entry> {
    match item
    case Scalar(_, _) => Some(Entry(DecodeText(item).value, "", "", ""))
    case Mapping(_, pairs) =>
      var client, group := DecodeField(pairs, "client"), DecodeField(pairs, "group");
      var clientId, name := DecodeField(pairs, "client_id"), DecodeField(pairs, "name");
      if UniqueKeys(pairs) && client.Some? && group.Some? && clientId.Some? && name.Some? then
        Some(Entry(client.value, group.value, clientId.value, name.value))
      else None
    case _ => None
  }

  predicate ItemsDecode(items: seq<Node>) {
    forall i | 0 <= i < |items| :: DecodeItem(items[i]).Some?
  }

  /** How the rest of the stack file decodes: whether it does, and which groups it then declares. */
  datatype Rest = Rest(decodes: seq<Pair> -> bool, groups: seq<Pair> -> set<string>)

  /** The file decodes as a stack: the other keys do, and there is one well-formed block or none. */
  predicate Decodes(rest: Rest, root: Node) {
    && root.Mapping?
    && Count(root.pairs, LINK) <= 1
    && rest.decodes(Others(root.pairs, {LINK}))
    && Items(root.pairs).Some? && ItemsDecode(Items(root.pairs).value)
  }

  predicate DeclaresGroup(rest: Rest, root: Node, group: string) {
    Decodes(rest, root) && group in rest.groups(Others(root.pairs, {LINK}))
  }

  /** The first decoded entry of the client. */
  function FirstEntry(items: seq<Node>, client: string): Option<Entry>
    requires ItemsDecode(items)
  {
    if items == [] then None
    else if DecodeItem(items[0]).value.client == client then DecodeItem(items[0])
    else FirstEntry(items[1..], client)
  }

  function Declared(rest: Rest, root: Node, client: string): Option<Entry> {
    if Decodes(rest, root) then FirstEntry(Items(root.pairs).value, client) else None
  }

  /** The search loop of `declaredEntryFromBytes`. */
  method DeclaredEntry(rest: Rest, root: Node, client: string) returns (e: Option<Entry>)
    ensures e == Declared(rest, root, client)
    ensures e.Some? ==> e.value.client == client
  {
    if !Decodes(rest, root) { return None; }
    var items := Items(root.pairs).value;
    for i := 0 to |items|
      invariant FirstEntry(items, client) == FirstEntry(items[i..], client)
    {
      assert items[i..][0] == items[i] && items[i..][1..] == items[i + 1..];
      if DecodeItem(items[i]).value.client == client { return DecodeItem(items[i]); }
    }
    return None;
  }

  /***** Laws *****/

  /** A decoded client always shows in the item the edits look at. */
  lemma DecodedMatches(item: Node, client: string)
    requires client != "" && DecodeItem(item).Some? && DecodeItem(item).value.client == client
    ensures Matches(item, client)
  {
    if item.Mapping? {
      var j := Find(item.pairs, "client");
      assert Text(item.pairs[j].key) == "client" && Plain(item.pairs[j].value) == client;
    }
  }

  /** The pairs decode to the given fields, an empty text standing for a missing field. */
  ghost predicate Reads(pairs: seq<Pair>, fields: map<string, string>) {
    && UniqueKeys(pairs)
    && (forall i | 0 <= i < |pairs| :: Text(pairs[i].key) in fields)
    && forall key | key in fields :: DecodeField(pairs, key) == Some(fields[key])
  }

  lemma UniqueAppended(pairs: seq<Pair>, p: Pair)
    requires UniqueKeys(pairs) && forall i | 0 <= i < |pairs| :: Text(pairs[i].key) != Text(p.key)
    ensures UniqueKeys(pairs + [p])
  {
  }

  /** A further field is read back and hides no other. */
  lemma AddField(pairs: seq<Pair>, fields: map<string, string>, key: string, value: string)
    requires Reads(pairs, fields) && key !in fields
    ensures Reads(pairs + Field(key, value), fields[key := value])
  {
    FindIsFirst(pairs, key, |pairs|);
    if value == "" {
      assert pairs + Field(key, value) == pairs;
      assert DecodeField(pairs, key) == Some("");
    } else {
      AddPair(pairs, fields, key, value);
    }
  }

  lemma AddPair(pairs: seq<Pair>, fields: map<string, string>, key: string, value: string)
    requires Reads(pairs, fields) && key !in fields && Find(pairs, key) == |pairs|
    ensures Reads(pairs + [Pair(Scalar(STR, key), Scalar(STR, value))], fields[key := value])
  {
    var more := pairs + [Pair(Scalar(STR, key), Scalar(STR, value))];
    AppendedPair(pairs, key, Scalar(STR, value), {key});
    UniqueAppended(pairs, Pair(Scalar(STR, key), Scalar(STR, value)));
    assert forall k | k in fields :: DecodeField(more, k) == DecodeField(pairs, k);
    assert forall i | 0 <= i < |more| :: Text(more[i].key) in fields[key := value];
  }

  lemma FourFields(k: seq<string>, v: seq<string>)
    requires |k| == |v| == 4 && Distinct(k)
    ensures var pairs := Field(k[0], v[0]) + Field(k[1], v[1]) + Field(k[2], v[2]) + Field(k[3], v[3]);
            && UniqueKeys(pairs) && DecodeField(pairs, k[0]) == Some(v[0]) && DecodeField(pairs, k[1]) == Some(v[1])
            && DecodeField(pairs, k[2]) == Some(v[2]) && DecodeField(pairs, k[3]) == Some(v[3])
  {
    var fields := TwoFields(k, v);
    var two := Field(k[0], v[0]) + Field(k[1], v[1]);
    AddField(two, fields, k[2], v[2]);
    AddField(two + Field(k[2], v[2]), fields[k[2] := v[2]], k[3], v[3]);
  }

  lemma TwoFields(k: seq<string>, v: seq<string>) returns (fields: map<string, string>)
    requires |k| == |v| == 4 && Distinct(k)
    ensures Reads(Field(k[0], v[0]) + Field(k[1], v[1]), fields) && fields.Keys == {k[0], k[1]}
    ensures fields[k[0]] == v[0] && fields[k[1]] == v[1]
  {
    var none: seq<Pair> := [];
    var first := map[k[0] := v[0]];
    AddField(none, map[], k[0], v[0]);
    assert none + Field(k[0], v[0]) == Field(k[0], v[0]) && map[][k[0] := v[0]] == first;
    AddField(Field(k[0], v[0]), first, k[1], v[1]);
    fields := first[k[1] := v[1]];
  }

  /** What is written for an entry reads back as the entry. */
  lemma ItemReadsBack(e: Entry)
    requires e.client != ""
    ensures DecodeItem(ItemOf(e)) == Some(e) && Matches(ItemOf(e), e.client)
  {
    if !ItemOf(e).Scalar? {
      var keys := ["client", "group", "client_id", "name"];
      assert |"client"| == 6 && |"group"| == 5 && |"client_id"| == 9 && |"name"| == 4;
      FourFields(keys, [e.client, e.group, e.clientId, e.name]);
      DecodedMatches(ItemOf(e), e.client);
    }
  }

  /** The short form, and the long form with its fields in order. */
  lemma ItemIsWritten(e: Entry)
    ensures e.group == "" && e.clientId == "" && e.name == "" ==> ItemOf(e) == Scalar("!!str", e.client)
    ensures e.client != "" && e.group != "" && e.clientId != "" && e.name != "" ==>
              ItemOf(e) == Mapping("!!map", [
                Pair(Scalar("!!str", "client"), Scalar("!!str", e.client)),
                Pair(Scalar("!!str", "group"), Scalar("!!str", e.group)),
                Pair(Scalar("!!str", "client_id"), Scalar("!!str", e.clientId)),
                Pair(Scalar("!!str", "name"), Scalar("!!str", e.name))])
  {
  }

  /** A null value decodes as an empty one, whatever its text. */
  lemma NullIsEmpty(client: string, text: string)
    ensures DecodeItem(Scalar("!!null", text)) == Some(Entry("", "", "", ""))
    ensures var key, name := Scalar("!!str", "client"), Scalar("!!str", "name");
            DecodeItem(Mapping("!!map", [Pair(key, Scalar("!!str", client)), Pair(name, Scalar("!!null", text))]))
            == Some(Entry(client, "", "", ""))
  {
    var pairs := [Pair(Scalar("!!str", "client"), Scalar("!!str", client)),
        Pair(Scalar("!!str", "name"), Scalar("!!null", text))];
    assert |"client"| == 6 && |"group"| == 5 && |"client_id"| == 9 && |"name"| == 4;
    FindIsFirst(pairs, "client", 0);
    FindIsFirst(pairs, "name", 1);
    FindIsFirst(pairs, "group", 2);
    FindIsFirst(pairs, "client_id", 2);
  }

  lemma {:induction false} FirstEntryIs(items: seq<Node>, i: nat, e: Entry)
    requires ItemsDecode(items) && e.client != ""
    requires i < |items| && DecodeItem(items[i]) == Some(e)
    requires forall j | 0 <= j < i :: !Matches(items[j], e.client)
    ensures FirstEntry(items, e.client) == Some(e)
  {
    if i > 0 {
      if DecodeItem(items[0]).value.client == e.client { DecodedMatches(items[0], e.client); }
      FirstEntryIs(items[1..], i - 1, e);
    }
  }

  lemma {:induction false} DeclarationsConcat(a: seq<Node>, b: seq<Node>, client: string)
    ensures Declarations(a + b, client) == Declarations(a, client) + Declarations(b, client)
  {
    if a == [] {
      assert a + b == b;
    } else {
      DeclarationsConcat(a[1..], b, client);
      assert (a + b)[1..] == a[1..] + b;
    }
  }

  lemma {:induction false} NoDeclarations(items: seq<Node>, client: string)
    ensures Declarations(items, client) == 0 <==> Index(items, client) == |items|
  {
    if items != [] { NoDeclarations(items[1..], client); }
  }

  /** Declarations around the first match. */
  lemma AroundFirst(items: seq<Node>, client: string, n: Node)
    requires Index(items, client) < |items|
    ensures var i := Index(items, client);
            && items[i := n] == items[..i] + [n] + items[i + 1..]
            && Declarations(items[..i] + items[i + 1..], client) == Declarations(items, client) - 1
            && Declarations(items[i := n], client)
               == Declarations(items, client) - (if Matches(n, client) then 0 else 1)
  {
    var i := Index(items, client);
    assert items == items[..i] + [items[i]] + items[i + 1..];
    assert items[i := n] == items[..i] + [n] + items[i + 1..];
    DeclarationsConcat(items[..i] + [items[i]], items[i + 1..], client);
    DeclarationsConcat(items[..i], [items[i]], client);
    DeclarationsConcat(items[..i] + [n], items[i + 1..], client);
    DeclarationsConcat(items[..i], [n], client);
    DeclarationsConcat(items[..i], items[i + 1..], client);
  }

  lemma FirstIs(items: seq<Node>, client: string, i: nat)
    requires i < |items| && Matches(items[i], client)
    requires forall j | 0 <= j < i :: !Matches(items[j], client)
    ensures Index(items, client) == i
  {
  }

  /** Declaring a client replaces its first declaration, or adds one. */
  lemma UpsertItemLaws(items: seq<Node>, e: Entry)
    requires e.client != ""
    ensures var out := UpsertItem(items, e);
            var i := Index(items, e.client);
            && Index(out, e.client) == i < |out| && out[i] == ItemOf(e)
            && Declarations(out, e.client) == (if i < |items| then Declarations(items, e.client) else 1)
            && (i < |items| ==> out[..i] + out[i + 1..] == items[..i] + items[i + 1..])
            && (i == |items| ==> out[..i] + out[i + 1..] == items)
  {
    var out, i := UpsertItem(items, e), Index(items, e.client);
    ItemReadsBack(e);
    FirstIs(out, e.client, i);
    if i < |items| {
      AroundFirst(items, e.client, ItemOf(e));
    } else {
      NoDeclarations(items, e.client);
      DeclarationsConcat(items, [ItemOf(e)], e.client);
    }
  }

  lemma UpsertItemDecodes(items: seq<Node>, e: Entry)
    requires e.client != ""
    ensures var out := UpsertItem(items, e);
            && (ItemsDecode(items) ==> ItemsDecode(out))
            && (ItemsDecode(out) ==> FirstEntry(out, e.client) == Some(e))
  {
    var out, i := UpsertItem(items, e), Index(items, e.client);
    ItemReadsBack(e);
    if ItemsDecode(out) { FirstEntryIs(out, i, e); }
  }

  lemma PutItemsLaws(pairs: seq<Pair>, items: seq<Node>)
    ensures var out := PutItems(pairs, items);
            && Lookup(out, LINK).Some? && Lookup(out, LINK).value.Sequence? && Lookup(out, LINK).value.items == items
            && Others(out, {LINK}) == Others(pairs, {LINK})
            && Count(out, LINK) == (if Find(pairs, LINK) < |pairs| then Count(pairs, LINK) else 1)
  {
    var i := Find(pairs, LINK);
    CountZero(pairs, LINK);
    if i < |pairs| {
      var was := pairs[i].value;
      ReplacedValue(pairs, i, Sequence(if was.Sequence? then was.tag else SEQ, items), {LINK});
    } else {
      AppendedPair(pairs, LINK, Sequence(SEQ, items), {LINK});
    }
  }

  lemma PutItemsTwice(pairs: seq<Pair>, items: seq<Node>, more: seq<Node>)
    ensures PutItems(PutItems(pairs, items), more) == PutItems(pairs, more)
  {
    FindIsFirst(PutItems(pairs, items), LINK, Find(pairs, LINK));
  }

  lemma DropBlockLaws(pairs: seq<Pair>)
    requires Find(pairs, LINK) < |pairs|
    ensures Others(DropBlock(pairs), {LINK}) == Others(pairs, {LINK})
    ensures Count(DropBlock(pairs), LINK) == Count(pairs, LINK) - 1
  {
    RemovedFirst(pairs, LINK, DropBlock(pairs));
  }

  lemma DropReplaced(pairs: seq<Pair>, items: seq<Node>)
    requires Find(pairs, LINK) < |pairs|
    ensures DropBlock(PutItems(pairs, items)) == DropBlock(pairs)
  {
    var i := Find(pairs, LINK);
    var now := PutItems(pairs, items);
    WithoutReplaced(pairs, LINK, now[i].value);
    assert now == pairs[i := pairs[i].(value := now[i].value)];
    assert DropBlock(now) == now[..i] + now[i + 1..];
  }

  lemma WithoutReplaced(pairs: seq<Pair>, key: string, value: Node)
    requires Find(pairs, key) < |pairs|
    ensures var i := Find(pairs, key); var now := pairs[i := pairs[i].(value := value)];
            Find(now, key) == i && now[..i] + now[i + 1..] == pairs[..i] + pairs[i + 1..]
  {
    var i := Find(pairs, key);
    var now := pairs[i := pairs[i].(value := value)];
    FindIsFirst(now, key, i);
    assert now[..i] == pairs[..i] && now[i + 1..] == pairs[i + 1..];
  }

  /** How often the client is declared in the file, repeated blocks included. */
  function AllDeclarations(pairs: seq<Pair>, client: string): nat {
    if pairs == [] then 0 else InPair(pairs[0], client) + AllDeclarations(pairs[1..], client)
  }

  function InPair(p: Pair, client: string): nat {
    if Text(p.key) == LINK && p.value.Sequence? then Declarations(p.value.items, client) else 0
  }

  lemma {:induction false} AllConcat(a: seq<Pair>, b: seq<Pair>, client: string)
    ensures AllDeclarations(a + b, client) == AllDeclarations(a, client) + AllDeclarations(b, client)
  {
    if a == [] {
      assert a + b == b;
    } else {
      AllConcat(a[1..], b, client);
      assert (a + b)[1..] == a[1..] + b;
    }
  }

  lemma AllSplit(pairs: seq<Pair>, i: nat, client: string)
    requires i < |pairs|
    ensures AllDeclarations(pairs, client)
            == AllDeclarations(pairs[..i] + pairs[i + 1..], client) + InPair(pairs[i], client)
  {
    AllConcat(pairs[..i] + [pairs[i]], pairs[i + 1..], client);
    AllConcat(pairs[..i], [pairs[i]], client);
    AllConcat(pairs[..i], pairs[i + 1..], client);
    assert pairs == pairs[..i] + [pairs[i]] + pairs[i + 1..];
  }

  /** The blocks other than the first keep their declarations. */
  lemma AllAfterPut(pairs: seq<Pair>, items: seq<Node>, client: string)
    requires Items(pairs).Some?
    ensures AllDeclarations(PutItems(pairs, items), client) ==
            AllDeclarations(pairs, client) - Declarations(Items(pairs).value, client) + Declarations(items, client)
    ensures AllDeclarations(DropBlock(pairs), client)
            == AllDeclarations(pairs, client) - Declarations(Items(pairs).value, client)
  {
    var i, out := Find(pairs, LINK), PutItems(pairs, items);
    if i < |pairs| {
      AllSplit(pairs, i, client);
      AllSplit(out, i, client);
      assert out[..i] == pairs[..i] && out[i + 1..] == pairs[i + 1..];
    } else {
      AllConcat(pairs, [out[i]], client);
      assert out == pairs + [out[i]];
    }
  }

  /** A declared client is read back as declared, whatever else the block holds. */
  lemma UpsertDeclares(rest: Rest, root: Node, e: Entry)
    requires Upsert(root, e).Ok?
    ensures var u := Upsert(root, e).value;
            && u.Mapping? && u.tag == root.tag && Others(u.pairs, {LINK}) == Others(root.pairs, {LINK})
            && (Decodes(rest, root) ==> Decodes(rest, u))
            && (Decodes(rest, u) ==> Declared(rest, u, e.client) == Some(e))
  {
    PutItemsLaws(root.pairs, UpsertItem(Items(root.pairs).value, e));
    UpsertItemDecodes(Items(root.pairs).value, e);
  }

  /** The declarations left after declaring a client and taking the declaration away. */
  function Left(items: seq<Node>, client: string): seq<Node> {
    var i := Index(items, client);
    if i < |items| then items[..i] + items[i + 1..] else items
  }

  /** The top-level pairs without the first declaration of the client. */
  function Undeclared(pairs: seq<Pair>, client: string): seq<Pair>
    requires Items(pairs).Some?
  {
    var left := Left(Items(pairs).value, client);
    if left == [] then DropBlock(pairs) else PutItems(pairs, left)
  }

  /** Only the first declaration goes: everything else in the file stays, further declarations too. */
  lemma UndeclaredLaws(pairs: seq<Pair>, client: string)
    requires Items(pairs).Some?
    ensures Others(Undeclared(pairs, client), {LINK}) == Others(pairs, {LINK})
    ensures AllDeclarations(Undeclared(pairs, client), client) ==
            AllDeclarations(pairs, client) - (if Declarations(Items(pairs).value, client) > 0 then 1 else 0)
  {
    UndeclaredOthers(pairs, client);
    UndeclaredCount(pairs, client);
  }

  lemma UndeclaredOthers(pairs: seq<Pair>, client: string)
    requires Items(pairs).Some?
    ensures Others(Undeclared(pairs, client), {LINK}) == Others(pairs, {LINK})
  {
    var left := Left(Items(pairs).value, client);
    DropAfterPut(pairs, left);
    PutItemsLaws(pairs, left);
  }

  lemma UndeclaredCount(pairs: seq<Pair>, client: string)
    requires Items(pairs).Some?
    ensures AllDeclarations(Undeclared(pairs, client), client) ==
            AllDeclarations(pairs, client) - (if Declarations(Items(pairs).value, client) > 0 then 1 else 0)
  {
    var items := Items(pairs).value;
    LeftCount(items, client);
    AllAfterPut(pairs, Left(items, client), client);
  }

  lemma LeftCount(items: seq<Node>, client: string)
    ensures Declarations(Left(items, client), client)
            == Declarations(items, client) - (if Declarations(items, client) > 0 then 1 else 0)
  {
    NoDeclarations(items, client);
    if Index(items, client) < |items| { AroundFirst(items, client, items[0]); }
  }

  /**
   Taking a declaration away right after making it always works and leaves what was there before, without a declaration
   it replaced.
   */
  lemma RemoveAfterUpsert(root: Node, e: Entry)
    requires Upsert(root, e).Ok?
    ensures Remove(Upsert(root, e).value, e.client) == Ok(root.(pairs := Undeclared(root.pairs, e.client)))
  {
    var pairs, items := root.pairs, Items(root.pairs).value;
    var more, left := UpsertItem(items, e), Left(items, e.client);
    UpsertThenLeft(items, e);
    RemoveOfPut(root, more, e.client);
    PutThenUndeclare(pairs, more, left);
  }

  lemma PutThenUndeclare(pairs: seq<Pair>, items: seq<Node>, left: seq<Node>)
    ensures PutItems(PutItems(pairs, items), left) == PutItems(pairs, left)
    ensures DropBlock(PutItems(pairs, items)) == DropBlock(pairs)
  {
    PutItemsTwice(pairs, items, left);
    DropAfterPut(pairs, items);
  }

  /** Removing from a block that was just written. */
  lemma RemoveOfPut(root: Node, items: seq<Node>, client: string)
    requires root.Mapping? && Index(items, client) < |items|
    ensures var put, i := PutItems(root.pairs, items), Index(items, client);
            var left := items[..i] + items[i + 1..];
            Remove(root.(pairs := put), client)
                == Ok(root.(pairs := if left == [] then DropBlock(put) else PutItems(put, left)))
  {
    PutItemsLaws(root.pairs, items);
  }

  lemma UpsertThenLeft(items: seq<Node>, e: Entry)
    requires e.client != ""
    ensures var more, i := UpsertItem(items, e), Index(items, e.client);
            Index(more, e.client) == i < |more| && more[..i] + more[i + 1..] == Left(items, e.client)
  {
    UpsertItemLaws(items, e);
  }

  lemma DropAfterPut(pairs: seq<Pair>, items: seq<Node>)
    ensures DropBlock(PutItems(pairs, items)) == DropBlock(pairs)
    ensures Others(DropBlock(pairs), {LINK}) == Others(pairs, {LINK})
  {
    var i := Find(pairs, LINK);
    if i < |pairs| {
      DropBlockLaws(pairs);
      DropReplaced(pairs, items);
    } else {
      AppendedPair(pairs, LINK, Sequence(SEQ, items), {LINK});
    }
  }

  /** A client that was not declared: its file comes back as it was, except that an empty block is dropped. */
  lemma UndeclaredRestores(pairs: seq<Pair>, client: string)
    requires Items(pairs).Some? && AllDeclarations(pairs, client) == 0
    ensures Undeclared(pairs, client) == if Items(pairs).value == [] then DropBlock(pairs) else pairs
  {
    var items := Items(pairs).value;
    AllAfterPut(pairs, items, client);
    NoDeclarations(items, client);
    if items != [] { assert PutItems(pairs, items) == pairs; }
  }

  /***** Which item is a client's, and when the edits work *****/

  /** An item that is written as the client, or holds a plain field `client` that is. */
  ghost predicate IsWrittenAs(item: Node, client: string) {
    || (item.Scalar? && item.value == client)
    || (item.Mapping? && exists j, tag | 0 <= j < |item.pairs| ::
          Text(item.pairs[j].key) == "client" && item.pairs[j].value == Scalar(tag, client))
  }

  lemma MatchesWritten(item: Node, client: string)
    requires client != ""
    ensures Matches(item, client) <==> IsWrittenAs(item, client)
  {
    if item.Mapping? && Matches(item, client) {
      var j :| 0 <= j < |item.pairs| && Text(item.pairs[j].key) == "client" && Plain(item.pairs[j].value) == client;
      assert item.pairs[j].value == Scalar(item.pairs[j].value.tag, client);
    }
  }

  /** The block as the file has it. */
  function Block(root: Node): Option<Node> {
    if root.Mapping? then Lookup(root.pairs, "link") else None
  }

  /** Declaring works exactly for a client on a mapping whose block is missing, null or a sequence. */
  lemma UpsertSucceeds(root: Node, e: Entry)
    ensures Upsert(root, e).Ok? <==>
              && e.client != "" && root.Mapping?
              && (Block(root).None? || Block(root).value.Sequence?
                  || (Block(root).value.Scalar? && Block(root).value.tag == "!!null"))
    ensures Upsert(root, e).Err? ==>
              Upsert(root, e).error ==
              if e.client == "" then NoClient else if !root.Mapping? then NotADocument else NotASequence
  {
  }

  /** The new item takes the place of the first that is written as the client, or comes last. */
  lemma UpsertPlaces(root: Node, e: Entry, i: nat)
    requires Upsert(root, e).Ok?
    requires var items := if Block(root).Some? && Block(root).value.Sequence? then Block(root).value.items else [];
             && i <= |items| && (i < |items| ==> IsWrittenAs(items[i], e.client))
             && forall j | 0 <= j < i :: !IsWrittenAs(items[j], e.client)
    ensures var items := if Block(root).Some? && Block(root).value.Sequence? then Block(root).value.items else [];
            var now := Block(Upsert(root, e).value);
            && now.Some? && now.value.Sequence?
            && now.value.items == (if i < |items| then items[i := ItemOf(e)] else items + [ItemOf(e)])
  {
    var items := Items(root.pairs).value;
    forall j | 0 <= j < |items| ensures Matches(items[j], e.client) <==> IsWrittenAs(items[j], e.client) {
      MatchesWritten(items[j], e.client);
    }
    if i < |items| { FirstIs(items, e.client, i); }
    PutItemsLaws(root.pairs, UpsertItem(items, e));
  }

  /** Removing works exactly on a sequence with an item written as the client, and says what is missing. */
  lemma RemoveSucceeds(root: Node, client: string)
    requires client != ""
    ensures Remove(root, client).Ok? <==>
              && Block(root).Some? && Block(root).value.Sequence?
              && exists i | 0 <= i < |Block(root).value.items| :: IsWrittenAs(Block(root).value.items[i], client)
    ensures Remove(root, client).Err? ==>
              Remove(root, client).error ==
              if !root.Mapping? then NotADocument
              else if Block(root).None? || !Block(root).value.Sequence? then NoLinkBlock
              else NotDeclared
  {
    if Block(root).Some? && Block(root).value.Sequence? {
      var items := Block(root).value.items;
      forall j | 0 <= j < |items| ensures Matches(items[j], client) <==> IsWrittenAs(items[j], client) {
        MatchesWritten(items[j], client);
      }
    }
  }

  /***** The other clients *****/

  /** A decoded item the edits take for a client's declares no other client. */
  lemma MatchedIsTheirs(item: Node, client: string)
    requires client != "" && Matches(item, client) && DecodeItem(item).Some?
    ensures DecodeItem(item).value.client == client || DecodeItem(item).value.client == ""
  {
    if item.Mapping? {
      var j :| 0 <= j < |item.pairs| && Text(item.pairs[j].key) == "client" && Plain(item.pairs[j].value) == client;
      assert Find(item.pairs, "client") == j;
    }
  }

  lemma {:induction false} FirstEntryConcat(a: seq<Node>, b: seq<Node>, client: string)
    requires ItemsDecode(a) && ItemsDecode(b)
    ensures ItemsDecode(a + b)
    ensures FirstEntry(a + b, client)
            == if FirstEntry(a, client).Some? then FirstEntry(a, client) else FirstEntry(b, client)
  {
    assert forall i | 0 <= i < |a + b| :: (a + b)[i] == if i < |a| then a[i] else b[i - |a|];
    if a == [] {
      assert a + b == b;
    } else {
      assert (a + b)[0] == a[0] && (a + b)[1..] == a[1..] + b;
      FirstEntryConcat(a[1..], b, client);
    }
  }

  /** An item that declares somebody else can come or go without a client's entry changing. */
  lemma EntryBeside(a: seq<Node>, item: Node, b: seq<Node>, client: string)
    requires ItemsDecode(a) && ItemsDecode(b) && DecodeItem(item).Some? && DecodeItem(item).value.client != client
    ensures ItemsDecode(a + [item] + b) && ItemsDecode(a + b)
    ensures FirstEntry(a + [item] + b, client) == FirstEntry(a + b, client)
  {
    FirstEntryConcat(a, [item], client);
    FirstEntryConcat(a + [item], b, client);
    FirstEntryConcat(a, b, client);
    assert [item][1..] == [];
  }

  lemma SplitItems(items: seq<Node>, i: nat)
    requires i < |items| && ItemsDecode(items)
    ensures items == items[..i] + [items[i]] + items[i + 1..] && ItemsDecode(items[..i]) && ItemsDecode(items[i + 1..])
  {
  }

  lemma ReplacedBeside(items: seq<Node>, i: nat, item: Node, client: string)
    requires i < |items| && ItemsDecode(items) && DecodeItem(items[i]).value.client != client
    requires DecodeItem(item).Some? && DecodeItem(item).value.client != client
    ensures ItemsDecode(items[i := item]) && FirstEntry(items[i := item], client) == FirstEntry(items, client)
  {
    var a, b := items[..i], items[i + 1..];
    SplitItems(items, i);
    EntryBeside(a, items[i], b, client);
    EntryBeside(a, item, b, client);
    assert items[i := item] == a + [item] + b;
  }

  lemma AddedBeside(items: seq<Node>, item: Node, client: string)
    requires ItemsDecode(items) && DecodeItem(item).Some? && DecodeItem(item).value.client != client
    ensures ItemsDecode(items + [item]) && FirstEntry(items + [item], client) == FirstEntry(items, client)
  {
    EntryBeside(items, item, [], client);
    assert items + [item] + [] == items + [item] && items + [] == items;
  }

  /** Replacing or adding a client's item keeps the entries of all others. */
  lemma UpsertItemOthers(items: seq<Node>, e: Entry, other: string)
    requires e.client != "" && ItemsDecode(items) && other != "" && other != e.client
    ensures ItemsDecode(UpsertItem(items, e)) && FirstEntry(UpsertItem(items, e), other) == FirstEntry(items, other)
  {
    var i := Index(items, e.client);
    ItemReadsBack(e);
    if i < |items| {
      MatchedIsTheirs(items[i], e.client);
      ReplacedBeside(items, i, ItemOf(e), other);
    } else {
      AddedBeside(items, ItemOf(e), other);
    }
  }

  /** Taking a client's item away does too. */
  lemma LeftOthers(items: seq<Node>, client: string, other: string)
    requires client != "" && ItemsDecode(items) && other != "" && other != client
    ensures ItemsDecode(Left(items, client)) && FirstEntry(Left(items, client), other) == FirstEntry(items, other)
  {
    var i := Index(items, client);
    if i < |items| {
      SplitItems(items, i);
      MatchedIsTheirs(items[i], client);
      EntryBeside(items[..i], items[i], items[i + 1..], other);
    }
  }

  /** Declaring a client leaves every other client declared as it was. */
  lemma UpsertKeepsOthers(rest: Rest, root: Node, e: Entry, other: string)
    requires Upsert(root, e).Ok? && Decodes(rest, root) && other != "" && other != e.client
    ensures var u := Upsert(root, e).value; Decodes(rest, u) && Declared(rest, u, other) == Declared(rest, root, other)
  {
    UpsertDeclares(rest, root, e);
    PutItemsLaws(root.pairs, UpsertItem(Items(root.pairs).value, e));
    UpsertItemOthers(Items(root.pairs).value, e, other);
  }

  lemma DroppedBlock(pairs: seq<Pair>)
    requires Count(pairs, LINK) <= 1
    ensures Items(DropBlock(pairs)) == Some([]) && Count(DropBlock(pairs), LINK) == 0
  {
    CountZero(pairs, LINK);
    if Find(pairs, LINK) < |pairs| { DropBlockLaws(pairs); }
    CountZero(DropBlock(pairs), LINK);
  }

  /** The file without a client's first declaration: every other client is declared as it was. */
  lemma UndeclaredKeepsOthers(rest: Rest, root: Node, client: string, other: string)
    requires Decodes(rest, root) && client != "" && other != "" && other != client
    ensures var v := root.(pairs := Undeclared(root.pairs, client));
            Decodes(rest, v) && Declared(rest, v, other) == Declared(rest, root, other)
  {
    var items := Items(root.pairs).value;
    var left := Left(items, client);
    LeftOthers(items, client, other);
    UndeclaredOthers(root.pairs, client);
    DroppedBlock(root.pairs);
    PutItemsLaws(root.pairs, left);
    CountZero(root.pairs, LINK);
  }

  /** Removing a declaration leaves every other client declared as it was. */
  lemma RemoveKeepsOthers(rest: Rest, root: Node, client: string, other: string)
    requires Remove(root, client).Ok? && Decodes(rest, root) && client != "" && other != "" && other != client
    ensures var v := Remove(root, client).value;
            Decodes(rest, v) && Declared(rest, v, other) == Declared(rest, root, other)
  {
    UndeclaredKeepsOthers(rest, root, client, other);
    RemoveUndeclares(root, client);
  }

  lemma RemoveUndeclares(root: Node, client: string)
    requires Remove(root, client).Ok?
    ensures root.Mapping? && Items(root.pairs).Some?
    ensures Remove(root, client).value == root.(pairs := Undeclared(root.pairs, client))
  {
  }

  lemma RemoveDecodes(rest: Rest, root: Node, client: string)
    requires Remove(root, client).Ok? && Decodes(rest, root) && client != ""
    ensures Decodes(rest, Remove(root, client).value)
  {
    RemoveKeepsOthers(rest, root, client, client + client);
  }

  /** The entry name: a given name wins, then the group's, then the plain one. */
  lemma EntryNames(client: string, group: string, clientId: string, name: string)
    ensures name != "" ==> EffectiveName(Entry(client, group, clientId, name)) == name
    ensures group != "" ==> EffectiveName(Entry(client, group, clientId, "")) == "gridctl-" + group
    ensures EffectiveName(Entry(client, "", clientId, "")) == "gridctl"
  {
  }
}
