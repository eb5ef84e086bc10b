/**
 The edit of `ScopePatch` done the way the program does it: on nodes in memory whose content,
 kind and tag are changed in place, with loops that step over keys and values.
 */
module YamlEdit {
  import opened Base
  import P = ScopePatch

  datatype Kind = ScalarNode | SequenceNode | MappingNode | AliasNode

  /** A node as the YAML library builds it: a mapping's content alternates keys and values. */
  class YamlNode {
    var kind: Kind
    var tag: string
    var value: string
    var content: seq<YamlNode>
    ghost var repr: set<YamlNode>  // the nodes of this subtree (and perhaps nodes dropped from it)
    ghost var tree: P.Node         // the YAML tree this subtree stands for

    /** A tree without shared nodes, whose `tree` is up to date. */
    ghost predicate Valid()
      reads this, repr
      decreases repr
    {
      && this in repr
      && (kind == MappingNode ==> |content| % 2 == 0)
      && (kind == ScalarNode || kind == AliasNode ==> content == [])
      && (kind == MappingNode || kind == SequenceNode ==> value == "")
      && (forall c | c in content :: c in repr && c.repr <= repr && this !in c.repr && c.Valid())
      && Apart(content)
      && tree == TreeOf()
    }

    ghost function TreeOf(): P.Node
      reads this, content
    {
      match kind
      case ScalarNode => P.Scalar(tag, value)
      case AliasNode => P.Alias(value)
      case SequenceNode => P.Sequence(tag, Trees(content))
      case MappingNode => P.Mapping(tag, PairUp(Trees(content)))
    }

    constructor (kind: Kind, tag: string, value: string)
      requires kind == MappingNode || kind == SequenceNode ==> value == ""
      ensures Valid() && repr == {this}
      ensures this.kind == kind && this.tag == tag && this.value == value && content == []
    {
      this.kind, this.tag, this.value, this.content := kind, tag, value, [];
      repr := {this};
      tree := match kind
        case ScalarNode => P.Scalar(tag, value)
        case AliasNode => P.Alias(value)
        case SequenceNode => P.Sequence(tag, [])
        case MappingNode => P.Mapping(tag, []);
    }
  }

  ghost predicate Apart(nodes: seq<YamlNode>)
    reads nodes
  {
    forall i, j | 0 <= i < j < |nodes| :: nodes[i].repr !! nodes[j].repr
  }

  ghost function Trees(nodes: seq<YamlNode>): seq<P.Node>
    reads nodes
  {
    seq(|nodes|, i reads nodes requires 0 <= i < |nodes| => nodes[i].tree)
  }

  ghost function PairUp(trees: seq<P.Node>): seq<P.Pair> {
    seq(|trees| / 2, i requires 0 <= i < |trees| / 2 => P.Pair(trees[2 * i], trees[2 * i + 1]))
  }

  lemma PairUpAppended(trees: seq<P.Node>, key: P.Node, value: P.Node)
    requires |trees| % 2 == 0
    ensures PairUp(trees + [key, value]) == PairUp(trees) + [P.Pair(key, value)]
  {
  }

  lemma PairUpRemoved(trees: seq<P.Node>, k: nat)
    requires |trees| % 2 == 0 && 2 * k + 1 < |trees|
    ensures PairUp(trees[..2 * k] + trees[2 * k + 2..]) == PairUp(trees)[..k] + PairUp(trees)[k + 1..]
  {
    var less := trees[..2 * k] + trees[2 * k + 2..];
    assert forall i | 0 <= i < |less| :: less[i] == trees[if i < 2 * k then i else i + 2];
  }

  lemma PairUpEdited(trees: seq<P.Node>, k: nat, value: P.Node)
    requires |trees| % 2 == 0 && 2 * k + 1 < |trees|
    ensures PairUp(trees[2 * k + 1 := value]) == PairUp(trees)[k := PairUp(trees)[k].(value := value)]
  {
  }

  /** A mapping node ready to be edited. */
  ghost predicate Editable(mapping: YamlNode)
    reads mapping, mapping.repr
  {
    mapping.Valid() && mapping.kind == MappingNode
  }

  /** What the loops over a mapping's content see. */
  lemma ContentAlternates(mapping: YamlNode)
    requires Editable(mapping)
    ensures mapping.tree.Mapping? && |mapping.content| == 2 * |mapping.tree.pairs|
    ensures forall i | 0 <= i < |mapping.tree.pairs| ::
              && mapping.content[2 * i].value == P.Text(mapping.tree.pairs[i].key)
              && mapping.content[2 * i + 1].tree == mapping.tree.pairs[i].value
  {
    forall i | 0 <= i < |mapping.tree.pairs| ensures mapping.content[2 * i].value == P.Text(mapping.tree.pairs[i].key) {
      assert mapping.content[2 * i].Valid();
    }
  }

  /** Position of the first key that matches, or the content's length; the loop the searches below share. */
  method FindKey(mapping: YamlNode, key: string) returns (at: nat)
    requires Editable(mapping)
    ensures mapping.tree.Mapping? && at == 2 * P.Find(mapping.tree.pairs, key)
    ensures at < |mapping.content| <==> P.Find(mapping.tree.pairs, key) < |mapping.tree.pairs|
    ensures at < |mapping.content| ==> at + 1 < |mapping.content|
  {
    ContentAlternates(mapping);
    ghost var pairs := mapping.tree.pairs;
    at := 0;
    ghost var k := 0;
    while at + 1 < |mapping.content|
      invariant at == 2 * k && k <= |pairs|
      invariant forall j | 0 <= j < k :: P.Text(pairs[j].key) != key
    {
      if mapping.content[at].value == key {
        break;
      }
      at, k := at + 2, k + 1;
    }
    P.FindIsFirst(pairs, key, k);
  }

  lemma ApartAppended(nodes: seq<YamlNode>, node: YamlNode)
    requires Apart(nodes) && forall c | c in nodes :: c.repr !! node.repr
    ensures Apart(nodes + [node])
  {
  }

  /** Adds a node of another tree at the end of a sequence. */
  method AppendItem(node: YamlNode, item: YamlNode)
    requires node.Valid() && node.kind == SequenceNode
    requires item.Valid() && item.repr !! node.repr
    modifies node
    ensures node.Valid() && node.content == old(node.content) + [item]
    ensures node.kind == old(node.kind) && node.tag == old(node.tag)
    ensures node.repr == old(node.repr) + item.repr
  {
    ApartAppended(node.content, item);
    node.content := node.content + [item];
    node.repr := node.repr + item.repr;
    node.tree := node.TreeOf();
  }

  /** Fresh string scalars in a fresh sequence: `toolsSequenceNode`. */
  method ToolsSequenceNode(values: seq<string>) returns (node: YamlNode)
    ensures node.Valid() && fresh(node.repr) && node.tree == P.Strings(values)
  {
    node := new YamlNode(SequenceNode, P.SEQ, "");
    assert node.tree == P.Strings(values[..0]);
    for i := 0 to |values|
      invariant fresh(node) && fresh(node.repr) && node.Valid() && node.kind == SequenceNode && node.tag == P.SEQ
      invariant node.tree == P.Strings(values[..i])
    {
      StringsOneMore(values, i);
      AppendString(node, values[i]);
    }
    assert values[..|values|] == values;
  }

  lemma StringsOneMore(values: seq<string>, i: nat)
    requires i < |values|
    ensures P.Strings(values[..i + 1]) == P.Sequence(P.SEQ, P.Strings(values[..i]).items + [P.Scalar(P.STR, values[i])])
  {
  }

  /** Adds a string to a sequence. */
  method AppendString(node: YamlNode, value: string)
    requires node.Valid() && node.kind == SequenceNode
    modifies node
    ensures node.Valid() && node.kind == old(node.kind) && node.tag == old(node.tag)
            && fresh(node.repr - old(node.repr))
    ensures node.tree == P.Sequence(node.tag, old(Trees(node.content)) + [P.Scalar(P.STR, value)])
  {
    var item := new YamlNode(ScalarNode, P.STR, value);
    ghost var trees := Trees(node.content);
    AppendItem(node, item);
    assert Trees(node.content) == trees + [item.tree];
  }

  /** Adds a key and a value at the end of a mapping. */
  method AppendPair(mapping: YamlNode, name: YamlNode, node: YamlNode)
    requires Editable(mapping) && name.Valid() && node.Valid()
    requires node.repr !! mapping.repr && name.repr !! mapping.repr && name.repr !! node.repr
    modifies mapping
    ensures Editable(mapping) && mapping.tag == old(mapping.tag)
    ensures mapping.content == old(mapping.content) + [name, node]
    ensures mapping.repr == old(mapping.repr) + name.repr + node.repr
    ensures mapping.tree.pairs == old(mapping.tree.pairs) + [P.Pair(name.tree, node.tree)]
  {
    PartsAppended(mapping.content, name, node);
    PairUpAppended(Trees(mapping.content), name.tree, node.tree);
    SetContent(mapping, mapping.content + [name, node], name.repr + node.repr);
  }

  lemma PartsAppended(nodes: seq<YamlNode>, name: YamlNode, node: YamlNode)
    requires Apart(nodes) && name.repr !! node.repr
    requires forall c | c in nodes :: c.repr !! name.repr && c.repr !! node.repr
    ensures var all := nodes + [name, node];
            && Apart(all) && Trees(all) == Trees(nodes) + [name.tree, node.tree]
            && forall c | c in all :: c in nodes || c == name || c == node
  {
    ApartAppended(nodes, name);
    ApartAppended(nodes + [name], node);
    assert nodes + [name] + [node] == nodes + [name, node];
  }

  /**
   Gives a mapping its new parts, the nodes of which it owned or takes over, and brings its bookkeeping up to date.
   */
  method SetContent(mapping: YamlNode, content: seq<YamlNode>, ghost more: set<YamlNode>)
    requires mapping in mapping.repr && mapping.kind == MappingNode && mapping.value == ""
    requires |content| % 2 == 0 && Apart(content)
    requires forall c | c in content ::
        c.Valid() && mapping !in c.repr && c in mapping.repr + more && c.repr <= mapping.repr + more
    modifies mapping
    ensures Editable(mapping) && mapping.tag == old(mapping.tag) && mapping.content == content
    ensures mapping.repr == old(mapping.repr) + more && mapping.tree.pairs == PairUp(old(Trees(content)))
  {
    assert mapping !in content;
    mapping.content := content;
    mapping.repr := mapping.repr + more;
    assert Trees(content) == old(Trees(content));
    mapping.tree := mapping.TreeOf();
  }

  method AppendNamed(mapping: YamlNode, key: string, node: YamlNode)
    requires Editable(mapping) && node.Valid() && node.repr !! mapping.repr
    modifies mapping
    ensures Editable(mapping) && mapping.tag == old(mapping.tag)
    ensures node.Valid() && node.tree == old(node.tree) && node.kind == old(node.kind)
    ensures node.repr <= mapping.repr && fresh(mapping.repr - old(mapping.repr) - node.repr)
    ensures |mapping.content| == |old(mapping.content)| + 2 && mapping.content[|old(mapping.content)| + 1] == node
    ensures mapping.tree.pairs == old(mapping.tree.pairs) + [P.Pair(P.Scalar(P.STR, key), node.tree)]
  {
    var name := new YamlNode(ScalarNode, P.STR, key);
    AppendPair(mapping, name, node);
  }

  lemma ApartRemoved(nodes: seq<YamlNode>, at: nat)
    requires Apart(nodes) && at + 1 < |nodes|
    ensures var less := nodes[..at] + nodes[at + 2..];
            Apart(less) && (forall c | c in less :: c in nodes)
                && Trees(less) == Trees(nodes)[..at] + Trees(nodes)[at + 2..]
  {
    var less := nodes[..at] + nodes[at + 2..];
    assert forall i | 0 <= i < |less| :: less[i] == nodes[if i < at then i else i + 2];
  }

  /** Takes out the pair whose key is at position `at`. */
  method RemovePair(mapping: YamlNode, at: nat, ghost k: nat)
    requires Editable(mapping) && at == 2 * k && at + 1 < |mapping.content|
    modifies mapping
    ensures Editable(mapping) && mapping.tag == old(mapping.tag) && mapping.repr == old(mapping.repr)
    ensures mapping.tree.pairs == old(mapping.tree.pairs)[..k] + old(mapping.tree.pairs)[k + 1..]
  {
    ApartRemoved(mapping.content, at);
    PairUpRemoved(Trees(mapping.content), k);
    SetContent(mapping, mapping.content[..at] + mapping.content[at + 2..], {});
  }

  lemma PartsReplaced(nodes: seq<YamlNode>, at: nat, node: YamlNode)
    requires Apart(nodes) && at < |nodes| && forall c | c in nodes :: c.repr !! node.repr
    ensures var all := nodes[at := node];
            Apart(all) && Trees(all) == Trees(nodes)[at := node.tree] && forall c | c in all :: c in nodes || c == node
  {
  }

  /** Puts a node of another tree in the place of a value. */
  method ReplaceValue(mapping: YamlNode, at: nat, ghost k: nat, node: YamlNode)
    requires Editable(mapping) && at == 2 * k && at + 1 < |mapping.content|
    requires node.Valid() && node.repr !! mapping.repr
    modifies mapping
    ensures Editable(mapping) && mapping.tag == old(mapping.tag) && mapping.repr == old(mapping.repr) + node.repr
    ensures mapping.tree.pairs == old(mapping.tree.pairs)[k := old(mapping.tree.pairs)[k].(value := node.tree)]
  {
    PairUpEdited(Trees(mapping.content), k, node.tree);
    PartsReplaced(mapping.content, at + 1, node);
    SetContent(mapping, mapping.content[at + 1 := node], node.repr);
  }

  /** Sets, replaces or drops the list under the key: `replaceOrInsertStringSeq`. */
  method ReplaceOrInsertStringSeq(mapping: YamlNode, key: string, values: seq<string>)
    requires Editable(mapping)
    modifies mapping
    ensures Editable(mapping) && mapping.tag == old(mapping.tag) && fresh(mapping.repr - old(mapping.repr))
    ensures mapping.tree.pairs == P.SetList(old(mapping.tree.pairs), key, values)
  {
    var at := FindKey(mapping, key);
    if at < |mapping.content| {
      if values == [] {
        RemoveList(mapping, key, at);
      } else {
        ReplaceList(mapping, key, at, values);
      }
    } else if values == [] {
      MissingList(mapping.tree.pairs, key, values);
    } else {
      AppendList(mapping, key, values);
    }
  }

  lemma FoundList(pairs: seq<P.Pair>, key: string, values: seq<string>)
    requires P.Find(pairs, key) < |pairs|
    ensures var k := P.Find(pairs, key);
            P.SetList(pairs, key, values) ==
            if values == [] then pairs[..k] + pairs[k + 1..] else pairs[k := pairs[k].(value := P.Strings(values))]
  {
  }

  lemma MissingList(pairs: seq<P.Pair>, key: string, values: seq<string>)
    requires P.Find(pairs, key) == |pairs|
    ensures P.SetList(pairs, key, values) ==
            if values == [] then pairs else pairs + [P.Pair(P.Scalar(P.STR, key), P.Strings(values))]
  {
  }

  /** Drops the pair with the key. */
  method RemoveList(mapping: YamlNode, key: string, at: nat)
    requires Editable(mapping) && at == 2 * P.Find(mapping.tree.pairs, key) && at + 1 < |mapping.content|
    modifies mapping
    ensures Editable(mapping) && mapping.tag == old(mapping.tag) && mapping.repr == old(mapping.repr)
    ensures mapping.tree.pairs == P.SetList(old(mapping.tree.pairs), key, [])
  {
    ContentAlternates(mapping);
    ghost var before, k := mapping.tree.pairs, P.Find(mapping.tree.pairs, key);
    RemovePair(mapping, at, k);
    FoundList(before, key, []);
  }

  /** Puts a list in the place of the value under the key. */
  method ReplaceList(mapping: YamlNode, key: string, at: nat, values: seq<string>)
    requires Editable(mapping) && at == 2 * P.Find(mapping.tree.pairs, key) && at + 1 < |mapping.content|
            && values != []
    modifies mapping
    ensures Editable(mapping) && mapping.tag == old(mapping.tag) && fresh(mapping.repr - old(mapping.repr))
    ensures mapping.tree.pairs == P.SetList(old(mapping.tree.pairs), key, values)
  {
    ContentAlternates(mapping);
    FoundList(mapping.tree.pairs, key, values);
    var node := ToolsSequenceNode(values);
    ReplaceValue(mapping, at, P.Find(mapping.tree.pairs, key), node);
  }

  /** Adds a list under a new last key. */
  method AppendList(mapping: YamlNode, key: string, values: seq<string>)
    requires Editable(mapping) && P.Find(mapping.tree.pairs, key) == |mapping.tree.pairs| && values != []
    modifies mapping
    ensures Editable(mapping) && mapping.tag == old(mapping.tag) && fresh(mapping.repr - old(mapping.repr))
    ensures mapping.tree.pairs == P.SetList(old(mapping.tree.pairs), key, values)
  {
    MissingList(mapping.tree.pairs, key, values);
    var node := ToolsSequenceNode(values);
    AppendNamed(mapping, key, node);
  }

  /** A mapping one of whose values was edited: all but its own bookkeeping is in order. */
  ghost predicate Stale(parent: YamlNode, child: YamlNode)
    reads parent, parent.content, set c, n | c in parent.content && n in c.repr :: n
  {
    && parent in parent.repr && parent.kind == MappingNode && parent.value == "" && |parent.content| % 2 == 0
    && (forall c | c in parent.content :: c.Valid() && parent !in c.repr)
    && (forall c | c in parent.content && c != child :: c in parent.repr && c.repr <= parent.repr)
    && Apart(parent.content)
  }

  ghost method Refresh(parent: YamlNode, child: YamlNode)
    requires Stale(parent, child) && child in parent.content
    modifies parent
    ensures Editable(parent) && parent.tag == old(parent.tag) && parent.content == old(parent.content)
    ensures parent.repr == old(parent.repr) + child.repr
    ensures parent.tree.pairs == PairUp(Trees(parent.content))
  {
    parent.repr := parent.repr + child.repr;
    parent.tree := parent.TreeOf();
  }

  /** Empties a scalar and makes it a mapping, in place. */
  method ScalarToMapping(node: YamlNode)
    requires node.Valid() && node.kind == ScalarNode
    modifies node
    ensures Editable(node) && node.repr == old(node.repr) && node.tree == P.Mapping(P.MAP, [])
  {
    node.kind, node.tag, node.value, node.content := MappingNode, P.MAP, "", [];
    node.tree := P.Mapping(P.MAP, []);
    assert Trees([]) == [];
  }

  /** In a valid mapping only one value owns a given value's nodes. */
  lemma OnlyOwner(parent: YamlNode, i: nat)
    requires parent.Valid() && i < |parent.content|
    ensures parent.content[i].Valid() && parent.content[i].repr <= parent.repr - {parent}
    ensures forall j | 0 <= j < |parent.content| && j != i ::
              parent.content[j] != parent.content[i] && parent.content[j].repr !! parent.content[i].repr
  {
    forall j | 0 <= j < |parent.content| && j != i ensures
        parent.content[j] != parent.content[i] && parent.content[j].repr !! parent.content[i].repr
    {
      assert parent.content[j].Valid() && parent.content[i].Valid();
    }
  }

  /** Turns a blank value into an empty mapping. */
  method MakeMapping(parent: YamlNode, ghost k: nat, child: YamlNode)
    requires Editable(parent) && 2 * k + 1 < |parent.content| && child == parent.content[2 * k + 1]
    requires child.kind == ScalarNode
    modifies parent, child
    ensures Editable(parent) && parent.tag == old(parent.tag) && parent.repr == old(parent.repr)
    ensures parent.content == old(parent.content)
    ensures Editable(child) && child.tree == P.Mapping(P.MAP, [])
    ensures parent.tree.pairs == old(parent.tree.pairs)[k := old(parent.tree.pairs)[k].(value := P.Mapping(P.MAP, []))]
  {
    ContentAlternates(parent);
    OnlyOwner(parent, 2 * k + 1);
    PairUpEdited(Trees(parent.content), k, P.Mapping(P.MAP, []));
    ScalarToMapping(child);
    Refresh(parent, child);
    assert Trees(parent.content) == old(Trees(parent.content))[2 * k + 1 := child.tree];
  }

  /** The value at `k` is a mapping ready to be edited, in a mapping that is. */
  ghost predicate HasChild(parent: YamlNode, k: nat, child: YamlNode) reads parent, parent.repr, child, child.repr {
    && Editable(parent) && 2 * k + 1 < |parent.content| && parent.content[2 * k + 1] == child
    && Editable(child) && child.tree.Mapping?
  }

  /** The value that is there: a mapping, a blank that becomes one, or something that cannot. */
  method UseExisting(parent: YamlNode, key: string, ghost k: nat, at: nat) returns (child: YamlNode?)
    requires Editable(parent) && k == P.Find(parent.tree.pairs, key) && at == 2 * k && at + 1 < |parent.content|
    modifies parent, parent.repr
    ensures child == null <==> P.Child(old(parent.tree.pairs), key).Err?
    ensures child != null ==>
              && HasChild(parent, k, child) && parent.tag == old(parent.tag) && parent.repr == old(parent.repr)
              && Ok(child.tree.pairs) == P.Child(old(parent.tree.pairs), key)
              && parent.tree.pairs == P.Put(old(parent.tree.pairs), key, child.tree.pairs)
  {
    ContentAlternates(parent);
    child := parent.content[at + 1];
    assert child.Valid() && P.Lookup(parent.tree.pairs, key) == Some(child.tree);
    ExistingChild(parent.tree.pairs, key);
    if child.kind == ScalarNode && (child.tag == P.NULL || child.value == "") {
      FillBlank(parent, key, k, child);
    } else if child.kind != MappingNode {
      child := null;
    }
  }

  /** Makes a blank value an empty mapping. */
  method FillBlank(parent: YamlNode, key: string, ghost k: nat, child: YamlNode)
    requires Editable(parent) && k == P.Find(parent.tree.pairs, key) && 2 * k + 1 < |parent.content|
    requires child == parent.content[2 * k + 1] && child.kind == ScalarNode && P.IsBlank(child.tree)
    modifies parent, child
    ensures HasChild(parent, k, child) && parent.tag == old(parent.tag) && parent.repr == old(parent.repr)
    ensures Ok(child.tree.pairs) == P.Child(old(parent.tree.pairs), key)
    ensures parent.tree.pairs == P.Put(old(parent.tree.pairs), key, child.tree.pairs)
  {
    ContentAlternates(parent);
    ExistingChild(parent.tree.pairs, key);
    MakeMapping(parent, k, child);
  }

  /** Putting back the mapping that is there changes nothing; putting an empty one in place of a blank replaces it. */
  lemma ExistingChild(pairs: seq<P.Pair>, key: string)
    requires P.Find(pairs, key) < |pairs|
    ensures var k := P.Find(pairs, key); var was := pairs[k].value;
            && P.Child(pairs, key) == (if was.Mapping? then Ok(was.pairs) else if P.IsBlank(was) then Ok([])
                else Err(P.NotAMapping(key)))
            && (was.Mapping? ==> P.Put(pairs, key, was.pairs) == pairs)
            && (P.IsBlank(was) ==> P.Put(pairs, key, []) == pairs[k := pairs[k].(value := P.Mapping(P.MAP, []))])
  {
  }

  /** The mapping under the key, made when missing or blank: `ensureChildMapping`. Null is its error. */
  method EnsureChildMapping(parent: YamlNode, key: string, ghost k: nat) returns (child: YamlNode?)
    requires Editable(parent) && k == P.Find(parent.tree.pairs, key)
    modifies parent, parent.repr
    ensures child != null <==> P.CanHold(P.Lookup(old(parent.tree.pairs), key))
    ensures child == null <==> P.Child(old(parent.tree.pairs), key).Err?
    ensures child != null ==>
              && HasChild(parent, k, child) && parent.tag == old(parent.tag) && fresh(parent.repr - old(parent.repr))
              && Ok(child.tree.pairs) == P.Child(old(parent.tree.pairs), key)
              && parent.tree.pairs == P.Put(old(parent.tree.pairs), key, child.tree.pairs)
  {
    P.ChildExists(parent.tree.pairs, key);
    var at := FindKey(parent, key);
    if at < |parent.content| {
      child := UseExisting(parent, key, k, at);
    } else {
      child := MakeChild(parent, key, k);
    }
  }

  /** A new empty mapping under a new last key. */
  method MakeChild(parent: YamlNode, key: string, ghost k: nat) returns (child: YamlNode)
    requires Editable(parent) && k == P.Find(parent.tree.pairs, key) == |parent.tree.pairs|
    modifies parent
    ensures HasChild(parent, k, child) && parent.tag == old(parent.tag) && fresh(parent.repr - old(parent.repr))
    ensures Ok(child.tree.pairs) == P.Child(old(parent.tree.pairs), key)
    ensures parent.tree.pairs == P.Put(old(parent.tree.pairs), key, child.tree.pairs)
  {
    ContentAlternates(parent);
    MissingChild(parent.tree.pairs, key);
    child := new YamlNode(MappingNode, P.MAP, "");
    assert child.tree == P.Mapping(P.MAP, []);
    AppendNamed(parent, key, child);
  }

  lemma MissingChild(pairs: seq<P.Pair>, key: string)
    requires P.Find(pairs, key) == |pairs|
    ensures P.Child(pairs, key) == Ok([])
    ensures P.Put(pairs, key, []) == pairs + [P.Pair(P.Scalar(P.STR, key), P.Mapping(P.MAP, []))]
  {
  }

  /** The pairs after the lists were set in the mapping that the path leads to. */
  function PatchPath(pairs: seq<P.Pair>, path: seq<string>, servers: Option<seq<string>>, tools: Option<seq<string>>):
    Result<seq<P.Pair>, P.Error>
    decreases |path|
  {
    if path == [] then Ok(P.SetProfile(pairs, servers, tools))
    else
      var child := P.Child(pairs, path[0]);
      if child.Err? then child else
      var inner := PatchPath(child.value, path[1..], servers, tools);
      if inner.Err? then inner else Ok(P.Put(pairs, path[0], inner.value))
  }

  lemma PathIsPatch(root: P.Node, profile: string, servers: Option<seq<string>>, tools: Option<seq<string>>)
    requires root.Mapping? && profile != "" && (servers.Some? || tools.Some?)
    ensures var spec := PatchPath(root.pairs, ["clients", "profiles", profile], servers, tools);
            P.Patch(root, profile, servers, tools) == if spec.Ok? then Ok(root.(pairs := spec.value))
                else Err(spec.error)
  {
    var path := ["clients", "profiles", profile];
    assert path[1..] == ["profiles", profile] && path[1..][1..] == [profile] && path[1..][1..][1..] == [];
    var clients := P.Child(root.pairs, "clients");
    if clients.Ok? {
      var profiles := P.Child(clients.value, "profiles");
      if profiles.Ok? {
        var p := P.Child(profiles.value, profile);
        assert PatchPath(profiles.value, path[1..][1..], servers, tools)
            == if p.Err? then p else Ok(P.Put(profiles.value, profile, P.SetProfile(p.value, servers, tools)));
      }
    }
  }

  lemma PathStep(pairs: seq<P.Pair>, path: seq<string>, servers: Option<seq<string>>, tools: Option<seq<string>>)
    requires path != [] && P.Child(pairs, path[0]).Ok?
    ensures var inner := PatchPath(P.Child(pairs, path[0]).value, path[1..], servers, tools);
            PatchPath(pairs, path, servers, tools) == if inner.Ok? then Ok(P.Put(pairs, path[0], inner.value))
                else inner
  {
  }

  ghost function Filled(pairs: seq<P.Pair>, k: nat, inner: seq<P.Pair>): seq<P.Pair>
    requires k < |pairs| && pairs[k].value.Mapping?
  {
    pairs[k := pairs[k].(value := pairs[k].value.(pairs := inner))]
  }

  /** Filling the mapping that `Put` made is the same as putting the filling there. */
  lemma MadeThenEdited(before: seq<P.Pair>, key: string, made: seq<P.Pair>, inner: seq<P.Pair>)
    ensures var k, mid := P.Find(before, key), P.Put(before, key, made);
            k < |mid| && mid[k].value.Mapping? && Filled(mid, k, inner) == P.Put(before, key, inner)
  {
  }

  /** Sets both lists of a profile. */
  method SetLists(profile: YamlNode, servers: Option<seq<string>>, tools: Option<seq<string>>)
    requires Editable(profile)
    modifies profile
    ensures Editable(profile) && profile.tag == old(profile.tag) && fresh(profile.repr - old(profile.repr))
    ensures profile.tree.pairs == P.SetProfile(old(profile.tree.pairs), servers, tools)
  {
    if servers.Some? { ReplaceOrInsertStringSeq(profile, "servers", servers.value); }
    if tools.Some? { ReplaceOrInsertStringSeq(profile, "tools", tools.value); }
  }

  /** Makes the mappings along the path and edits the last one. After an error the tree is thrown away. */
  method EditAt(node: YamlNode, path: seq<string>, servers: Option<seq<string>>, tools: Option<seq<string>>)
                returns (error: Option<P.Error>)
    requires Editable(node)
    modifies node, node.repr
    ensures var spec := PatchPath(old(node.tree.pairs), path, servers, tools);
            match error
            case Some(e) => spec == Err(e)
            case None =>
              && Editable(node) && node.tag == old(node.tag) && fresh(node.repr - old(node.repr))
              && spec == Ok(node.tree.pairs)
    decreases |path|, 0
  {
    if path == [] {
      SetLists(node, servers, tools);
      return None;
    }
    ghost var k := P.Find(node.tree.pairs, path[0]);
    ghost var before := node.tree.pairs;
    var child := EnsureChildMapping(node, path[0], k);
    if child == null {
      return Some(P.NotAMapping(path[0]));
    }
    ghost var made := child.tree.pairs;
    error := EditChild(node, k, child, path[1..], servers, tools);
    PathStep(before, path, servers, tools);
    if error.None? {
      MadeThenEdited(before, path[0], made, PatchPath(made, path[1..], servers, tools).value);
    }
  }

  /** Edits below one value of a mapping. */
  method EditChild(node: YamlNode, ghost k: nat, child: YamlNode, path: seq<string>, servers: Option<seq<string>>,
                   tools: Option<seq<string>>)
    returns (error: Option<P.Error>)
    requires Editable(node) && 2 * k + 1 < |node.content| && node.content[2 * k + 1] == child && Editable(child)
    modifies node, node.repr
    ensures var spec := PatchPath(old(child.tree.pairs), path, servers, tools);
            match error
            case Some(e) => spec == Err(e)
            case None =>
              && Editable(node) && node.tag == old(node.tag) && fresh(node.repr - old(node.repr))
              && spec.Ok? && k < |old(node.tree.pairs)| && old(node.tree.pairs)[k].value.Mapping?
              && node.tree.pairs == Filled(old(node.tree.pairs), k, spec.value)
    decreases |path|, 3
  {
    ContentAlternates(node);
    ghost var trees := Trees(node.content);
    error := EditBelow(node, k, child, path, servers, tools);
    if error.None? { Rejoin(node, k, child, trees); }
  }

  /** A mapping whose value at `k` was edited: its other parts are in order, and only its bookkeeping is not. */
  ghost predicate Joinable(node: YamlNode, k: nat, child: YamlNode, trees: seq<P.Node>)
    reads node, node.content, set c, n | c in node.content && n in c.repr :: n
  {
    && node in node.repr && node.kind == MappingNode && node.value == "" && |node.content| % 2 == 0
    && 2 * k + 1 < |node.content| && node.content[2 * k + 1] == child && child.Valid() && node !in child.repr
    && (forall i | 0 <= i < |node.content| && i != 2 * k + 1 ::
          && node.content[i].Valid() && node.content[i] in node.repr && node.content[i].repr <= node.repr
          && node !in node.content[i].repr && node.content[i].repr !! child.repr)
    && (forall i, j | 0 <= i < j < |node.content| && i != 2 * k + 1 && j != 2 * k + 1 ::
          node.content[i].repr !! node.content[j].repr)
    && |trees| == |node.content| && Trees(node.content) == trees[2 * k + 1 := child.tree]
  }

  /** Edits below one value of a mapping, without the mapping's bookkeeping. */
  method EditBelow(node: YamlNode, ghost k: nat, child: YamlNode, path: seq<string>,
                   servers: Option<seq<string>>, tools: Option<seq<string>>) returns (error: Option<P.Error>)
    requires Editable(node) && 2 * k + 1 < |node.content| && node.content[2 * k + 1] == child && Editable(child)
    modifies node.repr - {node}
    ensures var spec := PatchPath(old(child.tree.pairs), path, servers, tools);
            match error
            case Some(e) => spec == Err(e)
            case None =>
              && Joinable(node, k, child, old(Trees(node.content))) && fresh(child.repr - old(node.repr))
              && child.kind == MappingNode && child.tag == old(child.tag) && spec == Ok(child.tree.pairs)
    decreases |path|, 2
  {
    OnlyOwner(node, 2 * k + 1);
    ghost var content, trees := node.content, Trees(node.content);
    assert forall i | 0 <= i < |content| :: content[i] in content;
    error := EditBeside(child, content, 2 * k + 1, path, servers, tools);
    if error.None? { TreesEdited(content, 2 * k + 1, trees); }
  }

  lemma TreesEdited(nodes: seq<YamlNode>, at: nat, trees: seq<P.Node>)
    requires at < |nodes| == |trees| && forall i | 0 <= i < |nodes| && i != at :: nodes[i].tree == trees[i]
    ensures Trees(nodes) == trees[at := nodes[at].tree]
  {
  }

  /** Edits a tree; trees it shares no node with stay as they are. */
  method EditBeside(child: YamlNode, ghost others: seq<YamlNode>, ghost hole: nat, path: seq<string>,
                    servers: Option<seq<string>>, tools: Option<seq<string>>) returns (error: Option<P.Error>)
    requires Editable(child)
    requires forall i | 0 <= i < |others| && i != hole :: others[i].Valid() && others[i].repr !! child.repr
    modifies child, child.repr
    ensures forall i | 0 <= i < |others| && i != hole ::
              && others[i].Valid() && others[i].repr == old(others[i].repr) && others[i].tree == old(others[i].tree)
    ensures var spec := PatchPath(old(child.tree.pairs), path, servers, tools);
            match error
            case Some(e) => spec == Err(e)
            case None =>
              && Editable(child) && child.tag == old(child.tag) && fresh(child.repr - old(child.repr))
              && spec == Ok(child.tree.pairs)
              && forall i | 0 <= i < |others| && i != hole :: others[i].repr !! child.repr
    decreases |path|, 1
  {
    assert forall i | 0 <= i < |others| && i != hole :: others[i] in others[i].repr;
    error := EditAt(child, path, servers, tools);
  }

  /** Brings a mapping's bookkeeping up to date after an edit below its value at `k`. */
  ghost method Rejoin(node: YamlNode, k: nat, child: YamlNode, trees: seq<P.Node>)
    requires Joinable(node, k, child, trees)
    modifies node
    ensures Editable(node) && node.tag == old(node.tag) && node.content == old(node.content)
            && node.repr == old(node.repr) + child.repr
    ensures node.tree.pairs == PairUp(trees)[k := PairUp(trees)[k].(value := child.tree)]
  {
    PairUpEdited(trees, k, child.tree);
    assert Apart(node.content);
    Refresh(node, child);
  }

  /**
   `patchClientScope` on a parsed stack file. The result is what `ScopePatch.Patch` says, so everything
   proved of that function holds of the nodes in memory.
   */
  method PatchClientScope(doc: YamlNode, profile: string, servers: Option<seq<string>>, tools: Option<seq<string>>)
    returns (error: Option<P.Error>)
    requires doc.Valid()
    modifies doc, doc.repr
    ensures match P.Patch(old(doc.tree), profile, servers, tools)
            case Ok(tree) => error == None && doc.Valid() && doc.tree == tree
            case Err(e) => error == Some(e)
    ensures error.None? <==> P.CanPatch(old(doc.tree), profile, servers, tools)
  {
    P.PatchSucceeds(doc.tree, profile, servers, tools);
    if profile == "" { return Some(P.EmptyProfileKey); }
    if servers.None? && tools.None? { return Some(P.NothingToSet); }
    if doc.kind != MappingNode { return Some(P.TopLevelNotAMapping); }
    var path := ["clients", "profiles", profile];
    PathIsPatch(doc.tree, profile, servers, tools);
    error := EditAt(doc, path, servers, tools);
  }
}
