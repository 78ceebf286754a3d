/**
  The deterministic parts of the Storm hook: the qualified names it gives
  Kafka topics, HBase tables and HDFS paths, the owner it records for a
  topology, and the graph of spout and bolt nodes it builds, with each node's
  outputs and inputs wired from the topology's adjacency map.
 */
module StormAtlasHook {
  import opened Wrappers

  /** The owner recorded when a topology has none (Storm in unsecure mode). */
  const AnonymousOwner := "anonymous"

  // ---------------------------------------------------------------------
  // Qualified names

  /** String.toLowerCase on ASCII letters. */
  function ToLowerChar(c: char): char {
    if 'A' <= c <= 'Z' then (c as int + 32) as char else c
  }

  function ToLower(s: string): (r: string)
    ensures |r| == |s| && forall i | 0 <= i < |s| :: r[i] == ToLowerChar(s[i])
  {
    seq(|s|, i requires 0 <= i < |s| => ToLowerChar(s[i]))
  }

  /** Lower-casing twice is lower-casing once. */
  lemma ToLowerIdempotent(s: string)
    ensures ToLower(ToLower(s)) == ToLower(s)
  {
  }

  /** Lower-casing neither creates nor removes a character that is not a letter. */
  lemma ToLowerKeepsSeparator(s: string, sep: char)
    requires !('A' <= sep <= 'Z') && !('a' <= sep <= 'z')
    ensures sep in ToLower(s) <==> sep in s
  {
    if sep in s {
      var i :| 0 <= i < |s| && s[i] == sep;
      assert ToLower(s)[i] == sep;
    }
    if sep in ToLower(s) {
      var i :| 0 <= i < |s| && ToLower(s)[i] == sep;
      assert s[i] == sep;
    }
  }

  /** In a + [sep] + b with sep not in a, the first separator is at |a|. */
  lemma FirstSeparator(a: string, b: string, sep: char)
    requires sep !in a
    ensures (a + [sep] + b)[|a|] == sep
    ensures forall i | 0 <= i < |a| :: (a + [sep] + b)[i] != sep
  {
    forall i | 0 <= i < |a|
      ensures (a + [sep] + b)[i] != sep
    {
      assert (a + [sep] + b)[i] == a[i];
    }
  }

  /** Two strings joined at a separator neither left part contains are equal
      exactly when both parts are. */
  lemma {:induction false} SplitAtSeparator(a1: string, b1: string, a2: string, b2: string, sep: char)
    requires sep !in a1 && sep !in a2
    ensures a1 + [sep] + b1 == a2 + [sep] + b2 <==> a1 == a2 && b1 == b2
  {
    var s1, s2 := a1 + [sep] + b1, a2 + [sep] + b2;
    if s1 == s2 {
      FirstSeparator(a1, b1, sep);
      FirstSeparator(a2, b2, sep);
      assert |a1| == |a2|;
      assert a1 == s1[..|a1|] && a2 == s2[..|a2|];
      assert b1 == s1[|a1| + 1..] && b2 == s2[|a2| + 1..];
    }
  }

  /** topic@cluster, the topic lower-cased and the cluster as given. */
  function KafkaTopicQualifiedName(clusterName: string, topicName: string): (r: string)
    ensures |r| == |topicName| + 1 + |clusterName|
    ensures r[..|topicName|] == ToLower(topicName)
    ensures r[|topicName|] == '@' && r[|topicName| + 1..] == clusterName
  {
    ToLower(topicName) + "@" + clusterName
  }

  /** namespace.table@cluster, namespace and table lower-cased. */
  function HbaseTableQualifiedName(clusterName: string, nameSpace: string, tableName: string): (r: string)
    ensures |r| == |nameSpace| + 1 + |tableName| + 1 + |clusterName|
    ensures r[..|nameSpace|] == ToLower(nameSpace) && r[|nameSpace|] == '.'
    ensures r[|nameSpace| + 1..|nameSpace| + 1 + |tableName|] == ToLower(tableName)
    ensures r[|nameSpace| + 1 + |tableName|] == '@' && r[|nameSpace| + |tableName| + 2..] == clusterName
  {
    ToLower(nameSpace) + "." + ToLower(tableName) + "@" + clusterName
  }

  /** path@cluster, the path lower-cased. */
  function HdfsPathQualifiedName(clusterName: string, hdfsPath: string): (r: string)
    ensures |r| == |hdfsPath| + 1 + |clusterName|
    ensures r[..|hdfsPath|] == ToLower(hdfsPath)
    ensures r[|hdfsPath|] == '@' && r[|hdfsPath| + 1..] == clusterName
  {
    ToLower(hdfsPath) + "@" + clusterName
  }

  /** Kafka topic names cannot hold '@': two topics get the same qualified
      name exactly when they agree up to case and sit in the same cluster
      (the cluster name is compared with its case). */
  lemma KafkaTopicQualifiedNameInjective(c1: string, t1: string, c2: string, t2: string)
    requires '@' !in t1 && '@' !in t2
    ensures KafkaTopicQualifiedName(c1, t1) == KafkaTopicQualifiedName(c2, t2) <==> ToLower(t1) == ToLower(t2) && c1 == c2
  {
    ToLowerKeepsSeparator(t1, '@');
    ToLowerKeepsSeparator(t2, '@');
    SplitAtSeparator(ToLower(t1), c1, ToLower(t2), c2, '@');
  }

  /** The same for HDFS paths without '@'. */
  lemma HdfsPathQualifiedNameInjective(c1: string, p1: string, c2: string, p2: string)
    requires '@' !in p1 && '@' !in p2
    ensures HdfsPathQualifiedName(c1, p1) == HdfsPathQualifiedName(c2, p2) <==> ToLower(p1) == ToLower(p2) && c1 == c2
  {
    ToLowerKeepsSeparator(p1, '@');
    ToLowerKeepsSeparator(p2, '@');
    SplitAtSeparator(ToLower(p1), c1, ToLower(p2), c2, '@');
  }

  /** HBase namespaces hold neither '.' nor '@', and table names no '@': two
      tables get the same qualified name exactly when namespace and table
      agree up to case and the cluster is the same. */
  lemma HbaseTableQualifiedNameInjective(c1: string, ns1: string, t1: string, c2: string, ns2: string, t2: string)
    requires '.' !in ns1 && '.' !in ns2 && '@' !in ns1 && '@' !in ns2 && '@' !in t1 && '@' !in t2
    ensures HbaseTableQualifiedName(c1, ns1, t1) == HbaseTableQualifiedName(c2, ns2, t2)
            <==> ToLower(ns1) == ToLower(ns2) && ToLower(t1) == ToLower(t2) && c1 == c2
  {
    ToLowerKeepsSeparator(ns1, '@');
    ToLowerKeepsSeparator(ns2, '@');
    ToLowerKeepsSeparator(t1, '@');
    ToLowerKeepsSeparator(t2, '@');
    ToLowerKeepsSeparator(ns1, '.');
    ToLowerKeepsSeparator(ns2, '.');
    var left1, left2 := ToLower(ns1) + "." + ToLower(t1), ToLower(ns2) + "." + ToLower(t2);
    assert '@' !in left1 && '@' !in left2;
    SplitAtSeparator(left1, c1, left2, c2, '@');
    SplitAtSeparator(ToLower(ns1), ToLower(t1), ToLower(ns2), ToLower(t2), '.');
  }

  /** Without the namespace restriction the name is ambiguous. */
  lemma HbaseTableQualifiedNameDottedNamespace()
    ensures HbaseTableQualifiedName("cl", "a.b", "t") == HbaseTableQualifiedName("cl", "a", "b.t")
  {
  }

  /** Every qualified name ignores the case of the names it lower-cases. */
  lemma QualifiedNamesIgnoreCase(clusterName: string, name: string, tableName: string)
    ensures KafkaTopicQualifiedName(clusterName, ToLower(name)) == KafkaTopicQualifiedName(clusterName, name)
    ensures HdfsPathQualifiedName(clusterName, ToLower(name)) == HdfsPathQualifiedName(clusterName, name)
    ensures HbaseTableQualifiedName(clusterName, ToLower(name), ToLower(tableName)) == HbaseTableQualifiedName(clusterName, name, tableName)
  {
    ToLowerIdempotent(name);
    ToLowerIdempotent(tableName);
  }

  // ---------------------------------------------------------------------
  // The topology entity

  datatype TopologyInfo = TopologyInfo(id: string, name: string, owner: Option<string>)

  /** The attributes of the storm_topology entity: the start time (the clock)
      and the cluster name (the hook's configuration) are given. */
  datatype TopologyEntity = TopologyEntity(id: string, name: string, qualifiedName: string, owner: string,
                                           startTime: int, clusterName: string)

  function CreateTopologyInstance(info: TopologyInfo, startTime: int, clusterName: string): (t: TopologyEntity)
    ensures t.owner != ""
    ensures info.owner.Some? && info.owner.value != "" ==> t.owner == info.owner.value
    ensures info.owner.None? || info.owner.value == "" ==> t.owner == AnonymousOwner
    ensures t.id == info.id && t.name == info.name && t.qualifiedName == info.name
    ensures t.startTime == startTime && t.clusterName == clusterName
  {
    var owner := if info.owner.None? || info.owner.value == "" then AnonymousOwner else info.owner.value;
    TopologyEntity(info.id, info.name, info.name, owner, startTime, clusterName)
  }

  // ---------------------------------------------------------------------
  // The topology graph

  datatype NodeKind = Spout | Bolt

  /** A storm_spout or storm_bolt entity, with its outputs and inputs
      attributes (null until set). */
  datatype NodeEntity = NodeEntity(kind: NodeKind, name: string, outputs: Option<seq<string>>, inputs: Option<seq<string>>)

  function SpoutInstance(spoutName: string): NodeEntity {
    NodeEntity(Spout, spoutName, None, None)
  }

  function BoltInstance(boltName: string): NodeEntity {
    NodeEntity(Bolt, boltName, None, None)
  }

  /** Every spout becomes a node under its name. */
  method AddSpouts(spouts: set<string>, nodeEntities: map<string, NodeEntity>) returns (r: map<string, NodeEntity>)
    ensures r.Keys == nodeEntities.Keys + spouts
    ensures forall n | n in spouts :: r[n] == SpoutInstance(n)
    ensures forall n | n in nodeEntities && n !in spouts :: r[n] == nodeEntities[n]
  {
    r := nodeEntities;
    var pending := spouts;
    while pending != {}
      invariant pending <= spouts
      invariant r.Keys == nodeEntities.Keys + (spouts - pending)
      invariant forall n | n in spouts - pending :: r[n] == SpoutInstance(n)
      invariant forall n | n in nodeEntities && n !in spouts - pending :: r[n] == nodeEntities[n]
      decreases pending
    {
      var spoutName :| spoutName in pending;
      pending := pending - {spoutName};
      r := r[spoutName := SpoutInstance(spoutName)];
    }
  }

  /** Every bolt becomes a node under its name, replacing a spout of that name. */
  method AddBolts(bolts: set<string>, nodeEntities: map<string, NodeEntity>) returns (r: map<string, NodeEntity>)
    ensures r.Keys == nodeEntities.Keys + bolts
    ensures forall n | n in bolts :: r[n] == BoltInstance(n)
    ensures forall n | n in nodeEntities && n !in bolts :: r[n] == nodeEntities[n]
  {
    r := nodeEntities;
    var pending := bolts;
    while pending != {}
      invariant pending <= bolts
      invariant r.Keys == nodeEntities.Keys + (bolts - pending)
      invariant forall n | n in bolts - pending :: r[n] == BoltInstance(n)
      invariant forall n | n in nodeEntities && n !in bolts - pending :: r[n] == nodeEntities[n]
      decreases pending
    {
      var boltName :| boltName in pending;
      pending := pending - {boltName};
      r := r[boltName := BoltInstance(boltName)];
    }
  }

  /** new ArrayList(set): every element once, in the set's iteration order. */
  method ListOf(s: set<string>) returns (l: seq<string>)
    ensures multiset(l) == multiset(s)
  {
    l := [];
    var rest := s;
    while rest != {}
      invariant rest <= s
      invariant multiset(l) + multiset(rest) == multiset(s)
      decreases rest
    {
      var x :| x in rest;
      assert multiset(rest) == multiset(rest - {x}) + multiset{x};
      l := l + [x];
      rest := rest - {x};
    }
  }

  /** A node with a non-empty adjacency set has successors. */
  predicate HasSuccessors(adjacencyMap: map<string, set<string>>, n: string) {
    n in adjacencyMap && adjacencyMap[n] != {}
  }

  /** Every node with successors, and every successor, is a node of the graph. */
  predicate ConnectsKnownNodes(adjacencyMap: map<string, set<string>>, nodes: set<string>) {
    forall n | n in adjacencyMap && adjacencyMap[n] != {} :: n in nodes && adjacencyMap[n] <= nodes
  }

  /** The nodes among `sources` with an edge to m. */
  function Predecessors(adjacencyMap: map<string, set<string>>, sources: set<string>, m: string): set<string> {
    set n | n in sources && n in adjacencyMap && m in adjacencyMap[n]
  }

  predicate SameNode(before: NodeEntity, after: NodeEntity) {
    after.kind == before.kind && after.name == before.name
  }

  /** outputs set to the successors for a node with successors among `done`,
      left as it was otherwise. */
  predicate OutputsWired(adjacencyMap: map<string, set<string>>, before: NodeEntity, after: NodeEntity, n: string, done: set<string>) {
    if n in done && HasSuccessors(adjacencyMap, n) then
      after.outputs.Some? && multiset(after.outputs.value) == multiset(adjacencyMap[n])
    else after.outputs == before.outputs
  }

  /** inputs extended by the names in `added` (started empty when it was
      null), and left as it was when nothing is added. */
  predicate InputsExtended(before: Option<seq<string>>, after: Option<seq<string>>, added: multiset<string>) {
    if added == multiset{} then after == before
    else after.Some? && multiset(after.value) == multiset(if before.None? then [] else before.value) + added
  }

  lemma PredecessorsStep(adjacencyMap: map<string, set<string>>, done: set<string>, n: string, m: string)
    requires n !in done && n in adjacencyMap
    ensures multiset(Predecessors(adjacencyMap, done + {n}, m)) ==
            multiset(Predecessors(adjacencyMap, done, m)) + (if m in adjacencyMap[n] then multiset{n} else multiset{})
  {
    if m in adjacencyMap[n] {
      assert Predecessors(adjacencyMap, done + {n}, m) == Predecessors(adjacencyMap, done, m) + {n};
    } else {
      assert Predecessors(adjacencyMap, done + {n}, m) == Predecessors(adjacencyMap, done, m);
    }
  }

  /** The inputs list of a node, started empty when it was null. */
  function InputsOrEmpty(node: NodeEntity): seq<string> {
    if node.inputs.None? then [] else node.inputs.value
  }

  /** inputs.add(nodeName) on a node, creating the list when it was null. */
  function WithInput(node: NodeEntity, nodeName: string): (r: NodeEntity)
    ensures SameNode(node, r) && r.outputs == node.outputs
    ensures r.inputs.Some? && multiset(r.inputs.value) == multiset(InputsOrEmpty(node)) + multiset{nodeName}
  {
    node.(inputs := Some(InputsOrEmpty(node) + [nodeName]))
  }

  /** The incoming links of one node: its name is appended to the inputs of
      each node in its adjacency set. */
  method AddIncomingLinks(nodeName: string, adjacencyList: set<string>, nodeEntities: map<string, NodeEntity>)
    returns (r: map<string, NodeEntity>)
    requires adjacencyList <= nodeEntities.Keys
    ensures r.Keys == nodeEntities.Keys
    ensures forall m | m in r :: r[m] == if m in adjacencyList then WithInput(nodeEntities[m], nodeName) else nodeEntities[m]
  {
    r := nodeEntities;
    var targets := adjacencyList;
    while targets != {}
      invariant targets <= adjacencyList
      invariant r.Keys == nodeEntities.Keys
      invariant forall m | m in r :: r[m] == if m in adjacencyList - targets then WithInput(nodeEntities[m], nodeName) else nodeEntities[m]
      decreases targets
    {
      var adjacentNodeName :| adjacentNodeName in targets;
      targets := targets - {adjacentNodeName};
      var adjacentNode := r[adjacentNodeName];
      r := r[adjacentNodeName := WithInput(adjacentNode, nodeName)];
    }
  }

  /** A node once the sources in `done` are wired: same kind and name, outputs
      set when it is a source with successors, inputs extended by its
      predecessors among `done`. */
  predicate Connected(adjacencyMap: map<string, set<string>>, before: NodeEntity, after: NodeEntity, n: string, done: set<string>) {
    SameNode(before, after)
    && OutputsWired(adjacencyMap, before, after, n, done)
    && InputsExtended(before.inputs, after.inputs, multiset(Predecessors(adjacencyMap, done, n)))
  }

  /** One more source processed: a node the source points at gains the
      source's name among its inputs, other nodes keep theirs. */
  lemma InputsExtendedStep(before: NodeEntity, cur: NodeEntity, next: NodeEntity, added: multiset<string>, nodeName: string, gains: bool)
    requires InputsExtended(before.inputs, cur.inputs, added)
    requires next == if gains then WithInput(cur, nodeName) else cur
    ensures InputsExtended(before.inputs, next.inputs, added + if gains then multiset{nodeName} else multiset{})
  {
    if gains && added == multiset{} {
      assert InputsOrEmpty(cur) == InputsOrEmpty(before);
    }
  }

  /** A source without successors changes no node. */
  lemma ConnectedSkip(adjacencyMap: map<string, set<string>>, before: NodeEntity, cur: NodeEntity, n: string, done: set<string>, nodeName: string)
    requires nodeName !in done && nodeName in adjacencyMap && adjacencyMap[nodeName] == {}
    requires Connected(adjacencyMap, before, cur, n, done)
    ensures Connected(adjacencyMap, before, cur, n, done + {nodeName})
  {
    PredecessorsStep(adjacencyMap, done, nodeName, n);
  }

  /** A source with successors: its outputs become them, and each of them
      gains the source among its inputs. */
  lemma ConnectedStep(adjacencyMap: map<string, set<string>>, before: NodeEntity, cur: NodeEntity, next: NodeEntity,
                      n: string, done: set<string>, nodeName: string, outputs: seq<string>)
    requires nodeName !in done && nodeName in adjacencyMap && adjacencyMap[nodeName] != {}
    requires multiset(outputs) == multiset(adjacencyMap[nodeName])
    requires Connected(adjacencyMap, before, cur, n, done)
    requires var wired := if n == nodeName then cur.(outputs := Some(outputs)) else cur;
             next == if n in adjacencyMap[nodeName] then WithInput(wired, nodeName) else wired
    ensures Connected(adjacencyMap, before, next, n, done + {nodeName})
  {
    PredecessorsStep(adjacencyMap, done, nodeName, n);
    var wired := if n == nodeName then cur.(outputs := Some(outputs)) else cur;
    InputsExtendedStep(before, wired, next, multiset(Predecessors(adjacencyMap, done, n)), nodeName, n in adjacencyMap[nodeName]);
  }

  /** The links of one source with successors: its outputs become them, and
      its name is appended to the inputs of each of them. */
  method ConnectNode(adjacencyMap: map<string, set<string>>, nodeName: string, nodeEntities: map<string, NodeEntity>,
                     ghost original: map<string, NodeEntity>, ghost done: set<string>)
    returns (r: map<string, NodeEntity>)
    requires nodeName !in done && nodeName in adjacencyMap && adjacencyMap[nodeName] != {}
    requires nodeName in nodeEntities && adjacencyMap[nodeName] <= nodeEntities.Keys
    requires nodeEntities.Keys == original.Keys
    requires forall n | n in nodeEntities :: Connected(adjacencyMap, original[n], nodeEntities[n], n, done)
    ensures r.Keys == nodeEntities.Keys
    ensures forall n | n in r :: Connected(adjacencyMap, original[n], r[n], n, done + {nodeName})
  {
    var adjacencyList := adjacencyMap[nodeName];
    // outgoing links
    var node := nodeEntities[nodeName];
    var outputs := ListOf(adjacencyList);
    r := nodeEntities[nodeName := node.(outputs := Some(outputs))];
    // incoming links
    r := AddIncomingLinks(nodeName, adjacencyList, r);
    forall n | n in r
      ensures Connected(adjacencyMap, original[n], r[n], n, done + {nodeName})
    {
      ConnectedStep(adjacencyMap, original[n], nodeEntities[n], r[n], n, done, nodeName, outputs);
    }
  }

  /** For each node with a non-empty adjacency set: its outputs become that
      set, and its name is appended to the inputs of each node in it. */
  method AddGraphConnections(adjacencyMap: map<string, set<string>>, nodeEntities: map<string, NodeEntity>)
    returns (r: map<string, NodeEntity>)
    requires ConnectsKnownNodes(adjacencyMap, nodeEntities.Keys)
    ensures r.Keys == nodeEntities.Keys
    ensures forall n | n in r :: Connected(adjacencyMap, nodeEntities[n], r[n], n, adjacencyMap.Keys)
  {
    r := nodeEntities;
    var pending := adjacencyMap.Keys;
    ghost var done: set<string> := {};
    while pending != {}
      invariant pending <= adjacencyMap.Keys && done == adjacencyMap.Keys - pending
      invariant r.Keys == nodeEntities.Keys
      invariant forall n | n in r :: Connected(adjacencyMap, nodeEntities[n], r[n], n, done)
      decreases pending
    {
      var nodeName :| nodeName in pending;
      if adjacencyMap[nodeName] == {} {
        forall n | n in r
          ensures Connected(adjacencyMap, nodeEntities[n], r[n], n, done + {nodeName})
        {
          ConnectedSkip(adjacencyMap, nodeEntities[n], r[n], n, done, nodeName);
        }
      } else {
        r := ConnectNode(adjacencyMap, nodeName, r, nodeEntities, done);
      }
      pending := pending - {nodeName};
      done := done + {nodeName};
    }
    assert done == adjacencyMap.Keys;
  }

  predicate HasOutput(node: NodeEntity, m: string) {
    node.outputs.Some? && m in node.outputs.value
  }

  predicate HasInput(node: NodeEntity, n: string) {
    node.inputs.Some? && n in node.inputs.value
  }

  /** A node created without outputs and inputs, once every source is wired:
      its outputs are its successors and its inputs its predecessors. */
  lemma FreshNodeWired(adjacencyMap: map<string, set<string>>, before: NodeEntity, after: NodeEntity, n: string)
    requires before.outputs.None? && before.inputs.None?
    requires Connected(adjacencyMap, before, after, n, adjacencyMap.Keys)
    ensures if HasSuccessors(adjacencyMap, n)
            then after.outputs.Some? && multiset(after.outputs.value) == multiset(adjacencyMap[n])
            else after.outputs.None?
    ensures if Predecessors(adjacencyMap, adjacencyMap.Keys, n) == {}
            then after.inputs.None?
            else after.inputs.Some? && multiset(after.inputs.value) == multiset(Predecessors(adjacencyMap, adjacencyMap.Keys, n))
    ensures forall m :: HasOutput(after, m) <==> HasSuccessors(adjacencyMap, n) && m in adjacencyMap[n]
    ensures forall x :: HasInput(after, x) <==> x in Predecessors(adjacencyMap, adjacencyMap.Keys, n)
  {
    var p := Predecessors(adjacencyMap, adjacencyMap.Keys, n);
    if p != {} {
      var x :| x in p;
      assert x in multiset(p);
    }
    forall m
      ensures HasOutput(after, m) <==> HasSuccessors(adjacencyMap, n) && m in adjacencyMap[n]
    {
      if after.outputs.Some? {
        assert m in after.outputs.value <==> m in multiset(after.outputs.value);
      }
    }
    forall x
      ensures HasInput(after, x) <==> x in p
    {
      if after.inputs.Some? {
        assert x in after.inputs.value <==> x in multiset(after.inputs.value);
      }
    }
  }

  /** A graph whose nodes were created without outputs and inputs, once every
      source is wired: outputs are successors, inputs are predecessors, and
      the two agree on every edge. */
  lemma GraphWired(adjacencyMap: map<string, set<string>>, created: map<string, NodeEntity>, wired: map<string, NodeEntity>)
    requires wired.Keys == created.Keys
    requires forall n | n in created :: created[n].outputs.None? && created[n].inputs.None?
    requires forall n | n in wired :: Connected(adjacencyMap, created[n], wired[n], n, adjacencyMap.Keys)
    ensures forall n | n in wired ::
              if HasSuccessors(adjacencyMap, n)
              then wired[n].outputs.Some? && multiset(wired[n].outputs.value) == multiset(adjacencyMap[n])
              else wired[n].outputs.None?
    ensures forall m | m in wired ::
              if Predecessors(adjacencyMap, adjacencyMap.Keys, m) == {}
              then wired[m].inputs.None?
              else wired[m].inputs.Some?
                   && multiset(wired[m].inputs.value) == multiset(Predecessors(adjacencyMap, adjacencyMap.Keys, m))
    ensures forall n, m | n in wired && m in wired :: HasOutput(wired[n], m) <==> HasInput(wired[m], n)
  {
    forall n | n in wired
      ensures if HasSuccessors(adjacencyMap, n)
              then wired[n].outputs.Some? && multiset(wired[n].outputs.value) == multiset(adjacencyMap[n])
              else wired[n].outputs.None?
      ensures if Predecessors(adjacencyMap, adjacencyMap.Keys, n) == {}
              then wired[n].inputs.None?
              else wired[n].inputs.Some?
                   && multiset(wired[n].inputs.value) == multiset(Predecessors(adjacencyMap, adjacencyMap.Keys, n))
    {
      FreshNodeWired(adjacencyMap, created[n], wired[n], n);
    }
    forall n, m | n in wired && m in wired
      ensures HasOutput(wired[n], m) <==> HasInput(wired[m], n)
    {
      FreshNodeWired(adjacencyMap, created[n], wired[n], n);
      FreshNodeWired(adjacencyMap, created[m], wired[m], m);
    }
  }

  /** The graph of a topology: one node per spout and per bolt (a bolt
      replacing a spout of the same name); a node's outputs are its
      successors and its inputs its predecessors, each listed once; a node
      without successors (predecessors) has no outputs (inputs); and n lists
      m among its outputs exactly when m lists n among its inputs. */
  method CreateTopologyGraph(spouts: set<string>, bolts: set<string>, adjacencyMap: map<string, set<string>>)
    returns (nodeEntities: map<string, NodeEntity>)
    requires ConnectsKnownNodes(adjacencyMap, spouts + bolts)
    ensures nodeEntities.Keys == spouts + bolts
    ensures forall n | n in nodeEntities :: nodeEntities[n].name == n && nodeEntities[n].kind == (if n in bolts then Bolt else Spout)
    ensures forall n | n in nodeEntities ::
              if HasSuccessors(adjacencyMap, n)
              then nodeEntities[n].outputs.Some? && multiset(nodeEntities[n].outputs.value) == multiset(adjacencyMap[n])
              else nodeEntities[n].outputs.None?
    ensures forall m | m in nodeEntities ::
              if Predecessors(adjacencyMap, adjacencyMap.Keys, m) == {}
              then nodeEntities[m].inputs.None?
              else nodeEntities[m].inputs.Some?
                   && multiset(nodeEntities[m].inputs.value) == multiset(Predecessors(adjacencyMap, adjacencyMap.Keys, m))
    ensures forall n, m | n in nodeEntities && m in nodeEntities ::
              HasOutput(nodeEntities[n], m) <==> HasInput(nodeEntities[m], n)
  {
    var empty: map<string, NodeEntity> := map[];
    var withSpouts := AddSpouts(spouts, empty);
    var withBolts := AddBolts(bolts, withSpouts);
    nodeEntities := AddGraphConnections(adjacencyMap, withBolts);
    GraphWired(adjacencyMap, withBolts, nodeEntities);
  }
}
