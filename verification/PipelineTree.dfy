/**
 * The tree of tf.data nodes (model.h): `Snapshot`, which copies the tree below a node, and
 * `CollectTunableParameters`, which looks for parameters in the part enabled for autotuning.
 */
module PipelineTree {
  import opened Wrappers

  /** A parameter; `tunable` is the flag in its shared state. Copies of a node share its parameters. */
  class Parameter {
    const name: string
    var tunable: bool

    constructor (name: string, tunable: bool)
      ensures this.name == name && this.tunable == tunable
    {
      this.name, this.tunable := name, tunable;
    }
  }

  /** A `std::map` from names to parameters, in the order in which it is walked. */
  type Parameters = seq<(string, Parameter)>

  /** What a node holds, apart from its links and the running clocks. */
  datatype Data = Data(id: int, name: string, autotune: bool, bufferedBytes: int, processingTime: int,
                       numElements: int, parameters: Parameters)

  /** The nodes below a node with what they hold. */
  datatype Tree = Tree(node: Node, data: Data, inputs: seq<Tree>)

  ghost function Nodes(t: Tree): set<Node> {
    {t.node} + set i: nat, n | i < |t.inputs| && n in Nodes(t.inputs[i]) :: n
  }

  /** The objects reachable from `t.node` look as `t` says. */
  ghost predicate Reflects(t: Tree)
    reads Nodes(t)
  {
    && t.node.TheData() == t.data
    && |t.node.inputs| == |t.inputs|
    && forall i: nat | i < |t.inputs| :: t.node.inputs[i] == t.inputs[i].node && Reflects(t.inputs[i])
  }

  lemma {:induction false} NodesAllocated(t: Tree)
    ensures forall n <- Nodes(t) :: allocated(n)
  {
    forall i: nat | i < |t.inputs| ensures forall n <- Nodes(t.inputs[i]) :: allocated(n) {
      NodesAllocated(t.inputs[i]);
    }
  }

  lemma {:induction false} ParametersAllocated(t: Tree)
    ensures forall q <- AllParameters(t) :: allocated(q)
  {
    forall i: nat | i < |t.inputs| ensures forall q <- AllParameters(t.inputs[i]) :: allocated(q) {
      ParametersAllocated(t.inputs[i]);
    }
  }

  ghost predicate ParentLinks(t: Tree) {
    forall i: nat | i < |t.inputs| :: t.inputs[i].node.output == t.node && ParentLinks(t.inputs[i])
  }

  /** No node occurs twice. */
  ghost predicate Treelike(t: Tree) {
    && (forall i: nat | i < |t.inputs| :: t.node !in Nodes(t.inputs[i]) && Treelike(t.inputs[i]))
    && (forall i: nat, j: nat | i < j < |t.inputs| :: Nodes(t.inputs[i]) !! Nodes(t.inputs[j]))
  }

  ghost predicate Isomorphic(a: Tree, b: Tree) {
    && a.data == b.data
    && |a.inputs| == |b.inputs|
    && forall i: nat | i < |a.inputs| :: Isomorphic(a.inputs[i], b.inputs[i])
  }

  /** A tree of its own: the same data, linked to its own parents, and no clock running. */
  ghost predicate IsCopy(t: Tree, copy: Tree, output: Node?)
    reads Nodes(copy)
  {
    && Reflects(copy) && Isomorphic(t, copy)
    && copy.node.output == output && ParentLinks(copy) && Treelike(copy)
    && forall n <- Nodes(copy) :: n.workStart == map[]
  }

  ghost function Roots(ts: seq<Tree>): (roots: seq<Node>)
    ensures |roots| == |ts| && forall i: nat | i < |ts| :: roots[i] == ts[i].node
  {
    seq(|ts|, i requires 0 <= i < |ts| => ts[i].node)
  }

  /** The first inputs have been copied below `parent`, using the nodes `made`. */
  ghost predicate InputsCopied(inputs: seq<Tree>, copies: seq<Tree>, parent: Node, made: set<Node>)
    reads made
  {
    && |copies| <= |inputs|
    && (forall k: nat | k < |copies| :: Nodes(copies[k]) <= made && IsCopy(inputs[k], copies[k], parent))
    && (forall j: nat, k: nat | j < k < |copies| :: Nodes(copies[j]) !! Nodes(copies[k]))
  }

  lemma AddInput(inputs: seq<Tree>, copies: seq<Tree>, parent: Node, made: set<Node>, below: Tree)
    requires InputsCopied(inputs, copies, parent, made)
    requires |copies| < |inputs| && IsCopy(inputs[|copies|], below, parent) && Nodes(below) !! made
    ensures InputsCopied(inputs, copies + [below], parent, made + Nodes(below))
  {
  }

  lemma AssembleNodes(copy: Tree, made: set<Node>)
    requires forall k: nat | k < |copy.inputs| :: Nodes(copy.inputs[k]) <= made
    ensures Nodes(copy) <= {copy.node} + made
  {
  }

  lemma AssembleTree(copy: Tree, made: set<Node>)
    requires copy.node !in made
    requires forall k: nat | k < |copy.inputs| :: Nodes(copy.inputs[k]) <= made && Treelike(copy.inputs[k])
    requires forall j: nat, k: nat | j < k < |copy.inputs| :: Nodes(copy.inputs[j]) !! Nodes(copy.inputs[k])
    ensures Treelike(copy)
  {
  }

  lemma Assemble(t: Tree, copy: Tree, made: set<Node>)
    requires InputsCopied(t.inputs, copy.inputs, copy.node, made) && |copy.inputs| == |t.inputs|
    requires copy.node !in made && copy.node.TheData() == copy.data == t.data && copy.node.workStart == map[]
    requires copy.node.inputs == Roots(copy.inputs)
    ensures IsCopy(t, copy, copy.node.output) && Nodes(copy) <= {copy.node} + made
  {
    AssembleNodes(copy, made);
    AssembleTree(copy, made);
    forall k: nat | k < |copy.inputs| ensures IsCopy(t.inputs[k], copy.inputs[k], copy.node) {
    }
  }

  class Node {
    const id: int
    const name: string
    const output: Node?
    var autotune: bool
    var bufferedBytes: int
    var processingTime: int
    var numElements: int
    var workStart: map<nat, int>
    var parameters: Parameters
    var inputs: seq<Node>

    function TheData(): Data
      reads this
    {
      Data(id, name, autotune, bufferedBytes, processingTime, numElements, parameters)
    }

    constructor (id: int, name: string, output: Node?)
      ensures TheData() == Data(id, name, true, 0, 0, 0, [])
      ensures this.output == output && inputs == [] && workStart == map[]
    {
      this.id, this.name, this.output := id, name, output;
      autotune, bufferedBytes, processingTime, numElements := true, 0, 0, 0;
      workStart, parameters, inputs := map[], [], [];
    }

    /** Every concrete kind of node clones itself from its id and name. */
    method Clone(output: Node?) returns (result: Node)
      ensures fresh(result) && result.id == id && result.name == name && result.output == output
      ensures result.inputs == [] && result.workStart == map[]
    {
      result := new Node(id, name, output);
    }

    /** The part of a snapshot under the lock of the new node. */
    method CopyState(result: Node)
      requires result.id == id && result.name == name
      modifies result
      ensures result.TheData() == TheData() == old(TheData())
      ensures result.inputs == old(result.inputs) && result.workStart == old(result.workStart)
    {
      result.autotune := autotune;
      result.bufferedBytes := bufferedBytes;
      result.processingTime := processingTime;
      result.numElements := numElements;
      result.parameters := parameters;
    }

    /** A copy of the whole tree, made of new nodes linked to their new parents, with no clock running. */
    method Snapshot(ghost t: Tree, output: Node?) returns (result: Node, ghost copy: Tree)
      requires t.node == this && Reflects(t)
      ensures copy.node == result && IsCopy(t, copy, output) && fresh(Nodes(copy))
      decreases t, 1
    {
      NodesAllocated(t);
      result := Clone(output);
      CopyState(result);
      ghost var copies: seq<Tree> := [];
      ghost var made: set<Node> := {};
      for i := 0 to |inputs|
        invariant result.TheData() == t.data && result.workStart == map[]
        invariant |copies| == i && result.inputs == Roots(copies)
        invariant fresh(made) && result !in made && Reflects(t)
        invariant InputsCopied(t.inputs, copies, result, made)
      {
        copies, made := SnapshotInput(t, i, result, copies, made);
      }
      copy := Tree(result, t.data, copies);
      Assemble(t, copy, made);
    }

    /** The copy of one more input, added to the new node. */
    method SnapshotInput(ghost t: Tree, i: nat, result: Node, ghost copies: seq<Tree>, ghost made: set<Node>)
      returns (ghost more: seq<Tree>, ghost all: set<Node>)
      requires t.node == this && Reflects(t) && i < |inputs|
      requires |copies| == i && result.inputs == Roots(copies)
      requires result !in made && result !in Nodes(t) && InputsCopied(t.inputs, copies, result, made)
      modifies result
      ensures result.TheData() == old(result.TheData()) && result.workStart == old(result.workStart)
      ensures |more| == i + 1 && result.inputs == Roots(more)
      ensures result !in all && fresh(all - made) && InputsCopied(t.inputs, more, result, all)
      decreases t, 0
    {
      var input, below := inputs[i].Snapshot(t.inputs[i], result);
      AddInput(t.inputs, copies, result, made, below);
      more := copies + [below];
      all := made + Nodes(below);
      result.inputs := result.inputs + [input];
    }

    /** The first tunable parameter of this node is offered under its long name. */
    method OfferParameters(ghost tunable: set<Parameter>, collected: ParameterMap)
      requires forall i: nat | i < |parameters| :: parameters[i].1.tunable <==> parameters[i].1 in tunable
      modifies collected
      ensures collected.entries == Offer(old(collected.entries), LongName(name, id), FirstTunable(parameters, tunable))
    {
      for i := 0 to |parameters|
        invariant collected.entries
               == Offer(old(collected.entries), LongName(name, id), FirstTunable(parameters[..i], tunable))
      {
        assert parameters[..i + 1][..i] == parameters[..i];
        if parameters[i].1.tunable {
          collected.Insert(LongName(name, id), parameters[i].1);
        }
      }
      assert parameters[..|parameters|] == parameters;
    }

    /** The first tunable parameter of each node enabled from here is offered under the long name of its node. */
    method CollectTunableParameters(ghost t: Tree, ghost tunable: set<Parameter>, collected: ParameterMap)
      requires t.node == this && Reflects(t) && FlagsAre(t, tunable)
      modifies collected
      ensures collected.entries == Collect(t, tunable, old(collected.entries))
      decreases t, 2
    {
      NodesAllocated(t);
      ParametersAllocated(t);
      CollectOwn(t, tunable, collected.entries);
      if !autotune {
        return;
      }
      assert forall i: nat | i < |parameters| :: parameters[i] in t.data.parameters;
      OfferParameters(tunable, collected);
      CollectFromInputs(t, tunable, collected, WalkOf(t, tunable, old(collected.entries)));
    }

    /** The same for one input after the other; `walk` is what has been collected before and after each. */
    method CollectFromInputs(ghost t: Tree, ghost tunable: set<Parameter>, collected: ParameterMap, ghost walk: seq<map<string, Parameter>>)
      requires t.node == this && Reflects(t) && FlagsAre(t, tunable)
      requires |walk| == |t.inputs| + 1 && forall i: nat | i < |t.inputs| :: CollectedBy(t.inputs[i], tunable, walk[i], walk[i + 1])
      requires collected.entries == walk[0]
      modifies collected
      ensures collected.entries == walk[|t.inputs|]
      decreases t, 1
    {
      for i := 0 to |inputs|
        invariant Reflects(t) && FlagsAre(t, tunable)
        invariant collected.entries == walk[i]
      {
        CollectFromInput(t, tunable, i, collected, walk[i], walk[i + 1]);
      }
    }

    method CollectFromInput(ghost t: Tree, ghost tunable: set<Parameter>, i: nat, collected: ParameterMap,
                            ghost before: map<string, Parameter>, ghost after: map<string, Parameter>)
      requires t.node == this && Reflects(t) && FlagsAre(t, tunable) && i < |inputs|
      requires collected.entries == before && CollectedBy(t.inputs[i], tunable, before, after)
      modifies collected
      ensures Reflects(t) && FlagsAre(t, tunable)
      ensures collected.entries == after
      decreases t, 0
    {
      NodesAllocated(t);
      ParametersAllocated(t);
      FlagsOfInput(t, i, tunable);
      inputs[i].CollectTunableParameters(t.inputs[i], tunable, collected);
    }
  }

  /** The output `std::map`; inserting keeps an entry that is already there. */
  class ParameterMap {
    var entries: map<string, Parameter>

    constructor ()
      ensures entries == map[]
    {
      entries := map[];
    }

    method Insert(key: string, value: Parameter)
      modifies this
      ensures entries == Offer(old(entries), key, Some(value))
    {
      if key !in entries {
        entries := entries[key := value];
      }
    }
  }

  function Offer(entries: map<string, Parameter>, key: string, value: Option<Parameter>): map<string, Parameter> {
    if value.None? || key in entries then entries else entries[key := value.value]
  }

  // ---- What is collected ----

  ghost predicate FlagsAre(t: Tree, tunable: set<Parameter>)
    reads AllParameters(t)
  {
    forall q <- AllParameters(t) :: q.tunable <==> q in tunable
  }

  lemma FlagsOfInput(t: Tree, i: nat, tunable: set<Parameter>)
    requires i < |t.inputs| && FlagsAre(t, tunable)
    ensures FlagsAre(t.inputs[i], tunable)
  {
    assert AllParameters(t.inputs[i]) <= AllParameters(t);
  }

  ghost function AllParameters(t: Tree): set<Parameter> {
    (set p <- t.data.parameters :: p.1) + set i: nat, q | i < |t.inputs| && q in AllParameters(t.inputs[i]) :: q
  }

  ghost function FirstTunable(parameters: Parameters, tunable: set<Parameter>): Option<Parameter> {
    if parameters == [] then None
    else
      var earlier := FirstTunable(parameters[..|parameters| - 1], tunable);
      var last := parameters[|parameters| - 1].1;
      if earlier.Some? then earlier else if last in tunable then Some(last) else None
  }

  /** The nodes reached through nodes enabled for autotuning only, in the order of the walk. */
  ghost function Enabled(t: Tree): seq<Data>
    decreases t, |t.inputs| + 1
  {
    if !t.data.autotune then [] else [t.data] + EnabledInputs(t, |t.inputs|)
  }

  ghost function EnabledInputs(t: Tree, k: nat): seq<Data>
    requires k <= |t.inputs|
    decreases t, k
  {
    if k == 0 then [] else EnabledInputs(t, k - 1) + Enabled(t.inputs[k - 1])
  }

  /** `d` is what the node at the end of a path holds, and every node on the path is enabled. */
  ghost predicate AlongEnabled(t: Tree, path: seq<nat>, d: Data)
    decreases path
  {
    && t.data.autotune
    && if path == [] then t.data == d else path[0] < |t.inputs| && AlongEnabled(t.inputs[path[0]], path[1..], d)
  }

  lemma {:induction false} EnabledInputsIff(t: Tree, k: nat, d: Data)
    requires k <= |t.inputs|
    ensures d in EnabledInputs(t, k) <==> exists i: nat :: i < k && d in Enabled(t.inputs[i])
  {
    if k > 0 {
      EnabledInputsIff(t, k - 1, d);
    }
  }

  lemma {:induction false} PathTo(t: Tree, d: Data) returns (path: seq<nat>)
    requires d in Enabled(t)
    ensures AlongEnabled(t, path, d)
  {
    if t.data == d {
      path := [];
    } else {
      EnabledInputsIff(t, |t.inputs|, d);
      var i: nat :| i < |t.inputs| && d in Enabled(t.inputs[i]);
      var below := PathTo(t.inputs[i], d);
      path := [i] + below;
      assert path[1..] == below;
    }
  }

  lemma {:induction false} AtPath(t: Tree, path: seq<nat>, d: Data)
    requires AlongEnabled(t, path, d)
    ensures d in Enabled(t)
    decreases path
  {
    if path != [] {
      AtPath(t.inputs[path[0]], path[1..], d);
      var i := path[0];
      assert d in Enabled(t.inputs[i]);
      EnabledInputsIff(t, |t.inputs|, d);
    }
  }

  ghost predicate OnEnabledPath(t: Tree, d: Data) {
    exists path: seq<nat> :: AlongEnabled(t, path, d)
  }

  /** A node is among those walked over exactly if all nodes from the root down to it are enabled. */
  lemma EnabledIff(t: Tree, d: Data)
    ensures d in Enabled(t) <==> OnEnabledPath(t, d)
  {
    if d in Enabled(t) {
      var path := PathTo(t, d);
    } else if OnEnabledPath(t, d) {
      var path: seq<nat> :| AlongEnabled(t, path, d);
      AtPath(t, path, d);
    }
  }

  ghost function OfferAll(nodes: seq<Data>, tunable: set<Parameter>, entries: map<string, Parameter>): map<string, Parameter> {
    if nodes == [] then entries
    else
      var last := nodes[|nodes| - 1];
      Offer(OfferAll(nodes[..|nodes| - 1], tunable, entries), LongName(last.name, last.id), FirstTunable(last.parameters, tunable))
  }

  ghost function Collect(t: Tree, tunable: set<Parameter>, entries: map<string, Parameter>): map<string, Parameter> {
    OfferAll(Enabled(t), tunable, entries)
  }

  lemma {:induction false} OfferAllAppend(a: seq<Data>, b: seq<Data>, tunable: set<Parameter>, entries: map<string, Parameter>)
    ensures OfferAll(a + b, tunable, entries) == OfferAll(b, tunable, OfferAll(a, tunable, entries))
  {
    if b == [] {
      assert a + b == a;
    } else {
      assert (a + b)[..|a + b| - 1] == a + b[..|b| - 1];
      OfferAllAppend(a, b[..|b| - 1], tunable, entries);
    }
  }

  /** What is collected from an enabled node and its first inputs. */
  ghost function CollectFirst(t: Tree, k: nat, tunable: set<Parameter>, entries: map<string, Parameter>): map<string, Parameter>
    requires k <= |t.inputs|
  {
    OfferAll([t.data] + EnabledInputs(t, k), tunable, entries)
  }

  /** Entries that are there already stay as they are. */
  lemma {:induction false} CollectKeeps(nodes: seq<Data>, tunable: set<Parameter>, entries: map<string, Parameter>, key: string)
    requires key in entries
    ensures key in OfferAll(nodes, tunable, entries) && OfferAll(nodes, tunable, entries)[key] == entries[key]
  {
    if nodes != [] {
      CollectKeeps(nodes[..|nodes| - 1], tunable, entries, key);
    }
  }

  lemma CollectOwn(t: Tree, tunable: set<Parameter>, entries: map<string, Parameter>)
    ensures CollectFirst(t, 0, tunable, entries)
         == Offer(entries, LongName(t.data.name, t.data.id), FirstTunable(t.data.parameters, tunable))
    ensures t.data.autotune ==> CollectFirst(t, |t.inputs|, tunable, entries) == Collect(t, tunable, entries)
    ensures !t.data.autotune ==> Collect(t, tunable, entries) == entries
  {
    var own := [t.data];
    assert own + EnabledInputs(t, 0) == own;
    assert own[..|own| - 1] == [];
    assert OfferAll(own[..|own| - 1], tunable, entries) == entries;
  }

  lemma CollectNext(t: Tree, k: nat, tunable: set<Parameter>, entries: map<string, Parameter>)
    requires k < |t.inputs|
    ensures CollectFirst(t, k + 1, tunable, entries) == Collect(t.inputs[k], tunable, CollectFirst(t, k, tunable, entries))
  {
    var first := [t.data] + EnabledInputs(t, k);
    assert [t.data] + EnabledInputs(t, k + 1) == first + Enabled(t.inputs[k]);
    OfferAllAppend(first, Enabled(t.inputs[k]), tunable, entries);
  }

  ghost predicate CollectedBy(t: Tree, tunable: set<Parameter>, before: map<string, Parameter>, after: map<string, Parameter>) {
    after == Collect(t, tunable, before)
  }

  /** What has been collected before each input of an enabled node, and in the end. */
  ghost function WalkOf(t: Tree, tunable: set<Parameter>, entries: map<string, Parameter>): (walk: seq<map<string, Parameter>>)
    ensures |walk| == |t.inputs| + 1
    ensures forall i: nat | i <= |t.inputs| :: walk[i] == CollectFirst(t, i, tunable, entries)
    ensures forall i: nat | i < |t.inputs| :: CollectedBy(t.inputs[i], tunable, walk[i], walk[i + 1])
  {
    var walk := seq(|t.inputs| + 1, i requires 0 <= i <= |t.inputs| => CollectFirst(t, i, tunable, entries));
    WalkSteps(t, tunable, entries, walk);
    walk
  }

  lemma WalkSteps(t: Tree, tunable: set<Parameter>, entries: map<string, Parameter>, walk: seq<map<string, Parameter>>)
    requires |walk| == |t.inputs| + 1 && forall i: nat | i <= |t.inputs| :: walk[i] == CollectFirst(t, i, tunable, entries)
    ensures forall i: nat | i < |t.inputs| :: CollectedBy(t.inputs[i], tunable, walk[i], walk[i + 1])
  {
    forall i: nat | i < |t.inputs| ensures CollectedBy(t.inputs[i], tunable, walk[i], walk[i + 1]) {
      CollectNext(t, i, tunable, entries);
    }
  }

  // ---- Long names ----

  function Digits(n: nat): string {
    if n < 10 then [('0' as int + n) as char] else Digits(n / 10) + [('0' as int + n % 10) as char]
  }

  function Decimal(n: int): string {
    if n < 0 then "-" + Digits(-n) else Digits(n)
  }

  function LongName(name: string, id: int): string {
    name + "(id:" + Decimal(id) + ")"
  }

  ghost function Parse(s: string): int {
    if s == [] then 0 else 10 * Parse(s[..|s| - 1]) + (s[|s| - 1] as int - '0' as int)
  }

  lemma {:induction false} DigitsParse(n: nat)
    ensures Parse(Digits(n)) == n && |Digits(n)| > 0
    ensures forall c <- Digits(n) :: '0' <= c <= '9'
  {
    if n < 10 {
      assert Digits(n)[..0] == [];
    } else {
      DigitsParse(n / 10);
      assert Digits(n)[..|Digits(n)| - 1] == Digits(n / 10);
    }
  }

  lemma DecimalInjective(m: int, n: int)
    requires Decimal(m) == Decimal(n)
    ensures m == n
  {
    DigitsParse(if m < 0 then -m else m);
    DigitsParse(if n < 0 then -n else n);
    if m >= 0 {
      assert Decimal(m)[0] in Digits(m);
    }
    if n >= 0 {
      assert Decimal(n)[0] in Digits(n);
    }
    assert m < 0 <==> n < 0;
    if m < 0 {
      assert Digits(-m) == Decimal(m)[1..] == Digits(-n);
    }
  }

  lemma NoColon(n: int, k: nat)
    requires k < |Decimal(n)|
    ensures Decimal(n)[k] != ':'
  {
    DigitsParse(if n < 0 then -n else n);
    if n < 0 {
      if k > 0 {
        assert Digits(-n)[k - 1] in Digits(-n);
      }
    } else {
      assert Decimal(n)[k] in Digits(n);
    }
  }

  /** The name, the characters `(id:`, the decimal id, and a closing bracket. */
  lemma LongNameShape(name: string, id: int)
    ensures |LongName(name, id)| == |name| + |Decimal(id)| + 5
    ensures LongName(name, id)[..|name|] == name
    ensures LongName(name, id)[|name|..|name| + 4] == ['(', 'i', 'd', ':'] && LongName(name, id)[|name| + 3] == ':'
    ensures LongName(name, id)[|LongName(name, id)| - 1] == ')'
    ensures LongName(name, id)[|name| + 4..|LongName(name, id)| - 1] == Decimal(id)
  {
    var l := LongName(name, id);
    var front := name + "(id:" + Decimal(id);
    assert l == front + ")";
    assert l[..|front|] == front;
    assert front[|name| + 4..] == Decimal(id);
    assert front[..|name| + 4] == name + "(id:";
  }

  lemma NoLaterColon(name: string, id: int, k: nat)
    requires |name| + 4 <= k < |LongName(name, id)| - 1
    ensures LongName(name, id)[k] != ':'
  {
    LongNameShape(name, id);
    NoColon(id, k - |name| - 4);
    assert LongName(name, id)[|name| + 4..|LongName(name, id)| - 1][k - |name| - 4] == LongName(name, id)[k];
  }

  lemma ColonsAgree(name: string, id: int, otherName: string, otherId: int)
    requires LongName(name, id) == LongName(otherName, otherId)
    ensures |name| >= |otherName|
  {
    LongNameShape(name, id);
    LongNameShape(otherName, otherId);
    if |name| < |otherName| {
      NoLaterColon(name, id, |otherName| + 3);
    }
  }

  /** The long name, meant to be unique, identifies the name and the id, whatever characters the name has. */
  lemma LongNameInjective(name: string, id: int, otherName: string, otherId: int)
    requires LongName(name, id) == LongName(otherName, otherId)
    ensures name == otherName && id == otherId
  {
    LongNameShape(name, id);
    LongNameShape(otherName, otherId);
    ColonsAgree(name, id, otherName, otherId);
    ColonsAgree(otherName, otherId, name, id);
    DecimalInjective(id, otherId);
  }

  // ---- What the collection means ----

  /** The map walks its parameters by name. */
  ghost predicate Before(a: string, b: string) {
    b != "" && (a == "" || a[0] < b[0] || (a[0] == b[0] && Before(a[1..], b[1..])))
  }

  ghost predicate ByName(parameters: Parameters) {
    forall i, j :: 0 <= i < j < |parameters| ==> Before(parameters[i].0, parameters[j].0)
  }

  /** `FirstTunable` is the tunable parameter whose name comes first. */
  lemma {:induction false} FirstInNameOrder(parameters: Parameters, tunable: set<Parameter>)
    requires ByName(parameters)
    ensures FirstTunable(parameters, tunable).None? <==> forall p <- parameters :: p.1 !in tunable
    ensures FirstTunable(parameters, tunable).Some? ==>
              exists i: nat :: && i < |parameters| && parameters[i].1 == FirstTunable(parameters, tunable).value
                               && parameters[i].1 in tunable
                               && forall p <- parameters :: p.1 in tunable && p != parameters[i] ==> Before(parameters[i].0, p.0)
  {
    if parameters != [] {
      var shorter := parameters[..|parameters| - 1];
      FirstInNameOrder(shorter, tunable);
      assert parameters == shorter + [parameters[|parameters| - 1]];
      if FirstTunable(shorter, tunable).Some? {
        var i: nat :| && i < |shorter| && shorter[i].1 == FirstTunable(shorter, tunable).value
                      && shorter[i].1 in tunable
                      && forall p <- shorter :: p.1 in tunable && p != shorter[i] ==> Before(shorter[i].0, p.0);
        assert parameters[i] == shorter[i];
      } else if parameters[|parameters| - 1].1 in tunable {
        assert parameters[|parameters| - 1].1 == FirstTunable(parameters, tunable).value;
      }
    }
  }

  ghost predicate UniqueIds(nodes: seq<Data>) {
    forall i, j :: 0 <= i < j < |nodes| ==> nodes[i].id != nodes[j].id
  }

  ghost predicate Offers(d: Data, tunable: set<Parameter>, key: string, value: Parameter) {
    LongName(d.name, d.id) == key && FirstTunable(d.parameters, tunable) == Some(value)
  }

  /** Every entry comes from a node. */
  lemma {:induction false} EntryHasNode(nodes: seq<Data>, tunable: set<Parameter>, key: string) returns (i: nat)
    requires key in OfferAll(nodes, tunable, map[])
    ensures i < |nodes| && Offers(nodes[i], tunable, key, OfferAll(nodes, tunable, map[])[key])
  {
    var earlier := nodes[..|nodes| - 1];
    var r := OfferAll(earlier, tunable, map[]);
    if key in r {
      i := EntryHasNode(earlier, tunable, key);
      assert nodes[i] == earlier[i];
    } else {
      i := |nodes| - 1;
    }
  }

  lemma NewNodeNewName(nodes: seq<Data>, tunable: set<Parameter>)
    requires UniqueIds(nodes) && nodes != []
    ensures var last := nodes[|nodes| - 1];
            LongName(last.name, last.id) !in OfferAll(nodes[..|nodes| - 1], tunable, map[])
  {
    var last := nodes[|nodes| - 1];
    if LongName(last.name, last.id) in OfferAll(nodes[..|nodes| - 1], tunable, map[]) {
      var i := EntryHasNode(nodes[..|nodes| - 1], tunable, LongName(last.name, last.id));
      LongNameInjective(nodes[i].name, nodes[i].id, last.name, last.id);
    }
  }

  /** Every node that has a tunable parameter has its entry. */
  lemma {:induction false} NodeHasEntry(nodes: seq<Data>, tunable: set<Parameter>, i: nat)
    requires UniqueIds(nodes) && i < |nodes| && FirstTunable(nodes[i].parameters, tunable).Some?
    ensures var key := LongName(nodes[i].name, nodes[i].id);
            && key in OfferAll(nodes, tunable, map[])
            && Offers(nodes[i], tunable, key, OfferAll(nodes, tunable, map[])[key])
  {
    if i < |nodes| - 1 {
      NodeHasEntry(nodes[..|nodes| - 1], tunable, i);
    } else {
      NewNodeNewName(nodes, tunable);
    }
  }

  lemma {:induction false} EntriesCounted(nodes: seq<Data>, tunable: set<Parameter>)
    requires UniqueIds(nodes)
    ensures |OfferAll(nodes, tunable, map[])| == |With(nodes, tunable)|
  {
    if nodes != [] {
      EntriesCounted(nodes[..|nodes| - 1], tunable);
      NewNodeNewName(nodes, tunable);
    }
  }

  ghost function With(nodes: seq<Data>, tunable: set<Parameter>): seq<Data> {
    if nodes == [] then []
    else
      With(nodes[..|nodes| - 1], tunable)
      + if FirstTunable(nodes[|nodes| - 1].parameters, tunable).Some? then [nodes[|nodes| - 1]] else []
  }

  /** From an empty map: exactly one entry per enabled node that has a tunable parameter, under its own name. */
  lemma CollectsEachNodeOnce(t: Tree, tunable: set<Parameter>)
    requires UniqueIds(Enabled(t))
    ensures |Collect(t, tunable, map[])| == |With(Enabled(t), tunable)|
    ensures forall key: string :: key in Collect(t, tunable, map[]) ==>
              exists d <- Enabled(t) :: Offers(d, tunable, key, Collect(t, tunable, map[])[key])
    ensures forall d <- Enabled(t) :: FirstTunable(d.parameters, tunable).Some? ==>
              && LongName(d.name, d.id) in Collect(t, tunable, map[])
              && Offers(d, tunable, LongName(d.name, d.id), Collect(t, tunable, map[])[LongName(d.name, d.id)])
  {
    var nodes := Enabled(t);
    var r := OfferAll(nodes, tunable, map[]);
    EntriesCounted(nodes, tunable);
    forall key: string | key in r ensures exists d <- nodes :: Offers(d, tunable, key, r[key]) {
      var i := EntryHasNode(nodes, tunable, key);
    }
    forall d <- nodes | FirstTunable(d.parameters, tunable).Some?
      ensures LongName(d.name, d.id) in r && Offers(d, tunable, LongName(d.name, d.id), r[LongName(d.name, d.id)])
    {
      var i :| 0 <= i < |nodes| && nodes[i] == d;
      NodeHasEntry(nodes, tunable, i);
    }
  }

  lemma {:induction false} SameEnabled(t: Tree, copy: Tree)
    requires Isomorphic(t, copy)
    ensures Enabled(t) == Enabled(copy)
    decreases t, |t.inputs| + 1
  {
    SameEnabledInputs(t, copy, |t.inputs|);
  }

  lemma {:induction false} SameEnabledInputs(t: Tree, copy: Tree, k: nat)
    requires Isomorphic(t, copy) && k <= |t.inputs|
    ensures EnabledInputs(t, k) == EnabledInputs(copy, k)
    decreases t, k
  {
    if k > 0 {
      SameEnabledInputs(t, copy, k - 1);
      SameEnabled(t.inputs[k - 1], copy.inputs[k - 1]);
    }
  }

  /** A snapshot yields the same parameters as the original. */
  lemma SnapshotCollectsTheSame(t: Tree, copy: Tree, tunable: set<Parameter>, entries: map<string, Parameter>)
    requires Isomorphic(t, copy)
    ensures Collect(t, tunable, entries) == Collect(copy, tunable, entries)
  {
    SameEnabled(t, copy);
  }
}
