/** comment_campaign/template_import.py: validating an imported comment tree and turning a
    valid one into template steps. */
module TemplateImport {
  import opened Sorting
  import opened CampaignModel
  import opened ParentForest
  import opened TemplateTree

  /** A row's cells after text normalisation; an empty parent cell means none was given. */
  datatype RawNode = RawNode(no: string, parentNo: string, text: string)

  datatype Node = Node(no: string, parent: Option<string>, text: string)

  datatype Code =
    | TreeNameMissing
    | TreeNameInvalid
    | TreeEmpty
    | TreeTooLarge
    | NodeNoMissing
    | NodeNoInvalid
    | DuplicateNodeNo
    | TextMissing
    | TextTooLong
    | ParentNotFound
    | RootCountInvalid
    | CycleDetected

  const MAX_NAME := 100
  const MAX_TREE_NODES := 100
  const MAX_NODE_NO := 120
  const MAX_COMMENT := 2200

  /** A node without a parent cell replies to the row above it. */
  function ParentOfRow(raw: seq<RawNode>, i: nat): Option<string>
    requires i < |raw|
  {
    if raw[i].parentNo != "" then Some(raw[i].parentNo)
    else if i > 0 && raw[i - 1].no != "" then Some(raw[i - 1].no)
    else None
  }

  function NodesOf(raw: seq<RawNode>): (nodes: seq<Node>)
    ensures |nodes| == |raw|
  {
    seq(|raw|, i requires 0 <= i < |raw| => Node(raw[i].no, ParentOfRow(raw, i), raw[i].text))
  }

  /** The node keeps the row's number and text, and replies to the row's parent cell or, if that
      is empty, to the row above; an empty number is none to reply to. */
  ghost predicate MadeFromRow(raw: seq<RawNode>, i: nat, node: Node)
    requires i < |raw|
  {
    && node.no == raw[i].no && node.text == raw[i].text && node.parent != Some("")
    && forall p :: p != "" ==>
         (node.parent == Some(p) <==> raw[i].parentNo == p || (raw[i].parentNo == "" && i > 0 && raw[i - 1].no == p))
  }

  method NormalizeNodes(raw: seq<RawNode>) returns (nodes: seq<Node>)
    ensures nodes == NodesOf(raw)
    ensures forall i :: 0 <= i < |raw| ==> MadeFromRow(raw, i, nodes[i])
  {
    nodes := [];
    for i := 0 to |raw|
      invariant |nodes| == i
      invariant forall j :: 0 <= j < i ==> nodes[j] == Node(raw[j].no, ParentOfRow(raw, j), raw[j].text)
    {
      var parent := if raw[i].parentNo == "" then None else Some(raw[i].parentNo);
      if parent.None? && nodes != [] {
        var above := nodes[|nodes| - 1].no;
        parent := if above == "" then None else Some(above);
      }
      nodes := nodes + [Node(raw[i].no, parent, raw[i].text)];
    }
  }

  function Numbers(nodes: seq<Node>): (nos: seq<string>)
    ensures |nos| == |nodes| && forall i :: 0 <= i < |nodes| ==> nos[i] == nodes[i].no
  {
    seq(|nodes|, i requires 0 <= i < |nodes| => nodes[i].no)
  }

  /** The parent pointers by node number, when the numbers are distinct. */
  function NodeParents(nodes: seq<Node>): Parents<string> {
    if nodes == [] then map[] else NodeParents(nodes[..|nodes| - 1])[nodes[|nodes| - 1].no := nodes[|nodes| - 1].parent]
  }

  predicate NodeFits(node: Node) {
    0 < |node.no| <= MAX_NODE_NO && 0 < |node.text| <= MAX_COMMENT
  }

  ghost predicate Clean(nodes: seq<Node>) {
    (forall i :: 0 <= i < |nodes| ==> NodeFits(nodes[i])) && Distinct(Numbers(nodes))
  }

  ghost predicate OneRoot(nodes: seq<Node>) {
    exists i :: OnlyRoot(nodes, i)
  }

  ghost predicate OnlyRoot(nodes: seq<Node>, i: int) {
    0 <= i < |nodes| && nodes[i].parent.None? && forall j :: 0 <= j < |nodes| && nodes[j].parent.None? ==> j == i
  }

  /** What a tree must satisfy to be imported. */
  ghost predicate WellFormed(name: string, nodes: seq<Node>) {
    && 0 < |name| <= MAX_NAME
    && 0 < |nodes| <= MAX_TREE_NODES
    && Clean(nodes)
    && KnownParents(NodeParents(nodes))
    && OneRoot(nodes)
    && Acyclic(NodeParents(nodes))
  }

  /** The reporting walk: it notes a cycle and goes on, instead of stopping. */
  class CycleReport {
    const parents: Parents<string>
    var colors: map<string, Color>
    var reported: set<string>

    constructor (parents: Parents<string>)
      ensures this.parents == parents && colors == map[] && reported == {}
    {
      this.parents, colors, reported := parents, map[], {};
    }

    ghost function Colored(color: Color): set<string>
      reads this
    {
      set s | s in colors && colors[s] == color
    }

    ghost predicate Consistent()
      reads this
    {
      && colors.Keys <= parents.Keys
      && (reported != {} ==> !Acyclic(parents))
      && (reported == {} ==> forall s :: s in Colored(Done) ==> ClimbsOut(parents, s))
    }

    ghost predicate LeadsTo(next: string)
      reads this
    {
      forall s :: s in Colored(Open) ==>
        s in parents && parents[s].Some? && (parents[s].value in Colored(Open) || parents[s].value == next)
    }

    method Visit(id: string)
      requires id in parents && Consistent() && LeadsTo(id)
      modifies this
      ensures Consistent() && LeadsTo(id) && Colored(Open) == old(Colored(Open))
      ensures old(Colored(Done)) <= Colored(Done) && old(reported) <= reported
      ensures id in Colored(Done) || (id in Colored(Open) && reported != {})
      decreases parents.Keys - colors.Keys, 1
    {
      if id in colors && colors[id] == Open {
        assert id in Colored(Open) && Trapped(parents, Colored(Open));
        AcyclicIffNothingTrapped(parents);
        reported := reported + {id};
        return;
      }
      if id in colors && colors[id] == Done {
        return;
      }
      Climb(id);
      ghost var before, finished := Colored(Open), Colored(Done);
      colors := colors[id := Done];
      assert Colored(Open) == before - {id} && Colored(Done) == finished + {id};
    }

    /** Opens an unvisited node and visits its parent, if that is a node. */
    method Climb(id: string)
      requires id in parents && id !in colors && Consistent() && LeadsTo(id)
      modifies this
      ensures Consistent() && Colored(Open) == old(Colored(Open)) + {id}
      ensures old(Colored(Done)) <= Colored(Done) && old(reported) <= reported
      ensures reported == {} ==> ClimbsOut(parents, id)
      decreases parents.Keys - colors.Keys, 0
    {
      ghost var before, done := Colored(Open), Colored(Done);
      colors := colors[id := Open];
      assert Colored(Open) == before + {id} && Colored(Done) == done;
      var parent := parents[id];
      if parent.Some? && parent.value in parents {
        Visit(parent.value);
        if reported == {} {
          ClimbOneMore(parents, id);
        }
      } else {
        Leaves(parents, id);
      }
    }
  }

  lemma Leaves(parents: Parents<string>, id: string)
    requires id in parents && (parents[id].None? || parents[id].value !in parents)
    ensures ClimbsOut(parents, id)
  {
    if parents[id].Some? {
      assert Grounded(parents, parents[id].value, 0);
      ClimbOneMore(parents, id);
    } else {
      assert Grounded(parents, id, 0);
    }
  }

  method DetectCycles(order: seq<string>, parents: Parents<string>) returns (reported: set<string>)
    requires forall s :: s in order <==> s in parents
    ensures reported == {} <==> Acyclic(parents)
  {
    var report := new CycleReport(parents);
    for i := 0 to |order|
      invariant report.parents == parents && report.Consistent() && report.Colored(Open) == {}
      invariant forall j :: 0 <= j < i ==> order[j] in report.Colored(Done)
    {
      assert order[i] in order;
      report.Visit(order[i]);
    }
    reported := report.reported;
  }

  function NumberErrors(no: string, taken: set<string>): seq<Code> {
    if no == "" then [NodeNoMissing]
    else if |no| > MAX_NODE_NO then [NodeNoInvalid]
    else if no in taken then [DuplicateNodeNo]
    else []
  }

  function TextErrors(text: string): seq<Code> {
    if text == "" then [TextMissing] else if |text| > MAX_COMMENT then [TextTooLong] else []
  }

  lemma {:induction false} CleanStep(nodes: seq<Node>, i: nat)
    requires i < |nodes|
    ensures Clean(nodes[..i + 1]) <==>
      Clean(nodes[..i]) && NumberErrors(nodes[i].no, ToSet(Numbers(nodes[..i]))) + TextErrors(nodes[i].text) == []
  {
    assert nodes[..i + 1] == nodes[..i] + [nodes[i]];
    AppendNumber(nodes[..i], nodes[i]);
    if Clean(nodes[..i + 1]) {
      forall j | 0 <= j < i
        ensures NodeFits(nodes[..i][j])
      {
        assert nodes[..i][j] == nodes[..i + 1][j];
      }
      assert NodeFits(nodes[..i + 1][i]);
    }
  }

  /** Checks each node on its own and keeps the first node of every usable number. */
  method ScanNodes(nodes: seq<Node>) returns (errors: seq<Code>, kept: seq<Node>)
    ensures errors == [] <==> Clean(nodes)
    ensures errors == [] ==> kept == nodes
    ensures Distinct(Numbers(kept))
  {
    errors, kept := [], [];
    var first: set<string> := {};
    for i := 0 to |nodes|
      invariant errors == [] <==> Clean(nodes[..i])
      invariant errors == [] ==> kept == nodes[..i]
      invariant Distinct(Numbers(kept)) && first == ToSet(Numbers(kept))
    {
      CleanStep(nodes, i);
      AppendNumber(kept, nodes[i]);
      var problems := NumberErrors(nodes[i].no, first);
      if problems == [] {
        first, kept := first + {nodes[i].no}, kept + [nodes[i]];
      }
      errors := errors + problems + TextErrors(nodes[i].text);
      assert nodes[..i + 1] == nodes[..i] + [nodes[i]];
    }
    assert nodes[..|nodes|] == nodes;
  }

  lemma {:induction false} AppendNumber(nodes: seq<Node>, node: Node)
    ensures Numbers(nodes + [node]) == Numbers(nodes) + [node.no]
    ensures ToSet(Numbers(nodes + [node])) == ToSet(Numbers(nodes)) + {node.no}
    ensures Distinct(Numbers(nodes + [node])) <==> Distinct(Numbers(nodes)) && node.no !in Numbers(nodes)
  {
    var nos := Numbers(nodes);
    assert Numbers(nodes + [node]) == nos + [node.no];
    if Distinct(nos + [node.no]) {
      forall i, j | 0 <= i < j < |nos|
        ensures nos[i] != nos[j]
      {
        assert (nos + [node.no])[i] != (nos + [node.no])[j];
      }
      forall i | 0 <= i < |nos|
        ensures nos[i] != node.no
      {
        assert (nos + [node.no])[i] != (nos + [node.no])[|nos|];
      }
    }
  }

  lemma {:induction false} NodeParentsAt(nodes: seq<Node>)
    requires Distinct(Numbers(nodes))
    ensures forall s :: s in NodeParents(nodes) <==> s in Numbers(nodes)
    ensures forall i :: 0 <= i < |nodes| ==>
      nodes[i].no in NodeParents(nodes) && NodeParents(nodes)[nodes[i].no] == nodes[i].parent
  {
    if nodes != [] {
      var front, last := nodes[..|nodes| - 1], nodes[|nodes| - 1];
      assert nodes == front + [last];
      AppendNumber(front, last);
      NodeParentsAt(front);
      forall i | 0 <= i < |front|
        ensures front[i].no != last.no
      {
        assert Numbers(front)[i] in Numbers(front);
      }
    }
  }

  method UnknownParents(nodes: seq<Node>, parents: Parents<string>) returns (errors: seq<Code>)
    requires Distinct(Numbers(nodes)) && parents == NodeParents(nodes)
    ensures errors == [] <==> KnownParents(parents)
  {
    errors := [];
    NodeParentsAt(nodes);
    for i := 0 to |nodes|
      invariant errors == [] <==> forall j :: 0 <= j < i ==> KnownAt(parents, nodes[j].no)
    {
      var parent := nodes[i].parent;
      if parent.Some? && parent.value !in parents {
        errors := errors + [ParentNotFound];
      }
    }
    if errors == [] {
      forall id
        ensures KnownAt(parents, id)
      {
        if id in parents {
          var j := Locate(Numbers(nodes), id);
          assert nodes[j].no == id;
        }
      }
    }
  }

  function Parentless(nodes: seq<Node>): seq<Node> {
    if nodes == [] then []
    else (if nodes[0].parent.None? then [nodes[0]] else []) + Parentless(nodes[1..])
  }

  lemma {:induction false} CountsRoots(nodes: seq<Node>)
    ensures |Parentless(nodes)| == 0 <==> forall i :: 0 <= i < |nodes| ==> nodes[i].parent.Some?
    ensures |Parentless(nodes)| == 1 <==> OneRoot(nodes)
  {
    if nodes != [] {
      var rest := nodes[1..];
      CountsRoots(rest);
      assert forall i :: 0 <= i < |rest| ==> rest[i] == nodes[i + 1];
      if nodes[0].parent.Some? {
        if OneRoot(rest) {
          var i :| OnlyRoot(rest, i);
          assert OnlyRoot(nodes, i + 1);
        }
        if OneRoot(nodes) {
          var i :| OnlyRoot(nodes, i);
          assert OnlyRoot(rest, i - 1);
        }
      } else if |Parentless(rest)| == 0 {
        assert OnlyRoot(nodes, 0);
      }
    }
  }

  /** A tree is reported valid exactly when it is well formed. */
  method NormalizeImportedTree(name: string, raw: seq<RawNode>) returns (nodes: seq<Node>, errors: seq<Code>)
    ensures nodes == NodesOf(raw)
    ensures errors == [] <==> WellFormed(name, nodes)
  {
    nodes := NormalizeNodes(raw);
    errors := [];
    if name == "" {
      errors := errors + [TreeNameMissing];
    } else if |name| > MAX_NAME {
      errors := errors + [TreeNameInvalid];
    }
    if nodes == [] {
      errors := errors + [TreeEmpty];
    }
    if |nodes| > MAX_TREE_NODES {
      errors := errors + [TreeTooLarge];
    }
    var nodeErrors, kept := ScanNodes(nodes);
    var parents := NodeParents(kept);
    var parentErrors := UnknownParents(kept, parents);
    var rootErrors := if |Parentless(kept)| != 1 then [RootCountInvalid] else [];
    CountsRoots(kept);
    NodeParentsAt(kept);
    var cycles := DetectCycles(Numbers(kept), parents);
    errors := errors + nodeErrors + parentErrors + rootErrors + seq(|cycles|, _ => CycleDetected);
  }

  /** Named steps, one per node; `ids` are the values the id factory returned, in order. */
  function StepsFor(nodes: seq<Node>, ids: seq<string>): (steps: seq<Step>)
    requires |ids| == |nodes|
    ensures |steps| == |nodes|
  {
    seq(|nodes|, i requires 0 <= i < |nodes| =>
      Step(ids[i], if nodes[i].parent.None? then None else Some(IdFor(nodes, ids, nodes[i].parent.value)),
           Fixed(nodes[i].text), {}, {}, ""))
  }

  function IdFor(nodes: seq<Node>, ids: seq<string>, no: string): string
    requires |ids| == |nodes|
  {
    if nodes == [] then ""
    else if nodes[|nodes| - 1].no == no then ids[|nodes| - 1]
    else IdFor(nodes[..|nodes| - 1], ids[..|nodes| - 1], no)
  }

  datatype ImportFailure = ImportRejected

  /** The conversion accepts exactly the valid trees given distinct, non-empty ids. */
  method ImportTreeToTemplate(name: string, raw: seq<RawNode>, ids: seq<string>)
    returns (r: Result<seq<Step>, ImportFailure>)
    requires |ids| == |raw|
    ensures r.Ok? <==> WellFormed(name, NodesOf(raw)) && Distinct(ids) && "" !in ids
    ensures r.Ok? ==> r.value == StepsFor(NodesOf(raw), ids) && ValidTree(Threaded, r.value, Some({Threaded}))
    ensures r.Ok? ==> |r.value| == |raw|
    ensures r.Ok? ==> forall i :: 0 <= i < |raw| ==> MadeFromNode(NodesOf(raw), ids, i, r.value[i])
  {
    var checked, errors := NormalizeImportedTree(name, raw);
    NoRepeatsIffDistinct(ids);
    if errors != [] || !NoRepeats(ids) || "" in ids {
      return Err(ImportRejected);
    }
    ImportedTreeIsValid(name, checked, ids);
    forall i | 0 <= i < |raw|
      ensures MadeFromNode(checked, ids, i, StepsFor(checked, ids)[i])
    {
      StepMade(checked, ids, i);
    }
    return Ok(StepsFor(checked, ids));
  }

  /** The step carries the id made for its node and publishes the node's text, without any
      requirement on profiles; it replies to the step made for the node's parent. */
  ghost predicate MadeFromNode(nodes: seq<Node>, ids: seq<string>, i: nat, step: Step)
    requires i < |nodes| == |ids|
  {
    && step.id == ids[i] && step.source == Fixed(nodes[i].text)
    && step.requiredTags == {} && step.excludedTags == {} && step.language == ""
    && (step.parent.None? <==> nodes[i].parent.None?)
    && forall j :: 0 <= j < |nodes| && nodes[i].parent == Some(nodes[j].no) ==> step.parent == Some(ids[j])
  }

  lemma StepMade(nodes: seq<Node>, ids: seq<string>, i: nat)
    requires |ids| == |nodes| && i < |nodes| && Distinct(Numbers(nodes))
    ensures MadeFromNode(nodes, ids, i, StepsFor(nodes, ids)[i])
  {
    forall j | 0 <= j < |nodes| && nodes[i].parent == Some(nodes[j].no)
      ensures IdFor(nodes, ids, nodes[i].parent.value) == ids[j]
    {
      IdForNode(nodes, ids, j);
    }
  }

  lemma {:induction false} IdForNode(nodes: seq<Node>, ids: seq<string>, i: nat)
    requires |ids| == |nodes| && i < |nodes| && Distinct(Numbers(nodes))
    ensures IdFor(nodes, ids, nodes[i].no) == ids[i]
  {
    var n := |nodes| - 1;
    assert nodes == nodes[..n] + [nodes[n]];
    AppendNumber(nodes[..n], nodes[n]);
    if i < n {
      assert Numbers(nodes)[i] != Numbers(nodes)[n];
      IdForNode(nodes[..n], ids[..n], i);
    }
  }

  /** The steps' parent pointers are the nodes' ones, renamed. */
  lemma {:induction false} StepParent(nodes: seq<Node>, ids: seq<string>, i: nat)
    requires |ids| == |nodes| && i < |nodes| && Distinct(Numbers(nodes)) && Distinct(ids) && "" !in ids
    requires KnownParents(NodeParents(nodes))
    ensures ids[i] in ParentMap(StepsFor(nodes, ids))
    ensures
      var parent := ParentMap(StepsFor(nodes, ids))[ids[i]];
      if nodes[i].parent.None? then parent.None?
      else exists j :: 0 <= j < |nodes| && nodes[j].no == nodes[i].parent.value && parent == Some(ids[j])
  {
    var steps := StepsFor(nodes, ids);
    assert Ids(steps) == ids;
    assert ids[i] in ids && steps[i] in steps;
    IdsAreKeys(steps, i);
    assert StepWithId(steps, ids[i]) == steps[i];
    if nodes[i].parent.Some? {
      NodeParentsAt(nodes);
      assert KnownAt(NodeParents(nodes), nodes[i].no);
      var j := Locate(Numbers(nodes), nodes[i].parent.value);
      IdForNode(nodes, ids, j);
      assert ids[j] in ids;
    }
  }

  lemma {:induction false} RenamedGrounded(nodes: seq<Node>, ids: seq<string>, i: nat, n: nat)
    requires |ids| == |nodes| && i < |nodes| && Distinct(Numbers(nodes)) && Distinct(ids) && "" !in ids
    requires KnownParents(NodeParents(nodes)) && Grounded(NodeParents(nodes), nodes[i].no, n)
    ensures Grounded(ParentMap(StepsFor(nodes, ids)), ids[i], n)
    decreases n
  {
    StepParent(nodes, ids, i);
    NodeParentsAt(nodes);
    if nodes[i].parent.Some? {
      var j :| 0 <= j < |nodes| && nodes[j].no == nodes[i].parent.value
        && ParentMap(StepsFor(nodes, ids))[ids[i]] == Some(ids[j]);
      RenamedGrounded(nodes, ids, j, n - 1);
    }
  }

  /** Whatever the import accepts, the template check accepts as a threaded tree. */
  lemma {:induction false} ImportedTreeIsValid(name: string, nodes: seq<Node>, ids: seq<string>)
    requires WellFormed(name, nodes) && |ids| == |nodes| && Distinct(ids) && "" !in ids
    ensures ValidTree(Threaded, StepsFor(nodes, ids), Some({Threaded}))
  {
    var steps := StepsFor(nodes, ids);
    var parents := ParentMap(steps);
    assert Ids(steps) == ids;
    NodeParentsAt(nodes);
    forall s
      ensures KnownAt(parents, s) && (s in parents ==> ClimbsOut(parents, s))
    {
      if s in parents {
        var i := Locate(ids, s);
        StepParent(nodes, ids, i);
        assert ClimbsOut(NodeParents(nodes), nodes[i].no);
        var n: nat :| Grounded(NodeParents(nodes), nodes[i].no, n);
        RenamedGrounded(nodes, ids, i, n);
      }
    }
    SingleRoot(nodes, ids);
  }

  lemma {:induction false} SingleRoot(nodes: seq<Node>, ids: seq<string>)
    requires |ids| == |nodes| && Distinct(Numbers(nodes)) && Distinct(ids) && "" !in ids
    requires KnownParents(NodeParents(nodes)) && OneRoot(nodes)
    ensures |Roots(ParentMap(StepsFor(nodes, ids)))| == 1
  {
    var i :| OnlyRoot(nodes, i);
    var parents := ParentMap(StepsFor(nodes, ids));
    assert Ids(StepsFor(nodes, ids)) == ids;
    StepParent(nodes, ids, i);
    forall s | s in Roots(parents)
      ensures s == ids[i]
    {
      var j := Locate(ids, s);
      StepParent(nodes, ids, j);
    }
    assert Roots(parents) == {ids[i]};
  }
}
