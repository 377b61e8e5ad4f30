/** The command tree of the control client: nodes in the heap, proved against the tree of paths. */
module CommandTrie {
  import opened Wire
  import opened CommandTable

  /** A node: the root and the tokens have successors, an end node has a callback instead. */
  class CliNode {
    const token: string
    const end: Option<Callback>
    var next: seq<CliNode>

    constructor (token: string, end: Option<Callback>)
      ensures this.token == token && this.end == end && next == []
    {
      this.token := token;
      this.end := end;
      next := [];
    }

    method Find(ntoken: string) returns (child: CliNode?)
      ensures child == null ==> forall c :: c in next ==> c.token != ntoken
      ensures child != null ==> child in next && child.token == ntoken
    {
      for i := 0 to |next|
        invariant forall c :: c in next[..i] ==> c.token != ntoken
      {
        if next[i].token == ntoken {
          return next[i];
        }
      }
      return null;
    }
  }

  /** The callbacks of the end nodes of a list. */
  function Ends(list: seq<CliNode>): seq<Callback> {
    if list == [] then []
    else Ends(list[..|list| - 1]) + if list[|list| - 1].end.Some? then [list[|list| - 1].end.value] else []
  }

  lemma {:induction false} OnlyEnds(list: seq<CliNode>)
    requires forall c :: c in list ==> c.end.Some?
    ensures |Ends(list)| == |list|
  {
    if list == [] {
    } else {
      OnlyEnds(list[..|list| - 1]);
    }
  }

  lemma EndsSnoc(list: seq<CliNode>, c: CliNode)
    ensures Ends(list + [c]) == Ends(list) + if c.end.Some? then [c.end.value] else []
  {
    assert (list + [c])[..|list|] == list;
  }

  type Nodes = map<Path, CliNode>
  type Kids = map<Path, seq<CliNode>>

  /** The children of the node at `p`: one token node for each way on, and an end node for each callback. */
  ghost predicate NodeOk(nodes: Nodes, kids: Kids, tree: Tree, p: Path)
    requires p in nodes && p in kids && p in tree
  {
    && nodes[p].end == None
    && (forall c :: c in kids[p] && c.end.None? ==> c.token != "" && Ext(p, c.token) in nodes && nodes[Ext(p, c.token)] == c)
    && (forall c :: c in kids[p] && c.end.Some? ==> c.token == "")
    && (forall t :: Ext(p, t) in nodes ==>
          nodes[Ext(p, t)] in kids[p] && nodes[Ext(p, t)].token == t && nodes[Ext(p, t)].end.None?)
    && Ends(kids[p]) == tree[p]
  }

  ghost predicate Shape(nodes: Nodes, kids: Kids, tree: Tree)
  {
    && nodes.Keys == kids.Keys == tree.Keys
    && (forall p, q :: p in nodes && q in nodes && nodes[p] == nodes[q] ==> p == q)
    && (forall p, t :: Ext(p, t) in nodes ==> p in nodes)
    && (forall p :: p in nodes ==> NodeOk(nodes, kids, tree, p))
  }

  /** One node for each path, and with a path all that it extends. */
  ghost predicate OnePerPath(nodes: Nodes) {
    && (forall p, q :: p in nodes && q in nodes && nodes[p] == nodes[q] ==> p == q)
    && (forall p, t :: Ext(p, t) in nodes ==> p in nodes)
  }

  ghost predicate NodesOk(nodes: Nodes, kids: Kids, tree: Tree)
    requires nodes.Keys == kids.Keys == tree.Keys
  {
    forall p :: p in nodes ==> NodeOk(nodes, kids, tree, p)
  }

  lemma ShapeParts(nodes: Nodes, kids: Kids, tree: Tree)
    ensures Shape(nodes, kids, tree) <==>
            nodes.Keys == kids.Keys == tree.Keys && OnePerPath(nodes) && NodesOk(nodes, kids, tree)
  {
  }

  lemma OneMorePath(nodes: Nodes, p: Path, c: CliNode)
    requires OnePerPath(nodes) && p in nodes && c !in nodes.Values
    ensures OnePerPath(nodes[Ext(p, c.token) := c])
  {
    var nodes' := nodes[Ext(p, c.token) := c];
    forall x, t | Ext(x, t) in nodes' ensures x in nodes' {
      if Ext(x, t) == Ext(p, c.token) { ExtInjective(x, t, p, c.token); }
    }
  }

  lemma TokenKeepsNodes(nodes: Nodes, kids: Kids, tree: Tree, p: Path, c: CliNode)
    requires Shape(nodes, kids, tree) && p in nodes && c.end == None && c.token != ""
    requires Ext(p, c.token) !in nodes && c !in nodes.Values
    ensures var q := Ext(p, c.token);
            NodesOk(nodes[q := c], kids[p := kids[p] + [c]][q := []], tree[q := []])
  {
    var q := Ext(p, c.token);
    var nodes', kids', tree' := nodes[q := c], kids[p := kids[p] + [c]][q := []], tree[q := []];
    forall x | x in nodes' ensures NodeOk(nodes', kids', tree', x) {
      TokenKeepsNode(nodes, kids, tree, p, c, x);
    }
  }

  lemma TokenKeepsNode(nodes: Nodes, kids: Kids, tree: Tree, p: Path, c: CliNode, x: Path)
    requires Shape(nodes, kids, tree) && p in nodes && c.end == None && c.token != ""
    requires Ext(p, c.token) !in nodes && c !in nodes.Values && (x in nodes || x == Ext(p, c.token))
    ensures var q := Ext(p, c.token);
            NodeOk(nodes[q := c], kids[p := kids[p] + [c]][q := []], tree[q := []], x)
  {
    var q := Ext(p, c.token);
    if x == q {
      LeafOk(nodes, kids[p := kids[p] + [c]][q := []], tree[q := []], p, c);
    } else if x == p {
      ParentOk(nodes, kids, tree, p, c);
    } else {
      OtherOk(nodes, kids, tree, p, c, x);
    }
  }

  /** A new token node below `p`. */
  lemma TokenKeepsShape(nodes: Nodes, kids: Kids, tree: Tree, p: Path, c: CliNode)
    requires Shape(nodes, kids, tree) && p in nodes && c.end == None && c.token != ""
    requires Ext(p, c.token) !in nodes && c !in nodes.Values
    ensures var q := Ext(p, c.token);
            Shape(nodes[q := c], kids[p := kids[p] + [c]][q := []], tree[q := []])
  {
    var q := Ext(p, c.token);
    ShapeParts(nodes, kids, tree);
    OneMorePath(nodes, p, c);
    TokenKeepsNodes(nodes, kids, tree, p, c);
    ShapeParts(nodes[q := c], kids[p := kids[p] + [c]][q := []], tree[q := []]);
  }

  lemma LeafOk(nodes: Nodes, kids': Kids, tree': Tree, p: Path, c: CliNode)
    requires var q := Ext(p, c.token); q !in nodes && q in kids' && kids'[q] == [] && q in tree' && tree'[q] == []
    requires c.end == None && forall x, t :: Ext(x, t) in nodes ==> x in nodes
    ensures NodeOk(nodes[Ext(p, c.token) := c], kids', tree', Ext(p, c.token))
  {
    assert forall t :: Ext(Ext(p, c.token), t) !in nodes;
  }

  lemma ParentOk(nodes: Nodes, kids: Kids, tree: Tree, p: Path, c: CliNode)
    requires p in nodes && p in kids && p in tree && NodeOk(nodes, kids, tree, p)
    requires c.end == None && c.token != "" && Ext(p, c.token) !in nodes
    ensures var q := Ext(p, c.token); NodeOk(nodes[q := c], kids[p := kids[p] + [c]][q := []], tree[q := []], p)
  {
    EndsSnoc(kids[p], c);
    forall t ensures Ext(p, t) == Ext(p, c.token) ==> t == c.token {
      if Ext(p, t) == Ext(p, c.token) { ExtInjective(p, t, p, c.token); }
    }
  }

  lemma OtherOk(nodes: Nodes, kids: Kids, tree: Tree, p: Path, c: CliNode, x: Path)
    requires p in kids && x in nodes && x in kids && x in tree && x != p && NodeOk(nodes, kids, tree, x)
    requires Ext(p, c.token) !in nodes
    ensures var q := Ext(p, c.token); NodeOk(nodes[q := c], kids[p := kids[p] + [c]][q := []], tree[q := []], x)
  {
    var q := Ext(p, c.token);
    forall t ensures Ext(x, t) != q {
      if Ext(x, t) == q { ExtInjective(x, t, p, c.token); }
    }
  }

  lemma ExtInjective(p: Path, t: string, q: Path, u: string)
    requires Ext(p, t) == Ext(q, u)
    ensures p == q && t == u
  {
    assert |p| == |q| && Ext(p, t)[..|p|] == Ext(q, u)[..|p|];
  }

  /** A new end node below `p`. */
  lemma EndKeepsShape(nodes: Nodes, kids: Kids, tree: Tree, p: Path, c: CliNode)
    requires Shape(nodes, kids, tree) && p in nodes && c.end.Some? && c.token == ""
    ensures Shape(nodes, kids[p := kids[p] + [c]], tree[p := tree[p] + [c.end.value]])
  {
    ShapeParts(nodes, kids, tree);
    EndKeepsNodes(nodes, kids, tree, p, c);
    ShapeParts(nodes, kids[p := kids[p] + [c]], tree[p := tree[p] + [c.end.value]]);
  }

  lemma EndKeepsNodes(nodes: Nodes, kids: Kids, tree: Tree, p: Path, c: CliNode)
    requires nodes.Keys == kids.Keys == tree.Keys && p in nodes && c.end.Some? && c.token == ""
    requires NodesOk(nodes, kids, tree)
    ensures NodesOk(nodes, kids[p := kids[p] + [c]], tree[p := tree[p] + [c.end.value]])
  {
    var kids', tree' := kids[p := kids[p] + [c]], tree[p := tree[p] + [c.end.value]];
    forall x | x in nodes ensures NodeOk(nodes, kids', tree', x) {
      EndOk(nodes, kids, tree, p, c, x);
    }
  }

  lemma EndOk(nodes: Nodes, kids: Kids, tree: Tree, p: Path, c: CliNode, x: Path)
    requires p in kids && p in tree && x in nodes && x in kids && x in tree && NodeOk(nodes, kids, tree, x)
    requires c.end.Some? && c.token == ""
    ensures NodeOk(nodes, kids[p := kids[p] + [c]], tree[p := tree[p] + [c.end.value]], x)
  {
    EndsSnoc(kids[p], c);
  }

  lemma EmptyShape(start: CliNode)
    requires start.end == None
    ensures Shape(map[[] := start], map[[] := []], map[[] := []])
  {
    var nodes: Nodes, kids: Kids, tree: Tree := map[[] := start], map[[] := []], map[[] := []];
    assert NodeOk(nodes, kids, tree, []);
  }

  /** Where a walk ends: the only child, if it is the only one and an end node, decides. */
  lemma AtTheEnd(nodes: Nodes, kids: Kids, tree: Tree, p: Path)
    requires p in nodes && p in kids && p in tree && NodeOk(nodes, kids, tree, p) && nodes.Keys == tree.Keys
    ensures OutcomeIn(tree, p) == if |kids[p]| == 1 then kids[p][0].end else None
  {
    if |kids[p]| == 1 {
      var c := kids[p][0];
      assert kids[p] == [] + [c];
      EndsSnoc([], c);
      if c.end.None? {
        assert Child(tree, p, c.token);
      } else {
        assert forall t :: Child(tree, p, t) ==> nodes[Ext(p, t)] in kids[p];
      }
    } else if !(exists t :: Child(tree, p, t)) {
      forall c | c in kids[p] ensures c.end.Some? {
        if c.end.None? { assert Child(tree, p, c.token); }
      }
      OnlyEnds(kids[p]);
    }
  }

  predicate NoEmpty(tokens: Path) {
    forall i :: 0 <= i < |tokens| ==> tokens[i] != ""
  }

  lemma SplitLeavesNoEmpty(s: string)
    ensures NoEmpty(Split(s))
  {
    SplitGivesWords(s, "");
    assert forall i :: 0 <= i < |Split(s)| ==> Split(s)[i] in Split(s);
  }

  /** Nodes by path, with their children, and the tree of paths they stand for. */
  datatype Grove = Grove(nodes: Nodes, kids: Kids, tree: Tree)

  ghost predicate InOrder(g: Grove) {
    Shape(g.nodes, g.kids, g.tree)
  }

  ghost function Seedling(start: CliNode): Grove {
    Grove(map[[] := start], map[[] := []], map[[] := []])
  }

  ghost function WithToken(g: Grove, p: Path, c: CliNode): Grove
    requires p in g.kids
  {
    var q := Ext(p, c.token);
    Grove(g.nodes[q := c], g.kids[p := g.kids[p] + [c]][q := []], g.tree[q := []])
  }

  ghost function WithEnd(g: Grove, p: Path, c: CliNode): Grove
    requires p in g.kids && p in g.tree && c.end.Some?
  {
    Grove(g.nodes, g.kids[p := g.kids[p] + [c]], g.tree[p := g.tree[p] + [c.end.value]])
  }

  predicate OnlyAt(nodes: Nodes, p: Path, node: CliNode) {
    p in nodes && nodes[p] == node && forall x :: x in nodes && nodes[x] == node ==> x == p
  }

  lemma NodeFacts(g: Grove, p: Path)
    requires InOrder(g) && p in g.nodes
    ensures p in g.kids && p in g.tree && OnlyAt(g.nodes, p, g.nodes[p]) && g.nodes[p].end == None
    ensures OutcomeIn(g.tree, p) == if |g.kids[p]| == 1 then g.kids[p][0].end else None
  {
    AtTheEnd(g.nodes, g.kids, g.tree, p);
  }

  /** Looking for a token among the children finds the way on, if there is one. */
  lemma FoundIff(g: Grove, nnode: CliNode?, ntoken: string, p: Path)
    requires InOrder(g) && p in g.nodes && p in g.kids && ntoken != ""
    requires if nnode == null then forall c :: c in g.kids[p] ==> c.token != ntoken
             else nnode in g.kids[p] && nnode.token == ntoken
    ensures Ext(p, ntoken) in g.tree <==> nnode != null
    ensures nnode != null ==> Ext(p, ntoken) in g.nodes && g.nodes[Ext(p, ntoken)] == nnode
    ensures nnode == null ==> Ext(p, ntoken) !in g.nodes
  {
    assert NodeOk(g.nodes, g.kids, g.tree, p);
  }

  class CliCmd {
    const start: CliNode
    ghost var grove: Grove
    ghost var commands: seq<Command>

    ghost function Repr(): set<CliNode>
      reads this
    {
      grove.nodes.Values
    }

    /** The nodes in the heap are those of the grove. */
    ghost predicate Planted()
      reads this, Repr()
    {
      && [] in grove.nodes && grove.nodes[[]] == start
      && forall p :: p in grove.nodes ==> p in grove.kids && grove.nodes[p].next == grove.kids[p]
    }

    ghost predicate Valid()
      reads this, Repr()
    {
      Planted() && InOrder(grove) && grove.tree == TreeOf(commands)
    }

    constructor ()
      ensures Valid() && fresh(Repr()) && commands == []
    {
      start := new CliNode("", None);
      new;
      EmptyShape(start);
      grove, commands := Seedling(start), [];
    }

    method Follow(node: CliNode, ntoken: string, ghost p: Path) returns (found: CliNode?)
      requires Planted() && InOrder(grove) && p in grove.nodes && grove.nodes[p] == node && ntoken != ""
      ensures Ext(p, ntoken) in grove.tree <==> found != null
      ensures found != null ==> Ext(p, ntoken) in grove.nodes && grove.nodes[Ext(p, ntoken)] == found
      ensures found == null ==> Ext(p, ntoken) !in grove.nodes
    {
      found := node.Find(ntoken);
      FoundIff(grove, found, ntoken, p);
    }

    /** Going on to the next token, over a new node if there is none. */
    method Step(node: CliNode, ntoken: string, ghost p: Path) returns (child: CliNode)
      requires Planted() && InOrder(grove) && p in grove.nodes && grove.nodes[p] == node && ntoken != ""
      modifies this, node
      ensures Planted() && InOrder(grove) && Ext(p, ntoken) in grove.nodes && grove.nodes[Ext(p, ntoken)] == child
      ensures grove.tree == Grow(old(grove.tree), Ext(p, ntoken)) && commands == old(commands)
      ensures fresh(Repr() - old(Repr()))
    {
      var found := Follow(node, ntoken, p);
      if found != null {
        child := found;
      } else {
        child := new CliNode(ntoken, None);
        TokenKeepsShape(grove.nodes, grove.kids, grove.tree, p, child);
        NodeFacts(grove, p);
        Hang(node, child, p);
      }
    }

    method Hang(node: CliNode, child: CliNode, ghost p: Path)
      requires Planted() && OnlyAt(grove.nodes, p, node) && child !in Repr() && child.next == []
      modifies this, node
      ensures p in old(grove.kids) && grove == WithToken(old(grove), p, child) && Planted() && commands == old(commands)
    {
      node.next := node.next + [child];
      grove := WithToken(grove, p, child);
    }

    method AddEnd(node: CliNode, callback: Callback, ghost p: Path) returns (end: CliNode)
      requires Planted() && OnlyAt(grove.nodes, p, node) && p in grove.tree
      modifies this, node
      ensures end.end == Some(callback) && end.token == ""
      ensures p in old(grove.kids) && grove == WithEnd(old(grove), p, end) && Planted() && commands == old(commands)
    {
      end := new CliNode("", Some(callback));
      node.next := node.next + [end];
      grove := WithEnd(grove, p, end);
    }

    /** The loop over the tokens of a new command. */
    method Descend(words: Path, ghost callback: Callback) returns (node: CliNode, ghost p: Path)
      requires Planted() && InOrder(grove) && NoEmpty(words) && [] in grove.tree
      modifies this, Repr()
      ensures Planted() && InOrder(grove) && p in grove.nodes && grove.nodes[p] == node && p in grove.tree
      ensures AddTokens(grove.tree, p, [], callback) == AddTokens(old(grove.tree), [], words, callback)
      ensures commands == old(commands) && fresh(Repr() - old(Repr()))
    {
      node := start;
      var tokens := words;
      p := [];
      while tokens != []
        invariant NoEmpty(tokens) && Planted() && InOrder(grove)
        invariant p in grove.nodes && grove.nodes[p] == node && p in grove.tree
        invariant AddTokens(grove.tree, p, tokens, callback) == AddTokens(old(grove.tree), [], words, callback)
        invariant commands == old(commands) && fresh(Repr() - old(Repr()))
        decreases |tokens|
      {
        tokens, node, p := Turn(tokens, node, p, callback);
      }
    }

    /** One turn of that loop. */
    method Turn(tokens: Path, node: CliNode, ghost p: Path, ghost callback: Callback)
      returns (rest: Path, child: CliNode, ghost q: Path)
      requires Planted() && InOrder(grove) && tokens != [] && NoEmpty(tokens)
      requires p in grove.nodes && grove.nodes[p] == node && p in grove.tree
      modifies this, node
      ensures Planted() && InOrder(grove) && rest == tokens[1..] && NoEmpty(rest)
      ensures q in grove.nodes && grove.nodes[q] == child && q in grove.tree
      ensures AddTokens(grove.tree, q, rest, callback) == AddTokens(old(grove.tree), p, tokens, callback)
      ensures commands == old(commands) && fresh(Repr() - old(Repr()))
    {
      child := Step(node, tokens[0], p);
      rest, q := tokens[1..], Ext(p, tokens[0]);
    }

    method Complete(node: CliNode, callback: Callback, ghost p: Path)
      requires Planted() && InOrder(grove) && p in grove.nodes && grove.nodes[p] == node && p in grove.tree
      modifies this, node
      ensures Planted() && InOrder(grove) && grove.nodes == old(grove.nodes) && commands == old(commands)
      ensures grove.tree == AddTokens(old(grove.tree), p, [], callback)
    {
      NodeFacts(grove, p);
      ghost var before := grove;
      var end := AddEnd(node, callback, p);
      EndKeepsShape(before.nodes, before.kids, before.tree, p, end);
    }

    method Insert(words: Path, callback: Callback)
      requires Planted() && InOrder(grove) && NoEmpty(words) && [] in grove.tree
      modifies this, Repr()
      ensures Planted() && InOrder(grove) && commands == old(commands) && fresh(Repr() - old(Repr()))
      ensures grove.tree == AddTokens(old(grove.tree), [], words, callback)
    {
      var node, p := Descend(words, callback);
      Complete(node, callback, p);
    }

    method AddCmd(fullCommand: string, callback: Callback)
      requires Valid()
      modifies this, Repr()
      ensures Valid() && fresh(Repr() - old(Repr()))
      ensures commands == old(commands) + [Command(Split(fullCommand), callback)]
    {
      var tokens := Split(fullCommand);
      SplitLeavesNoEmpty(fullCommand);
      ghost var more := commands + [Command(tokens, callback)];
      TreeOfSnoc(commands, Command(tokens, callback));
      Insert(tokens, callback);
      assert InOrder(grove);
      commands := more;
      assert grove.tree == TreeOf(commands) && InOrder(grove);
      assert Planted();
      assert Valid();
    }

    /** The callback that is run, or None for the exception. */
    method CallCmd(cmd: string) returns (r: Option<Callback>)
      requires Valid()
      ensures r == Call(commands, Split(cmd))
    {
      var node := start;
      var tokens := Split(cmd);
      SplitLeavesNoEmpty(cmd);
      CallInTree(commands, tokens);
      ghost var p: Path := [];
      while tokens != []
        invariant p in grove.nodes && grove.nodes[p] == node && NoEmpty(tokens)
        invariant WalkIn(grove.tree, p, tokens) == WalkIn(grove.tree, [], Split(cmd))
        decreases |tokens|
      {
        var ntoken := tokens[0];
        tokens := tokens[1..];
        var nnode := Follow(node, ntoken, p);
        if nnode != null {
          node := nnode;
          p := Ext(p, ntoken);
        }
      }
      NodeFacts(grove, p);
      if |node.next| == 1 {
        node := node.next[0];
      }
      r := node.end;
    }
  }
}
