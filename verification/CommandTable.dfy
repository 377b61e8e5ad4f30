/** The control client's commands as a flat table, and what calling one is to do. */
module CommandTable {
  import opened Wire

  type Callback = nat

  /** A list of tokens; none of them is empty. */
  type Path = seq<string>

  datatype Command = Command(tokens: Path, callback: Callback)

  // ---- Tokens ------------------------------------------------------------------------------------------------------

  /** The pieces between blanks, empty ones dropped; `word` is the piece being read. */
  function SplitFrom(s: string, word: string): Path
    decreases |s|
  {
    if s == [] then (if word == "" then [] else [word])
    else if s[0] == ' ' then (if word == "" then [] else [word]) + SplitFrom(s[1..], "")
    else SplitFrom(s[1..], word + [s[0]])
  }

  function Split(s: string): Path { SplitFrom(s, "") }

  predicate IsWord(w: string) { w != "" && ' ' !in w }

  lemma {:induction false} SplitGivesWords(s: string, word: string)
    requires ' ' !in word
    ensures forall w :: w in SplitFrom(s, word) ==> IsWord(w)
    decreases |s|
  {
    if s == [] {
    } else {
      SplitGivesWords(s[1..], if s[0] == ' ' then "" else word + [s[0]]);
    }
  }

  lemma {:induction false} SplitWord(w: string, rest: string, word: string)
    requires ' ' !in w
    ensures SplitFrom(w + rest, word) == SplitFrom(rest, word + w)
    decreases |w|
  {
    if w == "" {
      assert w + rest == rest && word + w == word;
    } else {
      assert (w + rest)[1..] == w[1..] + rest && (w + rest)[0] == w[0];
      SplitWord(w[1..], rest, word + [w[0]]);
      assert word + [w[0]] + w[1..] == word + w;
    }
  }

  function Join(tokens: Path): string {
    if tokens == [] then "" else tokens[0] + " " + Join(tokens[1..])
  }

  /** Words with blanks between them are split into the same words. */
  lemma {:induction false} SplitJoin(tokens: Path)
    requires forall w :: w in tokens ==> IsWord(w)
    ensures Split(Join(tokens)) == tokens
  {
    if tokens == [] {
    } else {
      var w, rest := tokens[0], " " + Join(tokens[1..]);
      assert IsWord(w);
      SplitJoin(tokens[1..]);
      SplitWord(w, rest, "");
      assert tokens[0] + " " + Join(tokens[1..]) == w + rest;
      assert SplitFrom(rest, w) == [w] + Split(Join(tokens[1..]));
      assert "" + w == w && rest[1..] == Join(tokens[1..]);
      assert tokens == [w] + tokens[1..];
    }
  }

  // ---- The flat table ----------------------------------------------------------------------------------------------

  /** Some command starts with these tokens. */
  ghost predicate InTrie(commands: seq<Command>, p: Path) {
    p == [] || exists i :: 0 <= i < |commands| && p <= commands[i].tokens
  }

  ghost predicate HasChild(commands: seq<Command>, p: Path, t: string) {
    InTrie(commands, p + [t])
  }

  /** The callbacks registered for exactly these tokens, in order. */
  function CallbacksAt(commands: seq<Command>, p: Path): seq<Callback> {
    if commands == [] then []
    else CallbacksAt(commands[..|commands| - 1], p) +
         if commands[|commands| - 1].tokens == p then [commands[|commands| - 1].callback] else []
  }

  /** Following tokens from `p`: a token that leads nowhere is skipped. */
  ghost function Walk(commands: seq<Command>, p: Path, tokens: Path): Path
    decreases |tokens|
  {
    if tokens == [] then p
    else if HasChild(commands, p, tokens[0]) then Walk(commands, p + [tokens[0]], tokens[1..])
    else Walk(commands, p, tokens[1..])
  }

  /** What calling at `p` does: the callback, if there is exactly one and nothing goes on from there. */
  ghost function Outcome(commands: seq<Command>, p: Path): Option<Callback> {
    if |CallbacksAt(commands, p)| == 1 && !(exists t :: HasChild(commands, p, t)) then Some(CallbacksAt(commands, p)[0])
    else None
  }

  ghost function Call(commands: seq<Command>, tokens: Path): Option<Callback> {
    Outcome(commands, Walk(commands, [], tokens))
  }

  /** No other command has the tokens of command `i`, or goes on from them. */
  ghost predicate Alone(commands: seq<Command>, i: nat)
    requires i < |commands|
  {
    forall j :: 0 <= j < |commands| && j != i ==> !(commands[i].tokens <= commands[j].tokens)
  }

  /** Following the tokens of a path of the tree ends at that path. */
  lemma {:induction false} WalkAlong(commands: seq<Command>, p: Path, tokens: Path)
    requires InTrie(commands, p + tokens)
    ensures Walk(commands, p, tokens) == p + tokens
    decreases |tokens|
  {
    if tokens == [] {
      assert p + tokens == p;
    } else {
      var t, next := tokens[0], p + [tokens[0]];
      assert next + tokens[1..] == p + tokens;
      PrefixInTrie(commands, next, p + tokens);
      WalkAlong(commands, next, tokens[1..]);
    }
  }

  lemma PrefixInTrie(commands: seq<Command>, p: Path, q: Path)
    requires InTrie(commands, q) && p <= q
    ensures InTrie(commands, p)
  {
    if q != [] {
      var i :| 0 <= i < |commands| && q <= commands[i].tokens;
      assert p <= commands[i].tokens;
    }
  }

  lemma {:induction false} CallbacksCount(commands: seq<Command>, p: Path, i: nat)
    requires i < |commands| && commands[i].tokens == p
    requires forall j :: 0 <= j < |commands| && j != i ==> commands[j].tokens != p
    ensures CallbacksAt(commands, p) == [commands[i].callback]
    decreases |commands|
  {
    var front := commands[..|commands| - 1];
    if i < |front| {
      CallbacksCount(front, p, i);
    } else {
      NoCallbacks(front, p);
    }
  }

  lemma {:induction false} NoCallbacks(commands: seq<Command>, p: Path)
    ensures CallbacksAt(commands, p) == [] <==> forall j :: 0 <= j < |commands| ==> commands[j].tokens != p
  {
    if commands == [] {
    } else {
      var front := commands[..|commands| - 1];
      NoCallbacks(front, p);
      assert forall j :: 0 <= j < |front| ==> front[j] == commands[j];
    }
  }

  lemma {:induction false} TwoCallbacks(commands: seq<Command>, p: Path, i: nat, j: nat)
    requires i < j < |commands| && commands[i].tokens == p && commands[j].tokens == p
    ensures |CallbacksAt(commands, p)| >= 2
    decreases |commands|
  {
    var front := commands[..|commands| - 1];
    if j < |front| {
      TwoCallbacks(front, p, i, j);
    } else {
      NoCallbacks(front, p);
      assert front[i].tokens == p;
    }
  }

  /** A way on from `p` is part of a command that starts with `p` and is longer. */
  lemma ChildCommand(commands: seq<Command>, p: Path, t: string) returns (j: nat)
    requires HasChild(commands, p, t)
    ensures j < |commands| && p <= commands[j].tokens && |p| < |commands[j].tokens|
  {
    j :| 0 <= j < |commands| && p + [t] <= commands[j].tokens;
    assert p <= p + [t];
  }

  /** A command can be called if and only if no other has its tokens or goes on from them; then its own callback runs. */
  lemma OwnCallbackIff(commands: seq<Command>, i: nat)
    requires i < |commands|
    ensures Call(commands, commands[i].tokens).Some? <==> Alone(commands, i)
    ensures Alone(commands, i) ==> Call(commands, commands[i].tokens) == Some(commands[i].callback)
  {
    var p := commands[i].tokens;
    assert InTrie(commands, p);
    assert [] + p == p;
    WalkAlong(commands, [], p);
    if Alone(commands, i) {
      CallbacksCount(commands, p, i);
      if t :| HasChild(commands, p, t) {
        var j := ChildCommand(commands, p, t);
      }
    } else {
      var j :| 0 <= j < |commands| && j != i && p <= commands[j].tokens;
      if commands[j].tokens == p {
        TwoCallbacks(commands, p, if i < j then i else j, if i < j then j else i);
      } else {
        var t := commands[j].tokens[|p|];
        assert p + [t] <= commands[j].tokens;
        assert HasChild(commands, p, t);
      }
    }
  }

  /** A path of the tree that is no complete command cannot be called. */
  lemma IncompleteFails(commands: seq<Command>, p: Path)
    requires InTrie(commands, p) && forall i :: 0 <= i < |commands| ==> commands[i].tokens != p
    ensures Call(commands, p) == None
  {
    assert [] + p == p;
    WalkAlong(commands, [], p);
    NoCallbacks(commands, p);
  }

  /** The tree agrees with the flat table when no command starts with another one's tokens. */
  lemma AgreesWithTable(commands: seq<Command>, p: Path)
    requires forall i, j :: 0 <= i < |commands| && 0 <= j < |commands| && i != j ==> !(commands[i].tokens <= commands[j].tokens)
    requires InTrie(commands, p)
    ensures forall i :: 0 <= i < |commands| && commands[i].tokens == p ==> Call(commands, p) == Some(commands[i].callback)
    ensures Call(commands, p).Some? <==> exists i :: 0 <= i < |commands| && commands[i].tokens == p
  {
    if i :| 0 <= i < |commands| && commands[i].tokens == p {
      assert Alone(commands, i);
      OwnCallbackIff(commands, i);
    } else {
      IncompleteFails(commands, p);
    }
  }

  lemma NoWayOn(commands: seq<Command>, p: Path, tokens: Path)
    requires tokens != [] && !HasChild(commands, p, tokens[0])
    ensures !InTrie(commands, p + tokens)
  {
    if i :| 0 <= i < |commands| && p + tokens <= commands[i].tokens {
      PrefixHead(p, tokens, commands[i].tokens);
    }
  }

  lemma PrefixHead(p: Path, tokens: Path, q: Path)
    requires tokens != [] && p + tokens <= q
    ensures p + [tokens[0]] <= q
  {
    assert p + tokens == p + [tokens[0]] + tokens[1..];
  }

  /** The path followed consists of tokens that were given, in order, but not of all of them: it is all of them exactly
      when they are a path of the tree. */
  lemma {:induction false} WalkKeepsAllIff(commands: seq<Command>, p: Path, tokens: Path)
    requires InTrie(commands, p)
    ensures InTrie(commands, Walk(commands, p, tokens)) && |Walk(commands, p, tokens)| <= |p| + |tokens|
    ensures Walk(commands, p, tokens) == p + tokens <==> InTrie(commands, p + tokens)
    decreases |tokens|
  {
    if tokens == [] {
      assert p + tokens == p;
    } else if HasChild(commands, p, tokens[0]) {
      WalkKeepsAllIff(commands, p + [tokens[0]], tokens[1..]);
      assert p + [tokens[0]] + tokens[1..] == p + tokens;
    } else {
      WalkKeepsAllIff(commands, p, tokens[1..]);
      NoWayOn(commands, p, tokens);
    }
  }

  /** Tokens the tree does not know are passed over: this line, which is no command, calls one. */
  lemma UnknownTokenIsSkipped(callback: Callback)
    ensures Call([Command(["show", "version"], callback)], ["show", "no", "version"]) == Some(callback)
  {
    var commands := [Command(["show", "version"], callback)];
    OwnCallbackIff(commands, 0);
    WalkAlong(commands, [], ["show"]);
    assert [] + ["show"] == ["show"] && ["show"] + ["version"] == ["show", "version"];
    assert ["show"] <= commands[0].tokens && commands[0].tokens <= commands[0].tokens;
    assert InTrie(commands, ["show"]) && InTrie(commands, ["show", "version"]);
    assert ["show", "no", "version"][1..] == ["no", "version"] && ["no", "version"][1..] == ["version"];
    assert HasChild(commands, [], "show") && HasChild(commands, ["show"], "version");
    assert !(["show"] + ["no"] <= commands[0].tokens) by { assert (["show"] + ["no"])[1] != commands[0].tokens[1]; }
    assert !HasChild(commands, ["show"], "no");
  }

  // ---- The table as a tree of paths --------------------------------------------------------------------------------

  /** Every path of the tree, with the callbacks that end there. */
  type Tree = map<Path, seq<Callback>>

  function Ext(p: Path, t: string): (q: Path)
    ensures |q| == |p| + 1 && q[..|p|] == p && q[|p|] == t
  {
    p + [t]
  }

  function Grow(tree: Tree, q: Path): Tree {
    if q in tree then tree else tree[q := []]
  }

  /** Adding a command whose tokens go on from `p` with `tokens`. */
  function AddTokens(tree: Tree, p: Path, tokens: Path, callback: Callback): Tree
    requires p in tree
    decreases |tokens|
  {
    if tokens == [] then tree[p := tree[p] + [callback]]
    else AddTokens(Grow(tree, Ext(p, tokens[0])), Ext(p, tokens[0]), tokens[1..], callback)
  }

  function WalkIn(tree: Tree, p: Path, tokens: Path): Path
    decreases |tokens|
  {
    if tokens == [] then p
    else if Ext(p, tokens[0]) in tree then WalkIn(tree, Ext(p, tokens[0]), tokens[1..])
    else WalkIn(tree, p, tokens[1..])
  }

  predicate Child(tree: Tree, p: Path, t: string) { Ext(p, t) in tree }

  ghost function OutcomeIn(tree: Tree, p: Path): Option<Callback>
    requires p in tree
  {
    if |tree[p]| == 1 && !(exists t :: Child(tree, p, t)) then Some(tree[p][0]) else None
  }

  /** The tree has the paths of the commands, with their callbacks; `partial` is the path of one more being added. */
  ghost predicate Represents(tree: Tree, commands: seq<Command>, partial: Path) {
    && (forall p :: p in tree <==> InTrie(commands, p) || p <= partial)
    && (forall p :: p in tree ==> tree[p] == CallbacksAt(commands, p))
  }

  lemma OneMoreCommand(commands: seq<Command>, m: Command, x: Path)
    ensures InTrie(commands + [m], x) <==> InTrie(commands, x) || x <= m.tokens
    ensures CallbacksAt(commands + [m], x) == CallbacksAt(commands, x) + if x == m.tokens then [m.callback] else []
  {
    var more := commands + [m];
    assert more[..|more| - 1] == commands;
    if i :| 0 <= i < |commands| && x <= commands[i].tokens {
      assert more[i] == commands[i];
    }
    if x <= m.tokens {
      assert more[|commands|] == m;
    }
  }

  lemma GrowRepresents(tree: Tree, commands: seq<Command>, p: Path, t: string)
    requires Represents(tree, commands, p) && p in tree
    ensures Represents(Grow(tree, Ext(p, t)), commands, Ext(p, t))
  {
    var q := Ext(p, t);
    if !InTrie(commands, q) { NoCallbacks(commands, q); }
    forall x ensures x in Grow(tree, q) <==> InTrie(commands, x) || x <= q {
      if x <= q && x != q { assert x <= p; }
    }
  }

  lemma EndRepresents(tree: Tree, commands: seq<Command>, p: Path, callback: Callback)
    requires Represents(tree, commands, p) && p in tree
    ensures Represents(tree[p := tree[p] + [callback]], commands + [Command(p, callback)], [])
  {
    forall x
      ensures InTrie(commands + [Command(p, callback)], x) <==> InTrie(commands, x) || x <= p
      ensures x in tree ==>
              CallbacksAt(commands + [Command(p, callback)], x) == CallbacksAt(commands, x) + if x == p then [callback] else []
    {
      OneMoreCommand(commands, Command(p, callback), x);
    }
  }

  lemma FirstThenRest(p: Path, tokens: Path)
    requires tokens != []
    ensures Ext(p, tokens[0]) + tokens[1..] == p + tokens
  {
  }

  /** The table that results is the old one with the command added. */
  lemma {:induction false} AddTokensRepresents(tree: Tree, commands: seq<Command>, p: Path, tokens: Path, callback: Callback)
    requires Represents(tree, commands, p) && p in tree
    ensures Represents(AddTokens(tree, p, tokens, callback), commands + [Command(p + tokens, callback)], [])
    decreases |tokens|
  {
    if tokens == [] {
      assert p + tokens == p;
      EndRepresents(tree, commands, p, callback);
    } else {
      var q := Ext(p, tokens[0]);
      GrowRepresents(tree, commands, p, tokens[0]);
      FirstThenRest(p, tokens);
      AddTokensRepresents(Grow(tree, q), commands, q, tokens[1..], callback);
    }
  }

  lemma {:induction false} RootStays(tree: Tree, p: Path, tokens: Path, callback: Callback)
    requires p in tree
    ensures forall x :: x in tree ==> x in AddTokens(tree, p, tokens, callback)
    decreases |tokens|
  {
    if tokens == [] {
    } else {
      RootStays(Grow(tree, Ext(p, tokens[0])), Ext(p, tokens[0]), tokens[1..], callback);
    }
  }

  /** The tree of a table, built by adding its commands one after the other. */
  ghost function TreeOf(commands: seq<Command>): (tree: Tree)
    ensures [] in tree
  {
    if commands == [] then map[[] := []]
    else
      var last := commands[|commands| - 1];
      var before := TreeOf(commands[..|commands| - 1]);
      RootStays(before, [], last.tokens, last.callback);
      AddTokens(before, [], last.tokens, last.callback)
  }

  lemma TreeOfSnoc(commands: seq<Command>, c: Command)
    ensures TreeOf(commands + [c]) == AddTokens(TreeOf(commands), [], c.tokens, c.callback)
  {
    assert (commands + [c])[..|commands|] == commands;
  }

  lemma {:induction false} TreeRepresents(commands: seq<Command>)
    ensures Represents(TreeOf(commands), commands, [])
  {
    if commands == [] {
    } else {
      var front, c := commands[..|commands| - 1], commands[|commands| - 1];
      assert commands == front + [c];
      TreeRepresents(front);
      assert [] + c.tokens == c.tokens;
      AddTokensRepresents(TreeOf(front), front, [], c.tokens, c.callback);
    }
  }

  lemma {:induction false} WalkInRepresents(tree: Tree, commands: seq<Command>, p: Path, tokens: Path)
    requires Represents(tree, commands, []) && p in tree
    ensures WalkIn(tree, p, tokens) == Walk(commands, p, tokens) && WalkIn(tree, p, tokens) in tree
    decreases |tokens|
  {
    if tokens == [] {
    } else {
      assert Ext(p, tokens[0]) in tree <==> HasChild(commands, p, tokens[0]);
      WalkInRepresents(tree, commands, if Ext(p, tokens[0]) in tree then Ext(p, tokens[0]) else p, tokens[1..]);
    }
  }

  /** Calling in the tree is calling in the table. */
  lemma CallInTree(commands: seq<Command>, tokens: Path)
    ensures var tree := TreeOf(commands);
            WalkIn(tree, [], tokens) in tree && OutcomeIn(tree, WalkIn(tree, [], tokens)) == Call(commands, tokens)
  {
    var tree := TreeOf(commands);
    TreeRepresents(commands);
    WalkInRepresents(tree, commands, [], tokens);
    var p := WalkIn(tree, [], tokens);
    forall t ensures Child(tree, p, t) <==> HasChild(commands, p, t) {
      assert p + [t] != [];
    }
  }
}
