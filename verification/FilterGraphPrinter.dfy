/**
  The printer of FilterGraph.cpp: a recursive walk that numbers nodes, emits a
  line per clip, function and array, and is proved to print the graph itself.
 */
module FilterGraphPrinter {
  import opened KeyedList
  import opened FilterGraph

  /** The printer's fields, and the node each created object is a copy of. */
  datatype Snapshot = Snapshot(numbers: map<Id, nat>, lines: seq<Line>, nextArray: nat, origin: seq<Id>)

  function VarOf(g: Graph, id: Id, number: nat): Var
    requires id in g
  {
    if g[id].isFunction then FuncVar(number + 1) else ClipVar(number + 1)
  }

  function RefTo(g: Graph, id: Id, k: nat): Value
    requires id in g
  {
    if g[id].isFunction then FuncRef(k) else ClipRef(k)
  }

  // --------------------------------------------------------------- invariant

  ghost predicate NumbersOk(g: Graph, root: Id, numbers: map<Id, nat>) {
    && (forall id :: id in numbers ==> id in g && Reach(g, root, id) && numbers[id] < |numbers|)
    && (forall a, b :: a in numbers && b in numbers && numbers[a] == numbers[b] ==> a == b)
  }

  /** Object k is the copy of origin[k] and is known by that node's variable. */
  ghost predicate CopyOk(g: Graph, s: Snapshot, m: Machine, k: nat)
    requires k < |s.origin| && k < |m.heap|
  {
    var id := s.origin[k];
    && id in g && id in s.numbers && Named(g[id])
    && SameNode(s.origin, g[id], m.heap[k])
    && var v := VarOf(g, id, s.numbers[id]); v in m.vars && m.vars[v] == RefTo(g, id, k)
  }

  ghost predicate VarOk(g: Graph, s: Snapshot, v: Var) {
    if v.ArrayVar? then v.n <= s.nextArray
    else exists id :: id in s.origin && id in s.numbers && v.n == s.numbers[id] + 1
  }

  ghost predicate Ok(g: Graph, root: Id, s: Snapshot) {
    && NumbersOk(g, root, s.numbers)
    && NoRepeats(s.origin)
    && Run(s.lines).Some?
    && var m := Run(s.lines).value;
    && |m.heap| == |s.origin|
    && (forall k :: 0 <= k < |s.origin| ==> CopyOk(g, s, m, k))
    && (forall v :: v in m.vars ==> VarOk(g, s, v))
  }

  /** Nodes numbered but not printed yet: those under way. */
  ghost function Opened(s: Snapshot): set<Id> {
    set id | id in s.numbers && id !in s.origin
  }

  ghost predicate Extends(m: Machine, n: Machine) {
    m.heap <= n.heap && forall v :: v in m.vars ==> v in n.vars && n.vars[v] == m.vars[v]
  }

  /** From s to t the walk only added, and everything it began it finished. */
  ghost predicate Grew(s: Snapshot, t: Snapshot) {
    && Run(s.lines).Some? && Run(t.lines).Some? && Extends(Run(s.lines).value, Run(t.lines).value)
    && s.origin <= t.origin
    && (forall id :: id in s.numbers ==> id in t.numbers && t.numbers[id] == s.numbers[id])
    && Opened(t) == Opened(s)
  }

  lemma GrewTrans(s: Snapshot, t: Snapshot, u: Snapshot)
    requires Grew(s, t) && Grew(t, u)
    ensures Grew(s, u)
  {
  }

  /** The printed argument evaluates to a copy of the value. */
  ghost predicate ArgOk(s: Snapshot, a: PrintedArg, name: string, v: Value) {
    && Run(s.lines).Some?
    && a.name == name && (v.Text? ==> a.expr == Quoted(v.chars)) && (a.expr.Quoted? ==> v.Text?)
    && var w := EvalExpr(Run(s.lines).value, a.expr); w.Some? && Same(s.origin, v, w.value)
  }

  /** The printed arguments are the items in order, under the given names, or under none. */
  ghost predicate ArgsOk(s: Snapshot, printed: seq<PrintedArg>, names: seq<string>, items: seq<Value>) {
    && |printed| <= |items| && NamesFit(names, |items|)
    && forall i :: 0 <= i < |printed| ==> ArgOk(s, printed[i], if names == [] then "" else names[i], items[i])
  }

  lemma ArgsGrow(s: Snapshot, t: Snapshot, printed: seq<PrintedArg>, names: seq<string>, items: seq<Value>)
    requires Grew(s, t) && ArgsOk(s, printed, names, items)
    ensures ArgsOk(t, printed, names, items)
  {
    forall i | 0 <= i < |printed| ensures ArgOk(t, printed[i], if names == [] then "" else names[i], items[i]) {
      assert ArgOk(s, printed[i], if names == [] then "" else names[i], items[i]);
      SameGrows(s.origin, t.origin, items[i], EvalExpr(Run(s.lines).value, printed[i].expr).value);
    }
  }

  // ------------------------------------------------------------ single moves

  lemma OriginNumbered(g: Graph, root: Id, s: Snapshot)
    requires Ok(g, root, s)
    ensures forall id :: id in s.origin ==> id in s.numbers
  {
    var m := Run(s.lines).value;
    forall k | 0 <= k < |s.origin| ensures s.origin[k] in s.numbers { assert CopyOk(g, s, m, k); }
  }

  lemma NumberNode(g: Graph, root: Id, s: Snapshot, id: Id)
    requires Ok(g, root, s) && id in g && Reach(g, root, id) && id !in s.numbers
    ensures var t := s.(numbers := s.numbers[id := |s.numbers|]); Ok(g, root, t) && Opened(t) == Opened(s) + {id}
    ensures id !in s.origin
  {
    hide SameNode, Run, Reach, NoRepeats, VarOk, CopyOk, NumbersOk;
    OriginNumbered(g, root, s);
    var t := s.(numbers := s.numbers[id := |s.numbers|]);
    var m := Run(s.lines).value;
    NumbersGrow(g, root, s.numbers, id);
    forall k | 0 <= k < |t.origin| ensures CopyOk(g, t, m, k) { CopyNumbered(g, s, m, k, id); }
    forall v | v in m.vars ensures VarOk(g, t, v) { VarNumbered(g, s, v, id); }
    assert Opened(t) == Opened(s) + {id};
  }

  lemma NumbersGrow(g: Graph, root: Id, numbers: map<Id, nat>, id: Id)
    requires NumbersOk(g, root, numbers) && id in g && Reach(g, root, id) && id !in numbers
    ensures NumbersOk(g, root, numbers[id := |numbers|])
  {
    hide Reach;
  }

  lemma CopyNumbered(g: Graph, s: Snapshot, m: Machine, k: nat, id: Id)
    requires k < |s.origin| && k < |m.heap| && CopyOk(g, s, m, k) && id !in s.numbers
    ensures CopyOk(g, s.(numbers := s.numbers[id := |s.numbers|]), m, k)
  {
    hide SameNode;
  }

  lemma VarNumbered(g: Graph, s: Snapshot, v: Var, id: Id)
    requires VarOk(g, s, v) && id !in s.numbers
    ensures VarOk(g, s.(numbers := s.numbers[id := |s.numbers|]), v)
  {
  }

  /** OutArray: the array's variable stands for a copy of the array. */
  lemma EmitArray(g: Graph, root: Id, s: Snapshot, printed: seq<PrintedArg>, items: seq<Value>)
    requires Ok(g, root, s) && ArgsOk(s, printed, [], items) && |printed| == |items|
    ensures var t := s.(lines := s.lines + [MakeArray(s.nextArray + 1, printed)], nextArray := s.nextArray + 1);
      && Ok(g, root, t) && Grew(s, t)
      && ArgOk(t, PrintedArg("", Use(ArrayVar(s.nextArray + 1))), "", Array(items))
  {
    hide SameNode, Reach, NoRepeats, NumbersOk;
    var m, line := Run(s.lines).value, MakeArray(s.nextArray + 1, printed);
    var t := s.(lines := s.lines + [line], nextArray := s.nextArray + 1);
    RunAppend(s.lines, line);
    ArgsEval(s, printed, [], items);
    hide Run;
    assert Target(line) in m.vars ==> VarOk(g, s, Target(line));
    var n := RunLine(m, line).value;
    forall k | 0 <= k < |t.origin| ensures CopyOk(g, t, n, k) { assert CopyOk(g, s, m, k); }
    forall v | v in n.vars ensures VarOk(g, t, v) { if v in m.vars { assert VarOk(g, s, v); } }
  }

  lemma ArgsEval(s: Snapshot, printed: seq<PrintedArg>, names: seq<string>, items: seq<Value>)
    requires ArgsOk(s, printed, names, items) && |printed| == |items| && Run(s.lines).Some?
    ensures var m := Run(s.lines).value;
      && CanEval(m, printed)
      && forall i :: 0 <= i < |items| ==> Same(s.origin, items[i], EvalArgs(m, printed)[i])
  {
    hide Run;
    var m := Run(s.lines).value;
    assert forall i :: 0 <= i < |printed| ==> ArgOk(s, printed[i], if names == [] then "" else names[i], items[i]);
  }

  /** The same for the text without line breaks. */
  lemma LineEval(s: Snapshot, printed: seq<PrintedArg>, names: seq<string>, items: seq<Value>)
    requires ArgsOk(s, printed, names, items) && |printed| == |items| && Run(s.lines).Some?
    ensures var m := Run(s.lines).value;
      && CanEval(m, OneLine(printed))
      && (forall i :: 0 <= i < |items| ==> SameArg(s.origin, items[i], EvalArgs(m, OneLine(printed))[i]))
      && ArgNames(OneLine(printed)) == if names == [] then seq(|items|, _ => "") else names
  {
    hide Run, WithoutBreaks;
    forall i | 0 <= i < |items|
      ensures var e := OneLine(printed)[i].expr; var w := EvalExpr(Run(s.lines).value, e); w.Some? && SameArg(s.origin, items[i], w.value)
      ensures OneLine(printed)[i].name == if names == [] then "" else names[i]
    {
      assert ArgOk(s, printed[i], if names == [] then "" else names[i], items[i]);
    }
  }

  function NodeLine(g: Graph, id: Id, number: nat, printed: seq<PrintedArg>): Line
    requires id in g
  {
    if g[id].isFunction then MakeFunc(number + 1, g[id].name, OneLine(printed)) else MakeClip(number + 1, g[id].name, OneLine(printed))
  }

  lemma NewVar(g: Graph, root: Id, s: Snapshot, id: Id)
    requires Ok(g, root, s) && id in s.numbers && id !in s.origin
    ensures VarOf(g, id, s.numbers[id]) !in Run(s.lines).value.vars
  {
    hide SameNode, Reach, Run;
    var v := VarOf(g, id, s.numbers[id]);
    assert v in Run(s.lines).value.vars ==> VarOk(g, s, v);
  }

  /** OutClip and OutFunc: the node under way gets its copy. */
  lemma EmitNode(g: Graph, root: Id, s: Snapshot, id: Id, printed: seq<PrintedArg>)
    requires Ok(g, root, s) && id in g && id in s.numbers && id !in s.origin && Named(g[id])
    requires ArgsOk(s, printed, g[id].argNames, g[id].args) && |printed| == |g[id].args|
    ensures var t := s.(lines := s.lines + [NodeLine(g, id, s.numbers[id], printed)], origin := s.origin + [id]);
      && Ok(g, root, t) && Opened(t) == Opened(s) - {id} && Run(t.lines).Some?
      && Extends(Run(s.lines).value, Run(t.lines).value)
  {
    hide Reach, NumbersOk;
    var m, line := Run(s.lines).value, NodeLine(g, id, s.numbers[id], printed);
    var t := s.(lines := s.lines + [line], origin := s.origin + [id]);
    NewVar(g, root, s, id);
    RunAppend(s.lines, line);
    LineEval(s, printed, g[id].argNames, g[id].args);
    hide Run, WithoutBreaks;
    var n := RunLine(m, line).value;
    forall k | 0 <= k < |t.origin| ensures CopyOk(g, t, n, k) {
      CopyStays(g, s, t, m, n, id, printed, k);
    }
    hide CopyOk, SameNode, ArgsOk;
    VarsStay(g, s, t, m, n, id, printed);
  }

  lemma VarsStay(g: Graph, s: Snapshot, t: Snapshot, m: Machine, n: Machine, id: Id, printed: seq<PrintedArg>)
    requires id in g && id in s.numbers && t.origin == s.origin + [id] && t.numbers == s.numbers && t.nextArray == s.nextArray
    requires RunLine(m, NodeLine(g, id, s.numbers[id], printed)) == Some(n)
    requires forall v :: v in m.vars ==> VarOk(g, s, v)
    ensures forall v :: v in n.vars ==> VarOk(g, t, v)
  {
    assert id in t.origin;
    forall v | v in n.vars ensures VarOk(g, t, v) {
      if v in m.vars { assert VarOk(g, s, v); }
    }
  }

  lemma CopyStays(g: Graph, s: Snapshot, t: Snapshot, m: Machine, n: Machine, id: Id, printed: seq<PrintedArg>, k: nat)
    requires id in g && Named(g[id]) && id in s.numbers && t.origin == s.origin + [id] && t.numbers == s.numbers && |m.heap| == |s.origin|
    requires k < |t.origin| && (k < |s.origin| ==> CopyOk(g, s, m, k))
    requires RunLine(m, NodeLine(g, id, s.numbers[id], printed)) == Some(n)
    requires |printed| == |g[id].args| && ArgNames(OneLine(printed)) == if g[id].argNames == [] then seq(|printed|, _ => "") else g[id].argNames
    requires forall i :: 0 <= i < |g[id].args| ==> SameArg(s.origin, g[id].args[i], EvalArgs(m, OneLine(printed))[i])
    ensures k < |n.heap| && CopyOk(g, t, n, k)
  {
    if k < |s.origin| {
      SameNodeGrows(s.origin, t.origin, g[s.origin[k]], m.heap[k]);
    } else {
      SameNodeGrows(s.origin, t.origin, g[id], n.heap[k]);
    }
  }

  function Begun(s: Snapshot, id: Id): Snapshot {
    s.(numbers := s.numbers[id := |s.numbers|])
  }

  function Finished(g: Graph, s: Snapshot, id: Id, printed: seq<PrintedArg>): Snapshot
    requires id in g && id in s.numbers
  {
    s.(lines := s.lines + [NodeLine(g, id, s.numbers[id], printed)], origin := s.origin + [id])
  }

  /** From numbering a node to printing it: s, then the walk from Begun(s) to w, then the line. */
  lemma FinishNode(g: Graph, root: Id, s: Snapshot, w: Snapshot, id: Id, printed: seq<PrintedArg>)
    requires Ok(g, root, s) && id in g && Named(g[id]) && Reach(g, root, id) && id !in s.numbers
    requires Ok(g, root, w) && Grew(Begun(s, id), w)
    requires ArgsOk(w, printed, g[id].argNames, g[id].args) && |printed| == |g[id].args|
    ensures id in w.numbers && Ok(g, root, Finished(g, w, id, printed)) && Grew(s, Finished(g, w, id, printed))
  {
    hide Ok, ArgsOk, Run, Reach, NodeLine, Extends;
    NumberNode(g, root, s, id);
    GrewOpened(Begun(s, id), w);
    EmitNode(g, root, w, id, printed);
    ExtendsTrans(s, w, Finished(g, w, id, printed));
  }

  lemma ExtendsTrans(s: Snapshot, w: Snapshot, t: Snapshot)
    requires Run(s.lines).Some? && Run(w.lines).Some? && Run(t.lines).Some?
    requires Extends(Run(s.lines).value, Run(w.lines).value) && Extends(Run(w.lines).value, Run(t.lines).value)
    ensures Extends(Run(s.lines).value, Run(t.lines).value)
  {
  }

  lemma GrewOpened(s: Snapshot, t: Snapshot)
    requires Grew(s, t)
    ensures Opened(t) == Opened(s)
  {
  }

  lemma GrewSelf(g: Graph, root: Id, s: Snapshot)
    requires Ok(g, root, s)
    ensures Grew(s, s)
  {
  }

  /** A printed node's variable stands for its copy. */
  lemma RefOk(g: Graph, root: Id, s: Snapshot, id: Id, v: Value)
    requires Ok(g, root, s) && id in s.origin && id in g
    requires v == RefTo(g, id, id)
    ensures id in s.numbers && ArgOk(s, PrintedArg("", Use(VarOf(g, id, s.numbers[id]))), "", v)
  {
    hide SameNode, NumbersOk, Run;
    var k :| 0 <= k < |s.origin| && s.origin[k] == id;
    assert CopyOk(g, s, Run(s.lines).value, k);
  }

  ghost predicate Above(ids: set<Id>, rank: map<Id, nat>, bound: nat) {
    forall id :: id in ids ==> id in rank && rank[id] >= bound
  }

  ghost predicate ReadyAt(g: Graph, root: Id, rank: map<Id, nat>, bound: nat, s: Snapshot) {
    WellFormed(g, rank) && Ok(g, root, s) && Above(Opened(s), rank, bound)
  }

  lemma ReadyGrew(g: Graph, root: Id, rank: map<Id, nat>, bound: nat, s: Snapshot, t: Snapshot)
    requires ReadyAt(g, root, rank, bound, s) && Grew(s, t) && Ok(g, root, t)
    ensures ReadyAt(g, root, rank, bound, t)
  {
  }

  /** Going down from a numbered node, every open node is at its rank or above. */
  lemma ReadyBelow(g: Graph, root: Id, rank: map<Id, nat>, s: Snapshot, id: Id)
    requires id in g && id in rank && Reach(g, root, id) && id !in s.numbers && ReadyAt(g, root, rank, rank[id] + 1, s)
    ensures ReadyAt(g, root, rank, rank[id], Begun(s, id)) && RefsOk(g, rank, rank[id], Array(g[id].args))
    ensures forall c :: Mentions(Array(g[id].args), c) ==> Child(g, id, c)
  {
    hide Ok, Reach;
    NumberNode(g, root, s, id);
    assert NodeOk(g, rank, id);
  }

  lemma NumberedIsDone(g: Graph, root: Id, rank: map<Id, nat>, s: Snapshot, id: Id)
    requires id in rank && id in s.numbers && ReadyAt(g, root, rank, rank[id] + 1, s)
    ensures id in s.origin
  {
    assert id in s.origin || id in Opened(s);
  }

  lemma ReadyLower(g: Graph, root: Id, rank: map<Id, nat>, bound: nat, lower: nat, s: Snapshot)
    requires ReadyAt(g, root, rank, bound, s) && lower <= bound
    ensures ReadyAt(g, root, rank, lower, s)
  {
  }

  // ---------------------------------------------------------------- the walk

  class Printer {
    const graph: Graph
    var nodeMap: map<Id, nat>
    var output: seq<Line>
    var nextArrayNumber: nat
    ghost var origin: seq<Id>

    constructor (graph: Graph)
      ensures this.graph == graph && nodeMap == map[] && output == [] && nextArrayNumber == 0 && origin == []
    {
      this.graph := graph;
      nodeMap, output, nextArrayNumber, origin := map[], [], 0, [];
    }

    ghost function State(): Snapshot
      reads this
    {
      Snapshot(nodeMap, output, nextArrayNumber, origin)
    }

    /** A line that is no assignment was printed, and the root does need a clip without information. */
    ghost predicate Lost(root: Id)
      reads this
    {
      Broken(output) && !AllNamed(graph, root)
    }

    /** As long as the graph is plain, so are the lines. */
    ghost predicate Tidy(root: Id)
      reads this
    {
      AllPlain(graph, root) ==> AllScript(output)
    }

    /** Either the walk is in order, or the script is lost. */
    ghost predicate Ready(root: Id, rank: map<Id, nat>, bound: nat)
      reads this
    {
      WellFormed(graph, rank) && Tidy(root) && (Lost(root) || ReadyAt(graph, root, rank, bound, State()))
    }

    /** Numbers, walks and prints one clip, once. */
    method DoClip(id: Id, ghost root: Id, ghost rank: map<Id, nat>) returns (number: nat)
      requires id in graph && !graph[id].isFunction && Reach(graph, root, id)
      requires id in rank && Ready(root, rank, rank[id] + 1)
      modifies this
      ensures old(output) <= output && forall k :: k in old(nodeMap) ==> k in nodeMap
      ensures id in nodeMap && number == nodeMap[id] && Tidy(root)
      ensures Lost(root) || (!old(Lost(root)) && Ok(graph, root, State()) && Grew(old(State()), State()) && id in origin)
      decreases rank[id]
    {
      hide Ok, Grew, ReadyAt, ArgsOk, RefsOk, Reach, Mentions, Child, WellFormed, AllNamed, AllPlain, IsScript;
      ghost var start := State();
      if id in nodeMap {
        SeenBefore(root, rank, id);
      } else {
        BelowOk(root, rank, id);
        nodeMap := nodeMap[id := |nodeMap|];
        var args := DoArray(graph[id].argNames, Array(graph[id].args), id, root, rank, rank[id]);
        if graph[id].name == "" {
          output := output + [NoInfo(nodeMap[id] + 1)];
          LastLine(output);
          NotNamed(graph, root, id);
          NotPlain(graph, root, id);
        } else {
          if !Lost(root) { FinishNode(graph, root, start, State(), id, args); }
          ghost var before := output;
          output := output + [MakeClip(nodeMap[id] + 1, graph[id].name, OneLine(args))];
          origin := origin + [id];
          StillBroken(before, output);
          if AllPlain(graph, root) { PlainLine(nodeMap[id] + 1, graph[id].name, args); }
        }
      }
      number := nodeMap[id];
    }

    /** The same for a function and its captures. */
    method DoFunc(id: Id, ghost root: Id, ghost rank: map<Id, nat>) returns (number: nat)
      requires id in graph && graph[id].isFunction && Reach(graph, root, id)
      requires id in rank && Ready(root, rank, rank[id] + 1)
      modifies this
      ensures old(output) <= output && forall k :: k in old(nodeMap) ==> k in nodeMap
      ensures id in nodeMap && number == nodeMap[id] && Tidy(root)
      ensures Lost(root) || (!old(Lost(root)) && Ok(graph, root, State()) && Grew(old(State()), State()) && id in origin)
      decreases rank[id]
    {
      hide Ok, Grew, ReadyAt, ArgsOk, RefsOk, Reach, Mentions, Child, WellFormed, AllNamed, AllPlain, IsScript;
      ghost var start := State();
      if id in nodeMap {
        SeenBefore(root, rank, id);
      } else {
        BelowOk(root, rank, id);
        nodeMap := nodeMap[id := |nodeMap|];
        var args := DoArray(graph[id].argNames, Array(graph[id].args), id, root, rank, rank[id]);
        if !Lost(root) { FinishNode(graph, root, start, State(), id, args); }
        ghost var before := output;
        output := output + [MakeFunc(nodeMap[id] + 1, graph[id].name, OneLine(args))];
        origin := origin + [id];
        StillBroken(before, output);
        NotPlain(graph, root, id);
      }
      number := nodeMap[id];
    }

    /** A numbered node that is not under way was printed. */
    lemma SeenBefore(root: Id, rank: map<Id, nat>, id: Id)
      requires id in rank && id in nodeMap && Ready(root, rank, rank[id] + 1)
      ensures Lost(root) || (Ok(graph, root, State()) && Grew(State(), State()) && id in origin)
    {
      if !Lost(root) {
        ReadyOk(graph, root, rank, rank[id] + 1, State());
        NumberedIsDone(graph, root, rank, State(), id);
        GrewSelf(graph, root, State());
      }
    }

    /** What holds when the walk goes below a node not seen before. */
    lemma BelowOk(root: Id, rank: map<Id, nat>, id: Id)
      requires id in graph && Reach(graph, root, id) && id in rank && id !in nodeMap && Ready(root, rank, rank[id] + 1)
      ensures RefsOk(graph, rank, rank[id], Array(graph[id].args)) && NamesFit(graph[id].argNames, |graph[id].args|)
      ensures forall c :: Mentions(Array(graph[id].args), c) ==> Child(graph, id, c)
      ensures Lost(root) || (Ok(graph, root, State()) && ReadyAt(graph, root, rank, rank[id], Begun(State(), id)))
    {
      assert NodeOk(graph, rank, id);
      if !Lost(root) {
        ReadyOk(graph, root, rank, rank[id] + 1, State());
        ReadyBelow(graph, root, rank, State(), id);
      }
    }

    /** Prints the elements of one array, walking what they refer to first. */
    method DoArray(names: seq<string>, arr: Value, ghost owner: Id, ghost root: Id, ghost rank: map<Id, nat>, ghost bound: nat)
      returns (printed: seq<PrintedArg>)
      requires arr.Array? && NamesFit(names, |arr.items|) && RefsOk(graph, rank, bound, arr) && Ready(root, rank, bound)
      requires Reach(graph, root, owner) && forall id :: Mentions(arr, id) ==> Child(graph, owner, id)
      requires AllPlain(graph, root) ==> owner in graph && arr.items == graph[owner].args
      modifies this
      ensures old(output) <= output && forall id :: id in old(nodeMap) ==> id in nodeMap
      ensures |printed| == |arr.items| && Tidy(root)
      ensures forall i :: 0 <= i < |printed| ==> printed[i].name == if names == [] then "" else names[i]
      ensures AllPlain(graph, root) ==> AllReadable(printed)
      ensures Lost(root) || (!old(Lost(root)) && Ok(graph, root, State()) && Grew(old(State()), State()) && ArgsOk(State(), printed, names, arr.items))
      decreases bound, arr, 0
    {
      hide Ok, Grew, ReadyAt, Reach, Child, ArgOk, WellFormed, AllNamed, Broken, AllPlain, AllScript, Readable;
      if !Lost(root) {
        ReadyOk(graph, root, rank, bound, State());
        GrewSelf(graph, root, State());
      }
      printed := [];
      for i := 0 to |arr.items|
        invariant |printed| == i && old(output) <= output && Ready(root, rank, bound)
        invariant AllPlain(graph, root) ==> AllReadable(printed)
        invariant forall j :: 0 <= j < i ==> printed[j].name == if names == [] then "" else names[j]
        invariant forall id :: id in old(nodeMap) ==> id in nodeMap
        invariant Lost(root) || (!old(Lost(root)) && Ok(graph, root, State()) && Grew(old(State()), State()) && ArgsOk(State(), printed, names, arr.items))
      {
        ghost var before := State();
        var name := if |names| > 0 then names[i] else "";
        var expr := DoValue(arr.items[i], owner, root, rank, bound);
        if !Lost(root) {
          ArgsGrow(before, State(), printed, names, arr.items);
          GrewTrans(old(State()), before, State());
          ReadyGrew(graph, root, rank, bound, before, State());
          ArgNamed(State(), expr, name, arr.items[i]);
        }
        printed := printed + [PrintedArg(name, expr)];
      }
    }

    /** The branch of DoArray on the type of one element. */
    method DoValue(v: Value, ghost owner: Id, ghost root: Id, ghost rank: map<Id, nat>, ghost bound: nat) returns (expr: Expr)
      requires RefsOk(graph, rank, bound, v) && Ready(root, rank, bound)
      requires Reach(graph, root, owner) && forall id :: Mentions(v, id) ==> Child(graph, owner, id)
      requires AllPlain(graph, root) ==> owner in graph && v in graph[owner].args
      modifies this
      ensures old(output) <= output && (forall id :: id in old(nodeMap) ==> id in nodeMap) && Tidy(root)
      ensures AllPlain(graph, root) ==> Readable(expr)
      ensures Lost(root) || (!old(Lost(root)) && Ok(graph, root, State()) && Grew(old(State()), State()) && ArgOk(State(), PrintedArg("", expr), "", v))
      decreases bound, v, 1
    {
      hide Ok, Grew, ReadyAt, Reach, Child, ArgsOk, ArgOk, WellFormed, AllNamed, Broken, AllPlain, IsScript;
      if !Lost(root) {
        ReadyOk(graph, root, rank, bound, State());
        GrewSelf(graph, root, State());
      }
      if AllPlain(graph, root) { PlainMember(graph, root, owner, v); }
      match v
      case Undefined =>
        expr := Default;
        if !Lost(root) { ScalarOk(graph, root, State(), expr, v); }
      case Literal(text) =>
        expr := Const(text);
        if !Lost(root) { ScalarOk(graph, root, State(), expr, v); }
      case Text(chars) =>
        expr := Quoted(chars);
        if !Lost(root) { ScalarOk(graph, root, State(), expr, v); }
      case ClipRef(id) =>
        ReachChild(graph, root, owner, id);
        if !Lost(root) { ReadyLower(graph, root, rank, bound, rank[id] + 1, State()); }
        var n := DoClip(id, root, rank);
        if !Lost(root) { RefOk(graph, root, State(), id, v); }
        expr := Use(ClipVar(n + 1));
      case FuncRef(id) =>
        ReachChild(graph, root, owner, id);
        if !Lost(root) { ReadyLower(graph, root, rank, bound, rank[id] + 1, State()); }
        var n := DoFunc(id, root, rank);
        if !Lost(root) { RefOk(graph, root, State(), id, v); }
        expr := Use(FuncVar(n + 1));
      case Array(items) =>
        var args := DoArray([], v, owner, root, rank, bound);
        ghost var before := State();
        if !Lost(root) { EmitArray(graph, root, before, args, items); }
        nextArrayNumber := nextArrayNumber + 1;
        output := output + [MakeArray(nextArrayNumber, args)];
        StillBroken(before.lines, output);
        if !Lost(root) { GrewTrans(old(State()), before, State()); }
        expr := Use(ArrayVar(nextArrayNumber));
    }

    /**
      Prints the whole graph below root. Read as let-bindings, the lines bind if
      and only if every clip that root needs is a graph node with a name; they
      then rebuild the reachable graph, and the returned number names root's
      copy. As a script they run if and only if, beyond that, no function,
      array, undefined value or quote in a string is needed.
     */
    method Construct(root: Id, ghost rank: map<Id, nat>) returns (last: nat)
      requires root in graph && !graph[root].isFunction && WellFormed(graph, rank)
      requires output == [] && nextArrayNumber == 0
      modifies this
      ensures Run(output).Some? <==> AllNamed(graph, root)
      ensures RunScript(output).Some? <==> AllPlain(graph, root)
      ensures Run(output).Some? ==>
        var m := Run(output).value;
        && Rebuilds(graph, root, m.heap, origin)
        && ClipVar(last + 1) in m.vars && Same(origin, ClipRef(root), m.vars[ClipVar(last + 1)])
    {
      hide Ok, Grew, ReadyAt, Reach, AllNamed, AllPlain, Rebuilds;
      nodeMap, origin := map[], [];
      StartReady(graph, root, rank, State());
      last := DoClip(root, root, rank);
      PlainIsNamed(graph, root);
      if Lost(root) {
        BrokenFails(output);
      } else {
        AllRebuilt(graph, root, State());
        if AllScript(output) { RebuiltByScript(graph, root, output, origin); }
      }
    }
  }

  predicate AllReadable(args: seq<PrintedArg>) {
    forall i :: 0 <= i < |args| ==> Readable(args[i].expr)
  }

  /** Taking line breaks out puts no quote in. */
  lemma PlainLine(n: nat, name: string, args: seq<PrintedArg>)
    requires AllReadable(args)
    ensures IsScript(MakeClip(n, name, OneLine(args)))
  {
    hide WithoutBreaks;
    forall i | 0 <= i < |args| ensures Readable(OneLine(args)[i].expr) {
      assert Readable(args[i].expr);
      if args[i].expr.Quoted? { WithoutBreaksIs(args[i].expr.chars); }
    }
  }

  lemma PlainMember(g: Graph, root: Id, owner: Id, v: Value)
    requires AllPlain(g, root) && owner in g && Reach(g, root, owner) && v in g[owner].args
    ensures PlainArg(v)
  {
    hide Reach;
  }

  lemma NotPlain(g: Graph, root: Id, id: Id)
    requires id in g && Reach(g, root, id) && (g[id].isFunction || g[id].name == "")
    ensures !AllPlain(g, root)
  {
    hide Reach;
  }

  lemma PlainIsNamed(g: Graph, root: Id)
    ensures AllPlain(g, root) ==> AllNamed(g, root)
  {
    hide Reach;
  }

  lemma LastLine(lines: seq<Line>)
    requires lines != [] && lines[|lines| - 1].NoInfo?
    ensures Broken(lines)
  {
  }

  lemma StillBroken(lines: seq<Line>, more: seq<Line>)
    requires lines <= more
    ensures Broken(lines) ==> Broken(more)
    ensures Broken(more) && |more| == |lines| + 1 && !more[|lines|].NoInfo? ==> Broken(lines)
  {
    if Broken(lines) {
      var i :| 0 <= i < |lines| && lines[i].NoInfo?;
      assert more[i].NoInfo?;
    }
    if Broken(more) && |more| == |lines| + 1 && !more[|lines|].NoInfo? {
      var i :| 0 <= i < |more| && more[i].NoInfo?;
      assert lines[i].NoInfo?;
    }
  }

  lemma NotNamed(g: Graph, root: Id, id: Id)
    requires id in g && Reach(g, root, id) && !Named(g[id])
    ensures !AllNamed(g, root)
  {
  }

  lemma ReadyOk(g: Graph, root: Id, rank: map<Id, nat>, bound: nat, s: Snapshot)
    requires ReadyAt(g, root, rank, bound, s)
    ensures Ok(g, root, s) && WellFormed(g, rank)
  {
  }

  lemma ArgNamed(s: Snapshot, expr: Expr, name: string, v: Value)
    requires ArgOk(s, PrintedArg("", expr), "", v)
    ensures ArgOk(s, PrintedArg(name, expr), name, v)
  {
  }

  lemma ScalarOk(g: Graph, root: Id, s: Snapshot, expr: Expr, v: Value)
    requires Ok(g, root, s)
    requires (expr == Default && v == Undefined) || (v.Literal? && expr == Const(v.text)) || (v.Text? && expr == Quoted(v.chars))
    ensures ArgOk(s, PrintedArg("", expr), "", v)
  {
  }

  lemma StartReady(g: Graph, root: Id, rank: map<Id, nat>, s: Snapshot)
    requires s == Snapshot(map[], [], 0, []) && WellFormed(g, rank) && root in g
    ensures root in rank && ReadyAt(g, root, rank, rank[root] + 1, s) && Reach(g, root, root)
  {
    assert NodeOk(g, rank, root);
    ReachSelf(g, root);
  }

  lemma AllRebuilt(g: Graph, root: Id, s: Snapshot)
    requires Ok(g, root, s) && root in s.origin && root in g && !g[root].isFunction
    ensures Run(s.lines).Some? && root in s.numbers
    ensures var m := Run(s.lines).value;
      && Rebuilds(g, root, m.heap, s.origin) && AllNamed(g, root)
      && var v := ClipVar(s.numbers[root] + 1); v in m.vars && Same(s.origin, ClipRef(root), m.vars[v])
  {
    hide SameNode, Run;
    var m := Run(s.lines).value;
    forall k | 0 <= k < |s.origin| ensures s.origin[k] in g && Named(g[s.origin[k]]) && SameNode(s.origin, g[s.origin[k]], m.heap[k]) {
      assert CopyOk(g, s, m, k);
    }
    hide CopyOk;
    forall id | Reach(g, root, id) ensures id in s.origin {
      var path :| Path(g, path) && path[0] == root && path[|path| - 1] == id;
      ReachableCopied(g, m.heap, s.origin, path);
    }
    hide Reach;
    OriginNumbered(g, root, s);
    RefOk(g, root, s, root, ClipRef(root));
  }
}
