/**
  Filter graphs and the scripts printed from them (FilterGraph.cpp): the graph,
  the lines of a script, what the lines bind, read as let-bindings, and which
  of them the script language reads that way.
 */
module FilterGraph {
  import opened KeyedList

  type Id = nat

  /** An AVSValue; a number or a boolean is the text it is printed as. */
  datatype Value =
    | Undefined
    | ClipRef(id: Id)
    | FuncRef(id: Id)
    | Array(items: seq<Value>)
    | Literal(text: string)
    | Text(chars: string)

  /**
    A FilterGraphNode or an IFunction; `argNames` is empty or has one name, maybe
    "", per argument. A clip without a name, or one that is no graph node, has
    the name "".
   */
  datatype Node = Node(isFunction: bool, name: string, argNames: seq<string>, args: seq<Value>)

  type Graph = map<Id, Node>

  datatype Var = ClipVar(n: nat) | FuncVar(n: nat) | ArrayVar(n: nat)

  datatype Expr = Default | Use(v: Var) | Const(text: string) | Quoted(chars: string)

  datatype PrintedArg = PrintedArg(name: string, expr: Expr)

  datatype Line =
    | MakeClip(n: nat, name: string, args: seq<PrintedArg>)
    | MakeFunc(n: nat, name: string, args: seq<PrintedArg>)
    | MakeArray(n: nat, args: seq<PrintedArg>)
    | NoInfo(n: nat)

  /** One name per argument, or none at all. */
  predicate NamesFit(names: seq<string>, count: nat) {
    names == [] || |names| == count
  }

  /** ReplaceAll(args, "\n", ""). */
  function WithoutBreaks(s: string): string {
    if s == [] then [] else (if s[0] == '\n' then [] else [s[0]]) + WithoutBreaks(s[1..])
  }

  lemma {:induction false} WithoutBreaksIs(s: string)
    ensures WithoutBreaks(s) == s <==> '\n' !in s
    ensures |WithoutBreaks(s)| <= |s|
    ensures forall c :: c in WithoutBreaks(s) <==> c in s && c != '\n'
    decreases |s|
  {
    if s != [] {
      WithoutBreaksIs(s[1..]);
      assert s == [s[0]] + s[1..];
    }
  }

  /** Piece by piece. */
  lemma {:induction false} WithoutBreaksJoin(a: string, b: string)
    ensures WithoutBreaks(a + b) == WithoutBreaks(a) + WithoutBreaks(b)
    decreases |a|
  {
    if a == [] {
      assert a + b == b;
    } else {
      assert (a + b)[1..] == a[1..] + b;
      WithoutBreaksJoin(a[1..], b);
    }
  }

  function OneLine(args: seq<PrintedArg>): (r: seq<PrintedArg>)
    ensures |r| == |args|
  {
    seq(|args|, i requires 0 <= i < |args| =>
      if args[i].expr.Quoted? then args[i].(expr := Quoted(WithoutBreaks(args[i].expr.chars))) else args[i])
  }

  // ----------------------------------------------------- lines as let-bindings

  /** The objects created so far, in order, and the variables. */
  datatype Machine = Machine(heap: seq<Node>, vars: map<Var, Value>)

  const BLANK: Machine := Machine([], map[])

  function EvalExpr(m: Machine, e: Expr): Option<Value> {
    match e
    case Default => Some(Undefined)
    case Const(text) => Some(Literal(text))
    case Quoted(chars) => Some(Text(chars))
    case Use(v) => if v in m.vars then Some(m.vars[v]) else None
  }

  predicate CanEval(m: Machine, args: seq<PrintedArg>) {
    forall i :: 0 <= i < |args| ==> EvalExpr(m, args[i].expr).Some?
  }

  function EvalArgs(m: Machine, args: seq<PrintedArg>): seq<Value>
    requires CanEval(m, args)
  {
    seq(|args|, i requires 0 <= i < |args| => EvalExpr(m, args[i].expr).value)
  }

  function ArgNames(args: seq<PrintedArg>): seq<string> {
    seq(|args|, i requires 0 <= i < |args| => args[i].name)
  }

  function Target(line: Line): Var {
    match line
    case MakeClip(n, _, _) => ClipVar(n)
    case MakeFunc(n, _, _) => FuncVar(n)
    case MakeArray(n, _) => ArrayVar(n)
    case NoInfo(n) => ClipVar(n)
  }

  /** A line fails on an undefined variable, or if it is no assignment; assigning a variable twice also counts as failure. */
  function RunLine(m: Machine, line: Line): Option<Machine> {
    if line.NoInfo? then None
    else if !CanEval(m, line.args) || Target(line) in m.vars then None
    else
      var vs := EvalArgs(m, line.args);
      match line
      case MakeArray(n, _) => Some(m.(vars := m.vars[ArrayVar(n) := Array(vs)]))
      case MakeClip(n, name, args) =>
        Some(Machine(m.heap + [Node(false, name, ArgNames(args), vs)], m.vars[ClipVar(n) := ClipRef(|m.heap|)]))
      case MakeFunc(n, name, args) =>
        Some(Machine(m.heap + [Node(true, name, ArgNames(args), vs)], m.vars[FuncVar(n) := FuncRef(|m.heap|)]))
  }

  function Run(lines: seq<Line>): Option<Machine> {
    if lines == [] then Some(BLANK)
    else match Run(lines[..|lines| - 1])
      case None => None
      case Some(m) => RunLine(m, lines[|lines| - 1])
  }

  lemma RunAppend(lines: seq<Line>, line: Line)
    requires Run(lines).Some?
    ensures Run(lines + [line]) == RunLine(Run(lines).value, line)
  {
    assert (lines + [line])[..|lines|] == lines;
  }

  predicate Uses(line: Line, v: Var) {
    !line.NoInfo? && exists i :: 0 <= i < |line.args| && line.args[i].expr == Use(v)
  }

  lemma {:induction false} RunVars(lines: seq<Line>, v: Var)
    requires Run(lines).Some? && v in Run(lines).value.vars
    ensures exists i :: 0 <= i < |lines| && Target(lines[i]) == v
    decreases |lines|
  {
    if lines != [] {
      var last := |lines| - 1;
      if Target(lines[last]) != v {
        RunVars(lines[..last], v);
        var i :| 0 <= i < last && Target(lines[..last][i]) == v;
        assert Target(lines[i]) == v;
      }
    }
  }

  lemma {:induction false} RunDefined(lines: seq<Line>, i: nat)
    requires Run(lines).Some? && i < |lines|
    ensures Run(lines[..i]).Some? && Target(lines[i]) in Run(lines).value.vars
    ensures !lines[i].NoInfo? && CanEval(Run(lines[..i]).value, lines[i].args) && Target(lines[i]) !in Run(lines[..i]).value.vars
    decreases |lines|
  {
    var last := |lines| - 1;
    if i < last {
      RunDefined(lines[..last], i);
      assert lines[..last][..i] == lines[..i];
    }
  }

  /** What a successful run means: every variable is assigned once, and before it is used. */
  lemma RunMeansDefined(lines: seq<Line>)
    requires Run(lines).Some?
    ensures forall i, j :: 0 <= i < j < |lines| ==> Target(lines[i]) != Target(lines[j])
    ensures forall j, v :: 0 <= j < |lines| && Uses(lines[j], v) ==> exists i :: 0 <= i < j && Target(lines[i]) == v
  {
    forall i, j | 0 <= i < j < |lines| ensures Target(lines[i]) != Target(lines[j]) {
      RunDefined(lines, j);
      RunDefined(lines[..j], i);
    }
    forall j, v | 0 <= j < |lines| && Uses(lines[j], v) ensures exists i :: 0 <= i < j && Target(lines[i]) == v {
      RunDefined(lines, j);
      var k :| 0 <= k < |lines[j].args| && lines[j].args[k].expr == Use(v);
      assert EvalExpr(Run(lines[..j]).value, lines[j].args[k].expr).Some?;
      RunVars(lines[..j], v);
      var i :| 0 <= i < j && Target(lines[..j][i]) == v;
      assert Target(lines[i]) == v;
    }
  }

  // -------------------------------------------------- graphs and their copies

  /** The references of a value, arrays included, are nodes of the right kind satisfying `below`. */
  ghost predicate RefsOk(g: Graph, rank: map<Id, nat>, bound: nat, v: Value) {
    match v
    case ClipRef(id) => id in g && !g[id].isFunction && id in rank && rank[id] < bound
    case FuncRef(id) => id in g && g[id].isFunction && id in rank && rank[id] < bound
    case Array(items) => forall i :: 0 <= i < |items| ==> RefsOk(g, rank, bound, items[i])
    case _ => true
  }

  ghost predicate NodeOk(g: Graph, rank: map<Id, nat>, id: Id)
    requires id in g
  {
    && id in rank && NamesFit(g[id].argNames, |g[id].args|)
    && (forall i :: 0 <= i < |g[id].args| ==> RefsOk(g, rank, rank[id], g[id].args[i]))
  }

  /** Acyclic (arguments have lower rank) and closed, the arguments named all or not at all. */
  ghost predicate WellFormed(g: Graph, rank: map<Id, nat>) {
    forall id :: id in g ==> NodeOk(g, rank, id)
  }

  predicate Mentions(v: Value, id: Id) {
    match v
    case ClipRef(k) => k == id
    case FuncRef(k) => k == id
    case Array(items) => exists i :: 0 <= i < |items| && Mentions(items[i], id)
    case _ => false
  }

  predicate Child(g: Graph, a: Id, b: Id) {
    a in g && exists i :: 0 <= i < |g[a].args| && Mentions(g[a].args[i], b)
  }

  predicate Path(g: Graph, path: seq<Id>) {
    path != [] && forall i :: 0 <= i < |path| - 1 ==> Child(g, path[i], path[i + 1])
  }

  ghost predicate Reach(g: Graph, a: Id, b: Id) {
    exists path :: Path(g, path) && path[0] == a && path[|path| - 1] == b
  }

  lemma ReachSelf(g: Graph, a: Id)
    ensures Reach(g, a, a)
  {
    assert Path(g, [a]) && [a][0] == a;
  }

  lemma ReachChild(g: Graph, a: Id, b: Id, c: Id)
    requires Reach(g, a, b) && Child(g, b, c)
    ensures Reach(g, a, c)
  {
    var path :| Path(g, path) && path[0] == a && path[|path| - 1] == b;
    var more := path + [c];
    forall i | 0 <= i < |more| - 1 ensures Child(g, more[i], more[i + 1]) {
      if i < |path| - 1 { assert Child(g, path[i], path[i + 1]); }
    }
    assert Path(g, more) && more[0] == a && more[|more| - 1] == c;
  }

  /** w is v with every node replaced by its copy; object k is the copy of origin[k]. */
  ghost predicate Same(origin: seq<Id>, v: Value, w: Value) {
    match v
    case Undefined => w.Undefined?
    case Literal(_) => w == v
    case Text(_) => w == v
    case ClipRef(id) => w.ClipRef? && w.id < |origin| && origin[w.id] == id
    case FuncRef(id) => w.FuncRef? && w.id < |origin| && origin[w.id] == id
    case Array(items) => w.Array? && |w.items| == |items| && forall i :: 0 <= i < |items| ==> Same(origin, items[i], w.items[i])
  }

  /** A direct argument loses the line breaks of a string, and nothing else. */
  ghost predicate SameArg(origin: seq<Id>, v: Value, w: Value) {
    if v.Text? then w == Text(WithoutBreaks(v.chars)) else Same(origin, v, w)
  }

  ghost predicate SameNode(origin: seq<Id>, a: Node, b: Node) {
    && b.isFunction == a.isFunction && b.name == a.name && |b.args| == |a.args|
    && (if a.argNames == [] then b.argNames == seq(|a.args|, _ => "") else b.argNames == a.argNames)
    && forall i :: 0 <= i < |a.args| ==> SameArg(origin, a.args[i], b.args[i])
  }

  lemma {:induction false} SameGrows(origin: seq<Id>, origin': seq<Id>, v: Value, w: Value)
    requires Same(origin, v, w) && origin <= origin'
    ensures Same(origin', v, w)
  {
    match v
    case Array(items) =>
      forall i | 0 <= i < |items| ensures Same(origin', items[i], w.items[i]) {
        SameGrows(origin, origin', items[i], w.items[i]);
      }
    case _ =>
  }

  lemma SameNodeGrows(origin: seq<Id>, origin': seq<Id>, a: Node, b: Node)
    requires SameNode(origin, a, b) && origin <= origin'
    ensures SameNode(origin', a, b)
  {
    forall i | 0 <= i < |a.args| ensures SameArg(origin', a.args[i], b.args[i]) {
      if !a.args[i].Text? { SameGrows(origin, origin', a.args[i], b.args[i]); }
    }
  }

  /** A value with a copy mentions copied nodes only. */
  lemma {:induction false} SameMentions(origin: seq<Id>, v: Value, w: Value, id: Id)
    requires Same(origin, v, w) && Mentions(v, id)
    ensures id in origin
  {
    match v
    case Array(items) =>
      var i :| 0 <= i < |items| && Mentions(items[i], id);
      SameMentions(origin, items[i], w.items[i], id);
    case _ =>
  }

  /** Functions need no name, clips do. */
  predicate Named(n: Node) {
    n.isFunction || n.name != ""
  }

  /** Every clip that the root needs is a graph node with a name. */
  ghost predicate AllNamed(g: Graph, root: Id) {
    forall id :: id in g && Reach(g, root, id) ==> Named(g[id])
  }

  ghost predicate Broken(lines: seq<Line>) {
    exists i :: 0 <= i < |lines| && lines[i].NoInfo?
  }

  /** A script with a line that is no assignment does not run. */
  lemma BrokenFails(lines: seq<Line>)
    requires Broken(lines)
    ensures Run(lines).None?
  {
    if Run(lines).Some? {
      var i :| 0 <= i < |lines| && lines[i].NoInfo?;
      RunDefined(lines, i);
    }
  }

  ghost predicate NoRepeats(ids: seq<Id>) {
    forall i, j :: 0 <= i < j < |ids| ==> ids[i] != ids[j]
  }

  /**
    The machine's heap is the part of g reachable from root, node for node and
    with the same sharing; object k is the copy of origin[k].
   */
  ghost predicate Rebuilds(g: Graph, root: Id, heap: seq<Node>, origin: seq<Id>) {
    && |heap| == |origin| && NoRepeats(origin)
    && (forall k :: 0 <= k < |origin| ==> origin[k] in g && SameNode(origin, g[origin[k]], heap[k]))
    && (forall id :: id in origin <==> Reach(g, root, id))
  }

  /** Copies of a set of nodes that are closed under arguments and hold the root hold all that is reachable. */
  lemma {:induction false} ReachableCopied(g: Graph, heap: seq<Node>, origin: seq<Id>, path: seq<Id>)
    requires |heap| == |origin| && Path(g, path) && path[0] in origin
    requires forall k :: 0 <= k < |origin| ==> origin[k] in g && SameNode(origin, g[origin[k]], heap[k])
    ensures path[|path| - 1] in origin
    decreases |path|
  {
    if |path| > 1 {
      var k :| 0 <= k < |origin| && origin[k] == path[0];
      assert Child(g, path[0], path[1]);
      var i :| 0 <= i < |g[path[0]].args| && Mentions(g[path[0]].args[i], path[1]);
      assert SameArg(origin, g[path[0]].args[i], heap[k].args[i]);
      SameMentions(origin, g[path[0]].args[i], heap[k].args[i], path[1]);
      var rest := path[1..];
      forall i | 0 <= i < |rest| - 1 ensures Child(g, rest[i], rest[i + 1]) {
        assert Child(g, path[i + 1], path[i + 2]);
      }
      ReachableCopied(g, heap, origin, rest);
    }
  }

  /** Nothing is lost on the way: strings too are the same. */
  ghost predicate RebuildsExactly(g: Graph, heap: seq<Node>, origin: seq<Id>) {
    && |heap| == |origin|
    && forall k, i :: 0 <= k < |origin| && origin[k] in g && 0 <= i < |g[origin[k]].args| ==>
         i < |heap[k].args| && Same(origin, g[origin[k]].args[i], heap[k].args[i])
  }

  ghost predicate NoBreaks(g: Graph, root: Id) {
    forall id, i :: id in g && Reach(g, root, id) && 0 <= i < |g[id].args| && g[id].args[i].Text? ==> '\n' !in g[id].args[i].chars
  }

  /** The copy is exact if and only if no string argument has a line break in it. */
  lemma RebuildsExactlyIff(g: Graph, root: Id, heap: seq<Node>, origin: seq<Id>)
    requires Rebuilds(g, root, heap, origin)
    ensures RebuildsExactly(g, heap, origin) <==> NoBreaks(g, root)
  {
    hide Reach, WithoutBreaks;
    forall k, i | 0 <= k < |origin| && 0 <= i < |g[origin[k]].args|
      ensures Same(origin, g[origin[k]].args[i], heap[k].args[i]) <==>
        !(g[origin[k]].args[i].Text? && '\n' in g[origin[k]].args[i].chars)
    {
      var v := g[origin[k]].args[i];
      assert SameArg(origin, v, heap[k].args[i]);
      if v.Text? { WithoutBreaksIs(v.chars); }
    }
    if RebuildsExactly(g, heap, origin) {
      forall id, i | id in g && Reach(g, root, id) && 0 <= i < |g[id].args| && g[id].args[i].Text?
        ensures '\n' !in g[id].args[i].chars
      {
        assert id in origin;
        var k :| 0 <= k < |origin| && origin[k] == id;
        assert Same(origin, g[origin[k]].args[i], heap[k].args[i]);
      }
    }
    if NoBreaks(g, root) {
      forall k, i | 0 <= k < |origin| && origin[k] in g && 0 <= i < |g[origin[k]].args|
        ensures i < |heap[k].args| && Same(origin, g[origin[k]].args[i], heap[k].args[i])
      {
        assert origin[k] in origin;
        assert SameNode(origin, g[origin[k]], heap[k]);
      }
    }
  }

  // ------------------------------------------------------ lines as a script

  /** `default` names no variable or function, and a quote ends a string. */
  predicate Readable(e: Expr) {
    !e.Default? && (e.Quoted? ==> '"' !in e.chars)
  }

  /**
    The script language reads such a line as the binding it stands for. It has no
    function ArrayCreate, and neither the description of a function nor named
    captures are a function definition.
   */
  predicate IsScript(line: Line) {
    line.MakeClip? && forall i :: 0 <= i < |line.args| ==> Readable(line.args[i].expr)
  }

  predicate AllScript(lines: seq<Line>) {
    forall i :: 0 <= i < |lines| ==> IsScript(lines[i])
  }

  /** What the printed script does when it is run as a script. */
  function RunScript(lines: seq<Line>): Option<Machine> {
    if AllScript(lines) then Run(lines) else None
  }

  /** An argument that a script can spell. */
  predicate PlainArg(v: Value) {
    v.ClipRef? || v.Literal? || (v.Text? && '"' !in v.chars)
  }

  predicate Plain(n: Node) {
    !n.isFunction && n.name != "" && forall i :: 0 <= i < |n.args| ==> PlainArg(n.args[i])
  }

  /** Whatever the root needs is a named clip, made from clips, numbers, booleans and strings without quotes. */
  ghost predicate AllPlain(g: Graph, root: Id) {
    forall id :: id in g && Reach(g, root, id) ==> Plain(g[id])
  }

  ghost predicate ClipsOnly(m: Machine) {
    && (forall v :: v in m.vars ==> m.vars[v].ClipRef?)
    && (forall k, i :: 0 <= k < |m.heap| && 0 <= i < |m.heap[k].args| ==> PlainArg(m.heap[k].args[i]))
    && (forall k :: 0 <= k < |m.heap| ==> !m.heap[k].isFunction)
  }

  lemma ScriptLine(m: Machine, line: Line)
    requires ClipsOnly(m) && IsScript(line) && RunLine(m, line).Some?
    ensures ClipsOnly(RunLine(m, line).value)
  {
    var r := RunLine(m, line).value;
    forall k, i | 0 <= k < |r.heap| && 0 <= i < |r.heap[k].args| ensures PlainArg(r.heap[k].args[i]) {
      if k == |m.heap| {
        assert Readable(line.args[i].expr);
      } else {
        assert r.heap[k] == m.heap[k];
      }
    }
    forall k | 0 <= k < |r.heap| ensures !r.heap[k].isFunction {
      if k < |m.heap| { assert r.heap[k] == m.heap[k]; }
    }
  }

  /** A script builds clips from clips and scalars only. */
  lemma {:induction false} ScriptBuildsPlain(lines: seq<Line>)
    requires AllScript(lines) && Run(lines).Some?
    ensures ClipsOnly(Run(lines).value)
    decreases |lines|
  {
    if lines != [] {
      var last := |lines| - 1;
      ScriptBuildsPlain(lines[..last]);
      ScriptLine(Run(lines[..last]).value, lines[last]);
    }
  }

  lemma PlainBack(origin: seq<Id>, v: Value, w: Value)
    requires SameArg(origin, v, w) && PlainArg(w)
    ensures PlainArg(v)
  {
    if v.Text? { WithoutBreaksIs(v.chars); }
  }

  /** If what was rebuilt was rebuilt by a script, the graph itself is plain. */
  lemma RebuiltByScript(g: Graph, root: Id, lines: seq<Line>, origin: seq<Id>)
    requires AllScript(lines) && Run(lines).Some? && Rebuilds(g, root, Run(lines).value.heap, origin) && AllNamed(g, root)
    ensures AllPlain(g, root)
  {
    hide Reach, Run;
    ScriptBuildsPlain(lines);
    var m := Run(lines).value;
    forall id | id in g && Reach(g, root, id) ensures Plain(g[id]) {
      assert id in origin;
      var k :| 0 <= k < |origin| && origin[k] == id;
      assert SameNode(origin, g[id], m.heap[k]);
      forall i | 0 <= i < |g[id].args| ensures PlainArg(g[id].args[i]) {
        PlainBack(origin, g[id].args[i], m.heap[k].args[i]);
      }
    }
  }

  /** One filter with one undefined argument. */
  const FORWARDED: Graph := map[0 := Node(false, "F", [], [Undefined])]

  const FORWARDED_LINE: Line := MakeClip(1, "F", [PrintedArg("", Default)])

  lemma ForwardedGraph()
    ensures WellFormed(FORWARDED, map[0 := 0]) && AllNamed(FORWARDED, 0) && !AllPlain(FORWARDED, 0)
  {
    hide Reach, Path, Child;
    ReachSelf(FORWARDED, 0);
    assert !Plain(FORWARDED[0]) by { assert !PlainArg(FORWARDED[0].args[0]); }
  }

  /** Its line `clip1 = F(default)` binds a clip, but is no script. */
  lemma DefaultIsNoScript()
    ensures WellFormed(FORWARDED, map[0 := 0]) && AllNamed(FORWARDED, 0) && !AllPlain(FORWARDED, 0)
    ensures Run([FORWARDED_LINE]).Some? && RunScript([FORWARDED_LINE]).None?
  {
    hide Reach, AllNamed, AllPlain, WellFormed;
    ForwardedGraph();
    var lines := [FORWARDED_LINE];
    assert lines[..0] == [];
    assert !IsScript(lines[0]) by { assert !Readable(lines[0].args[0].expr); }
  }
}
