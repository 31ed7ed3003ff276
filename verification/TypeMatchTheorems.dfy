/**
  What a match means: the arguments split, in order, into one run per consumed
  signature element, each run fitting the element's type and its + or *.
 */
module TypeMatchTheorems {
  import opened Signatures
  import opened TypeMatch

  /** An argument that a + or * of type t takes as a whole list. */
  predicate TakenAsList(t: char, a: Arg) {
    a.Array? && t != '.'
  }

  /** Arguments taken at a + or *: matching singles, and at most one array, which is the last. */
  ghost predicate Tail(t: char, run: seq<Arg>, strict: bool) {
    forall i :: 0 <= i < |run| ==>
      if TakenAsList(t, run[i]) then i == |run| - 1 && ArrayMatch(t, run[i], strict) else SingleTypeMatch(t, run[i], strict)
  }

  /** A whole list given to an element with +. */
  predicate IsList(e: Elem, a: Arg) {
    a.Array? && e.kind != 'a' && e.kind != '.'
  }

  predicate EndsWithList(t: char, run: seq<Arg>) {
    run != [] && TakenAsList(t, run[|run| - 1])
  }

  /** Nothing that could still join was left outside the run. */
  predicate Greedy(t: char, run: seq<Arg>, left: seq<Arg>, strict: bool) {
    left != [] && !EndsWithList(t, run) ==> !TakenAsList(t, left[0]) && !SingleTypeMatch(t, left[0], strict)
  }

  predicate First(e: Elem, optional: bool, a: Arg, strict: bool) {
    e.kind == '.' || (optional && a.Void?) || SingleTypeMatch(e.kind, a, strict)
  }

  ghost predicate RunFits(e: Elem, optional: bool, run: seq<Arg>, strict: bool) {
    match e.mod
    case One => |run| == 1 && First(e, optional, run[0], strict)
    case Star => Tail(e.kind, run, strict)
    case Plus =>
      run != [] &&
      if IsList(e, run[0]) then |run| == 1 && ArrayMatch(e.kind, run[0], strict)
      else First(e, optional, run[0], strict) && Tail(e.kind, run[1..], strict)
  }

  predicate RunMaximal(e: Elem, run: seq<Arg>, left: seq<Arg>, strict: bool) {
    match e.mod
    case One => true
    case Star => Greedy(e.kind, run, left, strict)
    case Plus => run == [] || IsList(e, run[0]) || Greedy(e.kind, run[1..], left, strict)
  }

  /** The runs cut up the arguments in order; the elements after the last run can be left out. */
  ghost predicate Split(elems: seq<Elem>, args: seq<Arg>, optional: bool, strict: bool, runs: seq<seq<Arg>>)
    decreases |runs|
  {
    if |runs| == 0 then args == [] && Skippable(elems)
    else
      && elems != [] && runs[0] <= args
      && var opt, left := optional || elems[0].name.Some?, args[|runs[0]|..];
      && RunFits(elems[0], opt, runs[0], strict) && RunMaximal(elems[0], runs[0], left, strict)
      && Split(elems[1..], left, opt, strict, runs[1..])
  }

  // ---------------------------------------------------- a match has a split

  lemma {:induction false} RunHasSplit(t: char, rest: seq<Elem>, args: seq<Arg>, optional: bool, strict: bool)
    returns (n: nat, runs: seq<seq<Arg>>)
    requires InRun(t, rest, args, optional, strict)
    ensures n <= |args| && Tail(t, args[..n], strict) && Greedy(t, args[..n], args[n..], strict)
    ensures Split(rest, args[n..], optional, strict, runs)
    decreases |rest| + 1, |args|, 0
  {
    if args == [] {
      n, runs := 0, [];
    } else if TakenAsList(t, args[0]) {
      n := 1;
      runs := HasSplit(rest, args[1..], optional, strict);
    } else if !SingleTypeMatch(t, args[0], strict) {
      n := 0;
      runs := HasSplit(rest, args, optional, strict);
      assert args[0..] == args;
    } else {
      var k;
      k, runs := RunHasSplit(t, rest, args[1..], optional, strict);
      n := k + 1;
      TailGrows(t, args, k, strict);
      assert args[1..][k..] == args[n..];
    }
  }

  lemma TailGrows(t: char, args: seq<Arg>, k: nat, strict: bool)
    requires args != [] && !TakenAsList(t, args[0]) && SingleTypeMatch(t, args[0], strict)
    requires k < |args| && Tail(t, args[1..][..k], strict) && Greedy(t, args[1..][..k], args[k + 1..], strict)
    ensures Tail(t, args[..k + 1], strict) && Greedy(t, args[..k + 1], args[k + 1..], strict)
  {
    hide SingleTypeMatch, ArrayMatch;
    var run, more := args[1..][..k], args[..k + 1];
    assert more == [args[0]] + run;
    forall i | 0 <= i < |more|
      ensures if TakenAsList(t, more[i]) then i == |more| - 1 && ArrayMatch(t, more[i], strict) else SingleTypeMatch(t, more[i], strict)
    {
      if i > 0 { assert more[i] == run[i - 1]; }
    }
  }

  lemma {:induction false} HasSplit(elems: seq<Elem>, args: seq<Arg>, optional: bool, strict: bool) returns (runs: seq<seq<Arg>>)
    requires Matches(elems, args, optional, strict)
    ensures Split(elems, args, optional, strict, runs)
    decreases |elems|, |args|, 1
  {
    hide SingleTypeMatch, ArrayMatch, Tail, Greedy, Split;
    if args == [] {
      NoRuns(elems, optional, strict);
      return [];
    }
    var e, rest, n, more := elems[0], elems[1..], 1, [];
    var opt := optional || e.name.Some?;
    if e.mod == Star {
      n, more := RunHasSplit(e.kind, rest, args, opt, strict);
    } else if WholeArray(e, args[0]) {
      WholeRun(e.kind, rest, args, opt, strict);
      more := HasSplit(rest, args[1..], opt, strict);
    } else if e.mod == Plus {
      n, more := RunHasSplit(e.kind, rest, args[1..], opt, strict);
      assert args[..n + 1][1..] == args[1..][..n] && args[1..][n..] == args[n + 1..];
      n := n + 1;
    } else {
      more := HasSplit(rest, args[1..], opt, strict);
    }
    runs := [args[..n]] + more;
    SplitCons(elems, args, optional, strict, n, more);
  }

  lemma SplitCons(elems: seq<Elem>, args: seq<Arg>, optional: bool, strict: bool, n: nat, more: seq<seq<Arg>>)
    requires elems != [] && n <= |args|
    requires var opt := optional || elems[0].name.Some?;
      && RunFits(elems[0], opt, args[..n], strict) && RunMaximal(elems[0], args[..n], args[n..], strict)
      && Split(elems[1..], args[n..], opt, strict, more)
    ensures Split(elems, args, optional, strict, [args[..n]] + more)
  {
    hide RunFits, RunMaximal;
    assert ([args[..n]] + more)[1..] == more;
  }

  lemma NoRuns(elems: seq<Elem>, optional: bool, strict: bool)
    requires Skippable(elems)
    ensures Split(elems, [], optional, strict, [])
  {
  }

  lemma WholeRun(t: char, rest: seq<Elem>, args: seq<Arg>, optional: bool, strict: bool)
    requires args != [] && TakenAsList(t, args[0])
    ensures InRun(t, rest, args, optional, strict) == (ArrayMatch(t, args[0], strict) && Matches(rest, args[1..], optional, strict))
  {
  }

  // ---------------------------------------------------- a split is a match

  lemma {:induction false} RunMatches(t: char, rest: seq<Elem>, args: seq<Arg>, n: nat, optional: bool, strict: bool)
    requires n <= |args| && Tail(t, args[..n], strict) && Greedy(t, args[..n], args[n..], strict)
    requires Matches(rest, args[n..], optional, strict)
    ensures InRun(t, rest, args, optional, strict)
    decreases n
  {
    hide SingleTypeMatch, ArrayMatch;
    assert n == 0 ==> args[n..] == args;
    if n > 0 {
      assert args[..n][0] == args[0];
      if !TakenAsList(t, args[0]) {
        var run := args[1..][..n - 1];
        assert args[..n] == [args[0]] + run;
        assert forall i :: 0 <= i < n - 1 ==> run[i] == args[..n][i + 1];
        assert args[1..][n - 1..] == args[n..];
        RunMatches(t, rest, args[1..], n - 1, optional, strict);
      }
    }
  }

  lemma {:induction false} SplitMatches(elems: seq<Elem>, args: seq<Arg>, optional: bool, strict: bool, runs: seq<seq<Arg>>)
    requires Split(elems, args, optional, strict, runs)
    ensures Matches(elems, args, optional, strict)
    decreases |runs|
  {
    if |runs| > 0 {
      hide Matches, RunFits, RunMaximal;
      var opt, left := optional || elems[0].name.Some?, args[|runs[0]|..];
      SplitMatches(elems[1..], left, opt, strict, runs[1..]);
      assert runs[0] == args[..|runs[0]|];
      FirstMatches(elems, args, |runs[0]|, optional, strict);
    }
  }

  /** The first run, in front of arguments that match the elements left. */
  lemma FirstMatches(elems: seq<Elem>, args: seq<Arg>, n: nat, optional: bool, strict: bool)
    requires elems != [] && n <= |args|
    requires var opt := optional || elems[0].name.Some?;
      && RunFits(elems[0], opt, args[..n], strict) && RunMaximal(elems[0], args[..n], args[n..], strict)
      && Matches(elems[1..], args[n..], opt, strict)
    ensures Matches(elems, args, optional, strict)
  {
    hide SingleTypeMatch, ArrayMatch;
    var e := elems[0];
    var opt := optional || e.name.Some?;
    if e.mod == Star {
      RunMatches(e.kind, elems[1..], args, n, opt, strict);
    } else if WholeArray(e, args[0]) {
      WholeRun(e.kind, elems[1..], args, opt, strict);
    } else if e.mod == Plus {
      assert args[..n][1..] == args[1..][..n - 1] && args[1..][n - 1..] == args[n..];
      RunMatches(e.kind, elems[1..], args[1..], n - 1, opt, strict);
    }
  }

  /** The matcher says yes exactly when the arguments have a greedy split. */
  lemma MatchesIffSplit(elems: seq<Elem>, args: seq<Arg>, optional: bool, strict: bool)
    ensures Matches(elems, args, optional, strict) <==> exists runs :: Split(elems, args, optional, strict, runs)
  {
    if Matches(elems, args, optional, strict) {
      var runs := HasSplit(elems, args, optional, strict);
    }
    forall runs | Split(elems, args, optional, strict, runs) ensures Matches(elems, args, optional, strict) {
      SplitMatches(elems, args, optional, strict, runs);
    }
  }

  /** k unnamed elements with a *, and then a named one or the end. */
  predicate StarsUpTo(elems: seq<Elem>, k: nat) {
    k <= |elems| && (forall j :: 0 <= j < k ==> elems[j].name.None? && elems[j].mod == Star) && (k < |elems| ==> elems[k].name.Some?)
  }

  lemma StarsCons(elems: seq<Elem>, k: nat)
    requires elems != [] && elems[0].name.None? && elems[0].mod == Star
    ensures StarsUpTo(elems, k + 1) <==> StarsUpTo(elems[1..], k)
  {
    var rest := elems[1..];
    if StarsUpTo(rest, k) {
      assert forall j :: 0 < j < |elems| ==> elems[j] == rest[j - 1];
    }
    if StarsUpTo(elems, k + 1) {
      assert forall j :: 0 <= j < |rest| ==> rest[j] == elems[j + 1];
    }
  }

  /** Exactly when the parameters that are left need no argument. */
  lemma {:induction false} SkippableIff(elems: seq<Elem>)
    ensures Skippable(elems) <==> exists k :: StarsUpTo(elems, k)
    decreases |elems|
  {
    if elems == [] || elems[0].name.Some? {
      assert StarsUpTo(elems, 0);
    } else if elems[0].mod == Star {
      SkippableIff(elems[1..]);
      if Skippable(elems) {
        var k :| StarsUpTo(elems[1..], k);
        StarsCons(elems, k);
      }
      forall k: nat | StarsUpTo(elems, k) ensures Skippable(elems) {
        StarsCons(elems, k - 1);
      }
    } else {
      assert forall k :: StarsUpTo(elems, k) ==> k == 0;
    }
  }

  // ------------------------------------------------- what a split consists of

  function Flatten(runs: seq<seq<Arg>>): seq<Arg> {
    if runs == [] then [] else runs[0] + Flatten(runs[1..])
  }

  predicate NamedBy(elems: seq<Elem>, k: nat) {
    exists j :: 0 <= j <= k && j < |elems| && elems[j].name.Some?
  }

  /** A split is the whole argument list, with one fitting run per consumed element. */
  lemma {:induction false} SplitMeans(elems: seq<Elem>, args: seq<Arg>, optional: bool, strict: bool, runs: seq<seq<Arg>>)
    requires Split(elems, args, optional, strict, runs)
    ensures Flatten(runs) == args && |runs| <= |elems| && Skippable(elems[|runs|..])
    ensures forall k :: 0 <= k < |runs| ==> RunFits(elems[k], optional || NamedBy(elems, k), runs[k], strict)
    decreases |runs|
  {
    hide RunFits, RunMaximal, Skippable, NamedBy;
    if |runs| == 0 {
      assert elems[0..] == elems;
    } else {
      var opt, left := optional || elems[0].name.Some?, args[|runs[0]|..];
      SplitMeans(elems[1..], left, opt, strict, runs[1..]);
      assert args == runs[0] + left;
      assert elems[1..][|runs| - 1..] == elems[|runs|..];
      forall k | 0 <= k < |runs| ensures RunFits(elems[k], optional || NamedBy(elems, k), runs[k], strict) {
        NamedLater(elems, k);
        if k > 0 { RunAt(elems, optional, strict, runs, k); }
      }
    }
  }

  lemma RunAt(elems: seq<Elem>, optional: bool, strict: bool, runs: seq<seq<Arg>>, k: nat)
    requires 0 < k < |runs| <= |elems|
    requires RunFits(elems[1..][k - 1], (optional || elems[0].name.Some?) || NamedBy(elems[1..], k - 1), runs[1..][k - 1], strict)
    ensures RunFits(elems[k], optional || NamedBy(elems, k), runs[k], strict)
  {
    hide RunFits, NamedBy;
    NamedLater(elems, k);
    assert elems[1..][k - 1] == elems[k] && runs[1..][k - 1] == runs[k];
  }

  lemma NamedLater(elems: seq<Elem>, k: nat)
    requires k < |elems|
    ensures NamedBy(elems, k) <==> elems[0].name.Some? || (k > 0 && NamedBy(elems[1..], k - 1))
  {
    if k > 0 && NamedBy(elems[1..], k - 1) {
      var j :| 0 <= j <= k - 1 && j < |elems[1..]| && elems[1..][j].name.Some?;
      assert elems[j + 1].name.Some?;
    }
    if NamedBy(elems, k) && !elems[0].name.Some? {
      var j :| 0 <= j <= k && j < |elems| && elems[j].name.Some?;
      assert elems[1..][j - 1].name.Some?;
    }
  }
}
