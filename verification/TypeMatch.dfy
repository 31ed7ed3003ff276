/**
  AVSFunction::TypeMatch: which argument lists a signature takes. The pointer
  walk is proved against a matching of arguments to signature elements.
 */
module TypeMatch {
  import opened KeyedList
  import opened Signatures

  // ------------------------------------------------- matching by elements

  /** Parameters that may be left out at the end. */
  predicate Skippable(elems: seq<Elem>) {
    elems == [] || elems[0].name.Some? || (elems[0].mod == Star && Skippable(elems[1..]))
  }

  /** One argument for one type; an optional one may be undefined. */
  predicate SingleOk(t: char, optional: bool, a: Arg, strict: bool) {
    (optional && a.Void?) || SingleTypeMatch(t, a, strict)
  }

  /** Does an element with + hand an array argument over as its whole list? */
  predicate WholeArray(e: Elem, a: Arg) {
    e.mod == Plus && a.Array? && e.kind != 'a' && e.kind != '.'
  }

  predicate Matches(elems: seq<Elem>, args: seq<Arg>, optional: bool, strict: bool)
    decreases |elems|, |args|, 1
  {
    if args == [] then Skippable(elems)
    else if elems == [] then false
    else
      var e, rest := elems[0], elems[1..];
      var opt := optional || e.name.Some?;
      if e.mod == Star || WholeArray(e, args[0]) then InRun(e.kind, rest, args, opt, strict)
      else if e.kind != '.' && !SingleOk(e.kind, opt, args[0], strict) then false
      else if e.mod == Plus then InRun(e.kind, rest, args[1..], opt, strict)
      else Matches(rest, args[1..], opt, strict)
  }

  /** At the + or * of an element of type t. */
  predicate InRun(t: char, rest: seq<Elem>, args: seq<Arg>, optional: bool, strict: bool)
    decreases |rest| + 1, |args|, 0
  {
    if args == [] then Skippable(rest)
    else if args[0].Array? && t != '.' then ArrayMatch(t, args[0], strict) && Matches(rest, args[1..], optional, strict)
    else if !SingleTypeMatch(t, args[0], strict) then Matches(rest, args, optional, strict)
    else InRun(t, rest, args[1..], optional, strict)
  }

  // --------------------------------------------------------- pointer walk

  ghost predicate Start(s: string, p: int, elems: seq<Elem>) {
    0 <= p <= |s| && ElemsOk(elems) && s[p..] == Render(elems)
  }

  ghost predicate Middle(s: string, p: int, t: char, rest: seq<Elem>) {
    0 < p < |s| && IsSpecifier(t) && s[p - 1] == t && IsModifier(s[p]) && Start(s, p + 1, rest)
  }

  function CharAt(s: string, p: nat): char {
    if p < |s| then s[p] else '\0'
  }

  /** What the characters at an element's start are. */
  lemma StartChars(s: CString, p: nat, elems: seq<Elem>)
    requires Start(s, p, elems)
    ensures elems == [] <==> CharAt(s, p) == '\0'
    ensures elems == [] <==> p == |s|
    ensures elems != [] ==> (CharAt(s, p) == '[' <==> elems[0].name.Some?)
    ensures elems != [] && elems[0].name.None? ==> Typed(s, p, elems[0], elems[1..])
    ensures !IsModifier(CharAt(s, p))
  {
    if p < |s| {
      assert s[p..][0] == s[p];
      assert s[p] in s;
    }
    if elems != [] {
      var e := elems[0];
      RenderCons(e, elems[1..]);
      assert [e] + elems[1..] == elems;
      if e.name.None? {
        assert RenderName(e) == [];
        assert s[p..] == [e.kind] + RenderModifier(e.mod) + Render(elems[1..]);
        TypedAt(s, p, e, elems[1..]);
      }
    }
  }

  /** At the type character of e. */
  ghost predicate Typed(s: string, p: nat, e: Elem, rest: seq<Elem>) {
    && p < |s| && s[p] == e.kind && ElemOk(e) && ElemsOk(rest)
    && (CharAt(s, p + 1) == '*' <==> e.mod == Star) && (CharAt(s, p + 1) == '+' <==> e.mod == Plus)
    && (if e.mod == One then Start(s, p + 1, rest) else Middle(s, p + 1, e.kind, rest))
  }

  lemma NoModifierFirst(elems: seq<Elem>)
    requires ElemsOk(elems)
    ensures Render(elems) != [] ==> !IsModifier(Render(elems)[0])
  {
  }

  lemma TypedAt(s: CString, p: nat, e: Elem, rest: seq<Elem>)
    requires p <= |s| && ElemOk(e) && ElemsOk(rest)
    requires s[p..] == [e.kind] + RenderModifier(e.mod) + Render(rest)
    ensures Typed(s, p, e, rest)
  {
    assert s[p..][0] == s[p];
    NoModifierFirst(rest);
    if e.mod == One {
      assert s[p + 1..] == s[p..][1..] == Render(rest);
      if p + 1 < |s| { assert s[p + 1] == s[p + 1..][0]; }
    } else {
      assert s[p..][1] == s[p + 1];
      assert s[p + 2..] == s[p..][2..] == Render(rest);
    }
  }

  /** strchr(s + from, ']'). */
  method FindBracket(s: CString, from: nat) returns (q: Option<nat>)
    requires from <= |s|
    ensures q.Some? ==> from <= q.value < |s| && s[q.value] == ']' && ']' !in s[from..q.value]
    ensures q.None? ==> ']' !in s[from..]
  {
    var j := from;
    while j < |s| && s[j] != ']'
      invariant from <= j <= |s| && ']' !in s[from..j]
    {
      j := j + 1;
    }
    q := if j < |s| then Some(j) else None;
  }

  lemma NameSkipped(s: CString, p: nat, elems: seq<Elem>, q: nat)
    requires Start(s, p, elems) && elems != [] && elems[0].name.Some?
    requires p < q < |s| && s[q] == ']' && ']' !in s[p + 1..q]
    ensures Typed(s, q + 1, elems[0], elems[1..])
  {
    var e := elems[0];
    RenderCons(e, elems[1..]);
    assert [e] + elems[1..] == elems;
    var name, body := e.name.value, [e.kind] + RenderModifier(e.mod) + Render(elems[1..]);
    assert s[p..] == ['['] + name + [']'] + body;
    FirstBracket(s, p, name, body, q);
    assert s[q + 1..] == s[p..][|name| + 2..] == body;
    TypedAt(s, q + 1, e, elems[1..]);
  }

  lemma FirstBracket(s: string, p: nat, name: string, body: string, q: nat)
    requires p < q < |s| && s[p..] == ['['] + name + [']'] + body && ']' !in name
    requires s[q] == ']' && ']' !in s[p + 1..q]
    ensures q == p + 1 + |name|
  {
    var tail := s[p..];
    assert forall k :: p <= k < |s| ==> s[k] == tail[k - p];
    assert tail[|name| + 1] == ']';
    assert forall k :: p < k < p + 1 + |name| ==> s[k] == name[k - p - 1];
    assert forall k :: p < k < q ==> s[k] in s[p + 1..q];
  }

  lemma HasBracket(s: CString, p: nat, elems: seq<Elem>)
    requires Start(s, p, elems) && elems != [] && elems[0].name.Some?
    ensures p < |s| && ']' in s[p + 1..]
  {
    var e := elems[0];
    RenderCons(e, elems[1..]);
    assert [e] + elems[1..] == elems;
    var name, body := e.name.value, [e.kind] + RenderModifier(e.mod) + Render(elems[1..]);
    assert s[p..] == ['['] + name + [']'] + body;
    assert s[p + 1..] == s[p..][1..];
    assert s[p..][1..][|name|] == ']';
  }

  /** Steps over a parameter's name. */
  method SkipName(s: CString, p: nat, ghost elems: seq<Elem>) returns (q: nat)
    requires Start(s, p, elems) && elems != [] && elems[0].name.Some?
    ensures p < q && Typed(s, q, elems[0], elems[1..])
  {
    HasBracket(s, p, elems);
    var found := FindBracket(s, p + 1);
    if found.None? {
      assert false; // unterminated parameter name
    } else {
      NameSkipped(s, p, elems, found.value);
      q := found.value + 1;
      assert s[q] in s;
      if CharAt(s, q) == '\0' {
        assert false; // no type specified for optional parameter
      }
    }
  }

  /** The walk stands before `elems`, or at the + or * of an element of type t. */
  ghost predicate Standing(s: string, p: int, inRun: bool, t: char, elems: seq<Elem>) {
    if inRun then Middle(s, p, t, elems) else Start(s, p, elems)
  }

  ghost predicate Outcome(inRun: bool, t: char, elems: seq<Elem>, args: seq<Arg>, optional: bool, strict: bool) {
    if inRun then InRun(t, elems, args, optional, strict) else Matches(elems, args, optional, strict)
  }

  lemma ElemStep(elems: seq<Elem>, args: seq<Arg>, optional: bool, strict: bool)
    requires args != []
    ensures elems == [] ==> !Matches(elems, args, optional, strict)
    ensures elems != [] ==>
      var e, rest, a := elems[0], elems[1..], args[0];
      var opt := optional || e.name.Some?;
      var single := e.kind == '.' || (opt && a.Void?) || SingleTypeMatch(e.kind, a, strict);
      Matches(elems, args, optional, strict) ==
        if e.mod == Star || (e.mod == Plus && a.Array? && e.kind != 'a' && e.kind != '.') then InRun(e.kind, rest, args, opt, strict)
        else single && Outcome(e.mod == Plus, e.kind, rest, args[1..], opt, strict)
  {
  }

  lemma RunStep(t: char, rest: seq<Elem>, args: seq<Arg>, optional: bool, strict: bool)
    requires args != []
    ensures InRun(t, rest, args, optional, strict) ==
      if args[0].Array? && t != '.' then ArrayMatch(t, args[0], strict) && Matches(rest, args[1..], optional, strict)
      else if !SingleTypeMatch(t, args[0], strict) then Matches(rest, args, optional, strict)
      else InRun(t, rest, args[1..], optional, strict)
  {
  }

  lemma NoArgs(inRun: bool, t: char, rest: seq<Elem>, optional: bool, strict: bool)
    ensures Outcome(inRun, t, rest, [], optional, strict) == Skippable(rest)
  {
  }

  lemma Begin(s: string, elems: seq<Elem>)
    requires ElemsOk(elems) && s == Render(elems)
    ensures Start(s, 0, elems)
  {
    assert s[0..] == s;
  }

  /**
    On an accepted signature the walk terminates, stays inside the string, runs
    into none of its errors, and decides the matching of elements.
   */
  method TypeMatch(s: CString, args: seq<Arg>, strict: bool, ghost elems: seq<Elem>) returns (r: bool)
    requires ElemsOk(elems) && s == Render(elems)
    ensures r == Matches(elems, args, false, strict)
  {
    hide Render, ElemsOk, SingleTypeMatch, ArrayMatch, Skippable, Matches, InRun, SingleOk, WholeArray, Start;
    var optional := false;
    var p, i := 0, 0;
    ghost var rest, inRun, t := elems, false, '.';
    assert args[0..] == args;
    Begin(s, elems);
    while i < |args|
      invariant 0 <= i <= |args| && 0 <= p <= |s| && Standing(s, p, inRun, t, rest)
      invariant Matches(elems, args, false, strict) == Outcome(inRun, t, rest, args[i..], optional, strict)
      decreases |args| - i + |s| - p
    {
      assert args[i..][1..] == args[i + 1..] && args[i..][0] == args[i];
      if inRun {
        StartChars(s, p + 1, rest);
        RunStep(t, rest, args[i..], optional, strict);
      } else {
        StartChars(s, p, rest);
        ElemStep(rest, args[i..], optional, strict);
      }
      if CharAt(s, p) == '\0' {
        return false; // more arguments than parameters
      }
      if CharAt(s, p) == '[' {
        p := SkipName(s, p, rest);
        optional := true;
      }
      if CharAt(s, p + 1) == '*' {
        inRun, t, rest := true, s[p], rest[1..];
        p := p + 1;
        RunStep(t, rest, args[i..], optional, strict);
      }
      var c := s[p];
      if c == 'b' || c == 'i' || c == 'f' || c == 's' || c == 'c' || c == 'n' || c == 'a' {
        if CharAt(s, p + 1) == '+' && args[i].Array? && c != 'a' {
          inRun, t, rest := true, c, rest[1..];
          p := p + 1;
        } else {
          if (!optional || !args[i].Void?) && !SingleTypeMatch(c, args[i], strict) {
            return false;
          }
          inRun, t, rest := CharAt(s, p + 1) == '+', c, rest[1..];
          p := p + 1;
          i := i + 1;
        }
      } else if c == '.' {
        inRun, t, rest := CharAt(s, p + 1) == '+', c, rest[1..];
        p := p + 1;
        i := i + 1;
      } else if c == '+' || c == '*' {
        if args[i].Array? && s[p - 1] != '.' {
          var all := SingleTypeMatchArray(s[p - 1], args[i], strict);
          if !all {
            return false;
          }
          inRun := false;
          p := p + 1;
          i := i + 1;
        } else if !SingleTypeMatch(s[p - 1], args[i], strict) {
          inRun := false;
          p := p + 1;
        } else {
          i := i + 1;
        }
      } else {
        assert false; // invalid character in parameter list
      }
    }
    NoArgs(inRun, t, rest, optional, strict);
    assert args[i..] == [];
    r := Leftover(s, p, inRun, t, rest);
  }

  /** The end of TypeMatch, when no argument is left. */
  method Leftover(s: CString, start: nat, ghost inRun: bool, ghost t: char, ghost elems: seq<Elem>) returns (r: bool)
    requires Standing(s, start, inRun, t, elems)
    ensures r == Skippable(elems)
  {
    hide Render, ElemsOk;
    if inRun { StartChars(s, start + 1, elems); } else { StartChars(s, start, elems); }
    var p := start;
    if CharAt(s, p) == '+' || CharAt(s, p) == '*' {
      p := p + 1;
    }
    if CharAt(s, p) == '\0' || CharAt(s, p) == '[' {
      return true;
    }
    ghost var rest := elems;
    while CharAt(s, p + 1) == '*'
      invariant Start(s, p, rest) && rest != [] && rest[0].name.None? && Skippable(elems) == Skippable(rest)
      invariant Typed(s, p, rest[0], rest[1..])
      decreases |s| - p
    {
      p := p + 2;
      rest := rest[1..];
      StartChars(s, p, rest);
      if CharAt(s, p) == '\0' || CharAt(s, p) == '[' {
        return true;
      }
    }
    return false;
  }
}
