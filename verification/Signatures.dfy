/**
  Function signatures of PluginManager.cpp: the validator accepts exactly the
  strings of a small grammar, and on those the matcher is a matching of
  arguments to signature elements.
 */
module Signatures {
  import opened KeyedList

  /** A C string: NUL ends it and does not occur inside. */
  type CString = s: string | '\0' !in s

  datatype Arg = Void | Bool | Int | Long | Float | Double | Str | Clip | Func | Array(items: seq<Arg>)

  predicate IsSpecifier(c: char) {
    c == 'b' || c == 'i' || c == 'f' || c == 's' || c == 'c' || c == '.' || c == 'n' || c == 'a'
  }

  predicate IsModifier(c: char) {
    c == '+' || c == '*'
  }

  predicate IsInt(a: Arg) {
    a.Int? || a.Long?
  }

  predicate SingleTypeMatch(t: char, a: Arg, strict: bool) {
    match t
    case '.' => true
    case 'b' => a.Bool?
    case 'i' => IsInt(a)
    case 'f' => (a.Float? || a.Double? || IsInt(a)) && (!strict || !IsInt(a))
    case 's' => a.Str?
    case 'c' => a.Clip?
    case 'n' => a.Func?
    case 'a' => a.Array?
    case _ => false
  }

  /** The letter of an argument's own type. */
  function OwnLetter(a: Arg): Option<char> {
    match a
    case Void => None
    case Bool => Some('b')
    case Int => Some('i')
    case Long => Some('i')
    case Float => Some('f')
    case Double => Some('f')
    case Str => Some('s')
    case Clip => Some('c')
    case Func => Some('n')
    case Array(_) => Some('a')
  }

  /** A letter takes the arguments of its type; a dot takes any; f takes integers too, unless matching is strict. */
  lemma MatchesOwnLetter(t: char, a: Arg, strict: bool)
    ensures SingleTypeMatch(t, a, strict) <==>
      t == '.' || OwnLetter(a) == Some(t) || (t == 'f' && OwnLetter(a) == Some('i') && !strict)
  {
  }

  /** The letters the validator admits are those that match any argument at all. */
  lemma SpecifierIffMatches(t: char)
    ensures IsSpecifier(t) <==> exists a, strict :: SingleTypeMatch(t, a, strict)
  {
    if IsSpecifier(t) {
      var a :=
        if t == 'b' then Bool else if t == 'i' then Int else if t == 'f' then Float else if t == 's' then Str
        else if t == 'c' then Clip else if t == 'n' then Func else Array([]);
      assert SingleTypeMatch(t, a, true);
    }
  }

  predicate ArrayMatch(t: char, a: Arg, strict: bool) {
    a.Array? && forall i :: 0 <= i < |a.items| ==> SingleTypeMatch(t, a.items[i], strict)
  }

  method SingleTypeMatchArray(t: char, a: Arg, strict: bool) returns (r: bool)
    ensures r == ArrayMatch(t, a, strict)
  {
    if !a.Array? {
      return false;
    }
    for i := 0 to |a.items|
      invariant forall j :: 0 <= j < i ==> SingleTypeMatch(t, a.items[j], strict)
    {
      if !SingleTypeMatch(t, a.items[i], strict) {
        return false;
      }
    }
    return true;
  }

  // ---------------------------------------------------------------- grammar

  datatype Modifier = One | Plus | Star

  /** One parameter: an optional [name], a type, an optional + or *. */
  datatype Elem = Elem(name: Option<string>, kind: char, mod: Modifier)

  predicate ElemOk(e: Elem) {
    IsSpecifier(e.kind) && (e.name.Some? ==> ']' !in e.name.value)
  }

  predicate ElemsOk(elems: seq<Elem>) {
    forall i :: 0 <= i < |elems| ==> ElemOk(elems[i])
  }

  function RenderName(e: Elem): string {
    if e.name.Some? then ['['] + e.name.value + [']'] else []
  }

  function RenderModifier(m: Modifier): string {
    match m
    case One => []
    case Plus => ['+']
    case Star => ['*']
  }

  function Render(elems: seq<Elem>): string {
    if elems == [] then []
    else RenderName(elems[0]) + [elems[0].kind] + RenderModifier(elems[0].mod) + Render(elems[1..])
  }

  // -------------------------------------------------------------- validator

  function Advance(state: int, c: char): int {
    match state
    case 0 => if IsSpecifier(c) then 1 else if c == '[' then 2 else -1
    case 1 => if IsSpecifier(c) then 1 else if c == '[' then 2 else if IsModifier(c) then 0 else -1
    case 2 => if c == ']' then 3 else 2
    case 3 => if IsSpecifier(c) then 1 else -1
    case _ => -1
  }

  predicate Accepts(state: int, s: string)
    decreases |s|
  {
    if s == [] then state == 0 || state == 1 else Accepts(Advance(state, s[0]), s[1..])
  }

  lemma {:induction false} RejectsAll(s: string)
    ensures !Accepts(-1, s)
    decreases |s|
  {
    if s != [] {
      RejectsAll(s[1..]);
    }
  }

  method IsValidParameterString(s: CString) returns (r: bool)
    ensures r <==> exists elems :: ElemsOk(elems) && s == Render(elems)
  {
    var state, p := 0, 0;
    while p < |s| && state != -1
      invariant 0 <= p <= |s| && -1 <= state <= 3
      invariant Accepts(0, s) == Accepts(state, s[p..])
    {
      assert s[p..][1..] == s[p + 1..];
      state := Advance(state, s[p]);
      p := p + 1;
    }
    if state == -1 {
      RejectsAll(s[p..]);
    }
    r := state == 0 || state == 1;
    AcceptsIff(s);
  }

  predicate AtModifier(s: string) {
    s != [] && IsModifier(s[0])
  }

  /** A name is read up to its first bracket. */
  lemma {:induction false} ReadName(s: string) returns (j: nat)
    requires Accepts(2, s)
    ensures j < |s| && s[j] == ']' && ']' !in s[..j] && Accepts(3, s[j + 1..])
    decreases |s|
  {
    if s[0] == ']' {
      j := 0;
    } else {
      var k := ReadName(s[1..]);
      j := k + 1;
      assert s[..j] == [s[0]] + s[1..][..k];
      assert s[1..][k + 1..] == s[j + 1..];
    }
  }

  /** The accepted string, element by element. */
  lemma {:induction false} Elements(state: int, s: string) returns (elems: seq<Elem>)
    requires (state == 0 || (state == 1 && !AtModifier(s))) && Accepts(state, s)
    ensures ElemsOk(elems) && s == Render(elems)
    decreases |s|, 1
  {
    if s == [] {
      elems := [];
    } else if s[0] == '[' {
      elems := NamedElement(s);
    } else {
      RejectsAll(s[1..]);
      assert Advance(state, s[0]) == 1;
      elems := TypedElement(None, s);
    }
  }

  lemma {:induction false} NamedElement(s: string) returns (elems: seq<Elem>)
    requires s != [] && s[0] == '[' && Accepts(2, s[1..])
    ensures ElemsOk(elems) && s == Render(elems)
    decreases |s|, 0
  {
    hide Render, IsSpecifier;
    var tail := s[1..];
    var j := ReadName(tail);
    var body := tail[j + 1..];
    SpecifierNext(body);
    elems := TypedElement(Some(tail[..j]), body);
    assert s == ['['] + tail[..j] + [']'] + body;
  }

  lemma SpecifierNext(body: string)
    requires Accepts(3, body)
    ensures body != [] && IsSpecifier(body[0]) && Accepts(1, body[1..])
  {
    if body != [] { RejectsAll(body[1..]); }
  }

  lemma RenderCons(e: Elem, more: seq<Elem>)
    ensures Render([e] + more) == RenderName(e) + ([e.kind] + RenderModifier(e.mod) + Render(more))
  {
    assert ([e] + more)[1..] == more;
  }

  lemma {:induction false} TypedElement(name: Option<string>, s: string) returns (elems: seq<Elem>)
    requires s != [] && IsSpecifier(s[0]) && Accepts(1, s[1..]) && (name.Some? ==> ']' !in name.value)
    ensures ElemsOk(elems)
    ensures Render(elems) == RenderName(Elem(name, s[0], One)) + s
    decreases |s|, 0
  {
    hide Render;
    var rest := s[1..];
    var e := Elem(name, s[0], if !AtModifier(rest) then One else if rest[0] == '+' then Plus else Star);
    var more;
    if AtModifier(rest) {
      more := Elements(0, rest[1..]);
    } else {
      more := Elements(1, rest);
    }
    RenderCons(e, more);
    elems := [e] + more;
    assert s == [e.kind] + RenderModifier(e.mod) + Render(more);
  }

  lemma {:induction false} NameAccepted(name: string, rest: string)
    requires ']' !in name
    ensures Accepts(2, name + [']'] + rest) == Accepts(3, rest)
    decreases |name|
  {
    var s := name + [']'] + rest;
    if name == [] {
      assert s[1..] == rest;
    } else {
      NameAccepted(name[1..], rest);
      assert s[1..] == name[1..] + [']'] + rest;
    }
  }

  lemma TypeAccepted(state: int, kind: char, m: Modifier, rest: string)
    requires IsSpecifier(kind) && (state == 0 || state == 1 || state == 3) && Accepts(0, rest) && Accepts(1, rest)
    ensures Accepts(state, [kind] + RenderModifier(m) + rest)
  {
    var tail := RenderModifier(m) + rest;
    assert ([kind] + RenderModifier(m) + rest)[1..] == tail;
    if m == One {
      assert tail == rest;
    } else {
      assert tail[1..] == rest;
    }
  }

  lemma {:induction false} RenderAccepted(state: int, elems: seq<Elem>)
    requires ElemsOk(elems) && (state == 0 || state == 1)
    ensures Accepts(state, Render(elems))
    decreases |elems|
  {
    if elems != [] {
      var e, rest := elems[0], Render(elems[1..]);
      RenderAccepted(0, elems[1..]);
      RenderAccepted(1, elems[1..]);
      var body := [e.kind] + RenderModifier(e.mod) + rest;
      RenderCons(e, elems[1..]);
      assert [e] + elems[1..] == elems;
      if e.name.Some? {
        TypeAccepted(3, e.kind, e.mod, rest);
        NamedAccepted(state, e.name.value, body);
        assert RenderName(e) + body == ['['] + e.name.value + [']'] + body;
      } else {
        TypeAccepted(state, e.kind, e.mod, rest);
        assert RenderName(e) + body == body;
      }
    }
  }

  lemma NamedAccepted(state: int, name: string, body: string)
    requires ']' !in name && Accepts(3, body) && (state == 0 || state == 1)
    ensures Accepts(state, ['['] + name + [']'] + body)
  {
    NameAccepted(name, body);
    assert (['['] + name + [']'] + body)[1..] == name + [']'] + body;
  }

  /** The automaton accepts exactly the strings of the grammar. */
  lemma AcceptsIff(s: string)
    ensures Accepts(0, s) <==> exists elems :: ElemsOk(elems) && s == Render(elems)
  {
    if Accepts(0, s) {
      var elems := Elements(0, s);
    }
    forall elems | ElemsOk(elems) && s == Render(elems) ensures Accepts(0, s) {
      RenderAccepted(0, elems);
    }
  }
}
