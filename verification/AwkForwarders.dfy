/** Programs whose array parameters the analysis misses: a parameter handed on through
    a row of functions, callers first (src/awk_interp.c, awkAnalyzeFunctionArrayParams). */
module AwkForwarders {

  import opened AwkArrayParams
  import opened AwkAst
  import opened AwkGrammar
  import opened AwkParser
  import opened AwkTokens
  import opened AwkTrees

  // ---------- the programs ----------

  function NameOf(i: nat): (s: string)
    ensures |s| == i + 1
  {
    seq(i + 1, _ => 'f')
  }

  function Var(): (n: Node)
    ensures n.Node? && n.kind == VarRef && n.str == Text("a")
  {
    Leaf(VarRef, Text("a"))
  }

  /** ff(a) in the function f and so on; a[a] in the last one. */
  function Inner(i: nat, last: bool): (n: Node)
    ensures n.Node?
  {
    if last then WithList(ArrayRef, Text("a"), [Var()]) else CallNode(Text(NameOf(i + 1)), false, [Var()])
  }

  function Body(i: nat, last: bool): (n: Node)
    ensures n.Node?
  {
    WithList(Block, NoText, [OneChild(ExprStmt, EndOfFile, Inner(i, last))])
  }

  /** function f(a) { ff(a) } and so on; the last one is { a[a] }. */
  function Definition(i: nat, last: bool): (n: Node)
    ensures n.Node? && n.kind == Func
  {
    FuncNode(Text(NameOf(i)), ["a"], Body(i, last))
  }

  function Definitions(n: nat): (prog: seq<Node>)
    ensures |prog| == n + 1
    ensures forall i :: 0 <= i <= n ==> prog[i] == Definition(i, i == n)
  {
    seq(n + 1, i requires 0 <= i <= n => Definition(i, i == n))
  }

  /** The functions that the analysis gets from such a program. */
  function Forwarders(n: nat): (funcs: seq<AwkFunc>)
    ensures |funcs| == n + 1
    ensures forall i :: 0 <= i <= n ==> funcs[i] == AwkFunc(NameOf(i), ["a"], Body(i, i == n))
  {
    seq(n + 1, i requires 0 <= i <= n => AwkFunc(NameOf(i), ["a"], Body(i, i == n)))
  }

  // ---------- they are programs ----------

  function InnerSyms(i: nat, last: bool): seq<Sym> {
    if last then [Word(Name, Text("a"))] + [Op(LBracket)] + [Word(Name, Text("a"))] + [Op(RBracket)]
    else [Word(FuncName, Text(NameOf(i + 1)))] + [Op(LParen)] + [Word(Name, Text("a"))] + [Op(RParen)]
  }

  function BodySyms(i: nat, last: bool): seq<Sym> {
    [Op(LBrace)] + InnerSyms(i, last) + [Op(RBrace)]
  }

  function DefinitionSyms(i: nat, last: bool): seq<Sym> {
    [Op(KwFunction)] + [Word(FuncName, Text(NameOf(i)))] + [Op(LParen)] + [Word(Name, Text("a"))] + [Op(RParen)] + BodySyms(i, last)
  }

  /** The tokens of the first `m` definitions. */
  function ProgramSyms(n: nat, m: nat): seq<Sym> {
    if m == 0 then [] else ProgramSyms(n, m - 1) + DefinitionSyms(m - 1, m - 1 == n)
  }

  lemma InnerTree(i: nat, last: bool)
    ensures Tree(Inner(i, last), 13, false, InnerSyms(i, last))
  {
    hide Tree, Trees, ArgumentTrees, NameOf;
    NameTree(false, Text("a"));
    TreeUp(false, Var(), 0, 13, [Word(Name, Text("a"))]);
    TreesOne(false, Var(), 13, [Word(Name, Text("a"))]);
    if last {
      ElementTree(false, Text("a"), [Var()], [Word(Name, Text("a"))]);
    } else {
      TreesAreArguments([Var()], [Word(Name, Text("a"))]);
      CallTree(false, Text(NameOf(i + 1)), false, [Var()], [Word(Name, Text("a"))]);
    }
    TreeUp(false, Inner(i, last), 0, 13, InnerSyms(i, last));
  }

  lemma BodyTree(i: nat, last: bool)
    ensures ActionTree(Body(i, last), BodySyms(i, last))
  {
    hide ActionTree, StmtTrees, StmtTree, SimpleTree, Tree, Inner, InnerSyms;
    var e, s := Inner(i, last), InnerSyms(i, last);
    InnerTree(i, last);
    ExprStmtTree(e, s);
    var n := OneChild(ExprStmt, EndOfFile, e);
    SimpleIsStmt(n, s);
    StmtTreesNone([]);
    StmtTreesMore([], [], n, s, []);
    assert [] + [n] == [n] && [] + s + [] == s;
    BlockTree([n], s);
  }

  lemma DefinitionTree(i: nat, last: bool)
    ensures ItemTree(Definition(i, last), DefinitionSyms(i, last))
  {
    hide ItemTree, ActionTree, NameOf, Body, BodySyms;
    BodyTree(i, last);
    OneParameter(Text("a"));
    FuncTree(FuncName, Text(NameOf(i)), ["a"], [Word(Name, Text("a"))], Body(i, last), BodySyms(i, last));
  }

  lemma Firsts(n: nat, m: nat)
    requires 0 < m <= n + 1
    ensures Definitions(n)[..m] == Definitions(n)[..m - 1] + [Definition(m - 1, m - 1 == n)]
    ensures ProgramSyms(n, m) == ProgramSyms(n, m - 1) + DefinitionSyms(m - 1, m - 1 == n) + []
  {
    hide Definition, DefinitionSyms;
    assert Definitions(n)[m - 1] == Definition(m - 1, m - 1 == n);
  }

  /** The definitions are a program with these tokens. */
  lemma {:induction false} DefinitionTrees(n: nat, m: nat)
    requires m <= n + 1
    ensures ItemTrees(Definitions(n)[..m], ProgramSyms(n, m))
    decreases m
  {
    hide *;
    if m == 0 {
      NoSemis();
      ItemTreesNone([]);
      NoSyms(n);
      assert Definitions(n)[..m] == [];
    } else {
      DefinitionTrees(n, m - 1);
      DefinitionTree(m - 1, m - 1 == n);
      NoSemis();
      ItemTreesMore(Definitions(n)[..m - 1], ProgramSyms(n, m - 1), Definition(m - 1, m - 1 == n), DefinitionSyms(m - 1, m - 1 == n), []);
      Firsts(n, m);
    }
  }

  lemma NoSemis()
    ensures Semis([])
  {
  }

  lemma NoSyms(n: nat)
    ensures ProgramSyms(n, 0) == []
  {
  }

  /** The analysis gets just these functions. */
  lemma {:induction false} DefinedFunctions(n: nat, m: nat)
    requires m <= n + 1
    ensures AllGood(Definitions(n)[..m]) && FunctionsOf(Definitions(n)[..m]) == Forwarders(n)[..m]
    decreases m
  {
    hide Good, Definition, Body, NameOf, Program;
    DefinitionTrees(n, m);
    if m > 0 {
      DefinedFunctions(n, m - 1);
      Firsts(n, m);
      DefinitionParts(m - 1, m - 1 == n);
      assert Definitions(n)[..m][..m - 1] == Definitions(n)[..m - 1];
      assert Forwarders(n)[..m] == Forwarders(n)[..m - 1] + [Forwarders(n)[m - 1]];
    }
  }

  lemma DefinitionParts(i: nat, last: bool)
    ensures var d := Definition(i, last);
            d.kind == Func && d.str == Text(NameOf(i)) && d.params == ["a"] && d.a == Body(i, last)
  {
  }

  // ---------- what the passes find ----------

  lemma ForwarderIs(n: nat, i: nat)
    requires i <= n
    ensures var f := Forwarders(n)[i];
            f.name == NameOf(i) && f.params == ["a"] && f.body == Body(i, i == n) && WellFormed(f.body)
    ensures InRange(Forwarders(n), Param(i, 0)) && |Forwarders(n)| == n + 1
  {
    hide WellFormed, Body, BodySyms, Action, NameOf;
    BodyTree(i, i == n);
  }

  lemma ForwardersWellFormed(n: nat)
    ensures Bodies(Forwarders(n))
  {
    hide WellFormed, Body, NameOf;
    forall i | 0 <= i <= n
      ensures WellFormed(Forwarders(n)[i].body)
    {
      ForwarderIs(n, i);
    }
  }

  lemma BodyParts(i: nat, last: bool)
    ensures var b := Body(i, last);
            && b.kind == Block && b.a.Null? && b.b.Null? && b.c.Null? && b.list == [OneChild(ExprStmt, EndOfFile, Inner(i, last))]
            && b.list[0].kind == ExprStmt && b.list[0].a == Inner(i, last)
            && b.list[0].b.Null? && b.list[0].c.Null? && b.list[0].list == []
  {
  }

  lemma InnerParts(i: nat, last: bool)
    ensures var n := Inner(i, last);
            && n.kind == (if last then ArrayRef else Call) && n.a.Null? && n.b.Null? && n.c.Null? && n.list == [Var()]
            && (last ==> n.str == Text("a")) && (!last ==> !n.isBuiltin && n.str == Text(NameOf(i + 1)))
    ensures Var().a.Null? && Var().b.Null? && Var().c.Null? && Var().list == []
  {
  }

  lemma ForwarderDirect(n: nat, i: nat)
    requires i <= n && Bodies(Forwarders(n))
    ensures InRange(Forwarders(n), Param(i, 0))
    ensures Direct(Forwarders(n), Param(i, 0)) <==> i == n
  {
    ForwarderIs(n, i);
    BodyParts(i, i == n);
    InnerParts(i, i == n);
    hide Bodies, Forwarders, WellFormed, Inner, Body, Var, UsesNameAsArray;
    BodyUses(Body(i, i == n), Inner(i, i == n), Var());
  }

  /** A block of one statement uses the name if its expression does. */
  lemma BodyUses(b: Node, e: Node, leaf: Node)
    requires b.Node? && b.kind == Block && b.a.Null? && b.b.Null? && b.c.Null? && |b.list| == 1 && WellFormed(b)
    requires var s := b.list[0]; s.Node? && s.kind == ExprStmt && s.a == e && s.b.Null? && s.c.Null? && s.list == []
    requires e.Node? && e.a.Null? && e.b.Null? && e.c.Null? && e.list == [leaf] && e.kind in {Call, ArrayRef}
    requires leaf.Node? && leaf.kind == VarRef && leaf.a.Null? && leaf.b.Null? && leaf.c.Null? && leaf.list == []
    requires e.kind == ArrayRef ==> e.str == Text("a")
    requires e.kind == Call ==> !e.isBuiltin
    ensures UsesNameAsArray(b, "a") <==> e.kind == ArrayRef
  {
    hide *;
    var s := b.list[0];
    ItemUses(b, s);
    ChildUses(s);
    if e.kind == Call {
      ItemUses(e, leaf);
      LeafUses(leaf);
    } else {
      ElementUses(e);
    }
  }

  lemma ItemUses(n: Node, item: Node)
    requires n.Node? && WellFormed(n) && n.a.Null? && n.b.Null? && n.c.Null? && n.list == [item]
    requires n.kind == Block || (n.kind == Call && !n.isBuiltin)
    ensures item.Node? && WellFormed(item) && (UsesNameAsArray(n, "a") <==> UsesNameAsArray(item, "a"))
  {
    hide HasParts;
    assert n.list[0] == item;
  }

  lemma ChildUses(n: Node)
    requires n.Node? && n.kind == ExprStmt && WellFormed(n) && n.b.Null? && n.c.Null? && n.list == []
    ensures WellFormed(n.a) && (UsesNameAsArray(n, "a") <==> UsesNameAsArray(n.a, "a"))
  {
    hide HasParts;
  }

  lemma LeafUses(n: Node)
    requires n.Node? && n.kind == VarRef && n.a.Null? && n.b.Null? && n.c.Null? && n.list == [] && WellFormed(n)
    ensures !UsesNameAsArray(n, "a")
  {
    hide HasParts;
  }

  lemma ElementUses(n: Node)
    requires n.Node? && n.kind == ArrayRef && n.str == Text("a") && WellFormed(n)
    ensures UsesNameAsArray(n, "a")
  {
    hide HasParts;
  }

  lemma FindForwarder(n: nat, i: nat)
    requires i <= n
    ensures FindFunc(Forwarders(n), NameOf(i)) == i
  {
    hide Body;
    var j := FindFunc(Forwarders(n), NameOf(i));
    assert Forwarders(n)[i].name == NameOf(i);
    assert j <= n ==> Forwarders(n)[j].name == NameOf(j);
  }

  lemma WithinForwarder(i: nat, last: bool, m: Node)
    ensures Within(Inner(i, last), Body(i, last))
    ensures Within(m, Body(i, last)) && m.Node? && m.kind == Call ==> m == Inner(i, last)
  {
    BodyParts(i, last);
    InnerParts(i, last);
    var b, e := Body(i, last), Inner(i, last);
    hide Inner, Body, Var;
    assert Within(e, e);
    assert Within(e, b.list[0]);
    if Within(m, b) && m.Node? && m.kind == Call {
      assert Within(m, b.list[0]);
      assert Within(m, e);
      assert !Within(m, Var());
    }
  }

  lemma PassesOne(funcs: seq<AwkFunc>, m: Node, leaf: Node, j: nat, y: Param)
    requires m.Node? && WellFormed(m) && m.kind == Call && !m.isBuiltin && m.str.Text? && m.list == [leaf]
    requires leaf.Node? && leaf.kind == VarRef && leaf.str == Text("a")
    requires FindFunc(funcs, m.str.chars) == j && InRange(funcs, Param(j, 0))
    ensures PassesAt(funcs, m, "a", y) <==> y == Param(j, 0)
  {
    hide WellFormed, FindFunc;
  }

  /** The call in a forwarder passes its parameter to the next, and to no other. */
  lemma InnerPasses(n: nat, i: nat, y: Param)
    requires i < n && WellFormed(Inner(i, false))
    ensures PassesAt(Forwarders(n), Inner(i, false), "a", y) <==> y == Param(i + 1, 0)
  {
    hide *;
    FindForwarder(n, i + 1);
    ForwarderIs(n, i + 1);
    InnerParts(i, false);
    PassesOne(Forwarders(n), Inner(i, false), Var(), i + 1, y);
  }

  lemma ForwarderPasses(n: nat, i: nat)
    requires i < n && Bodies(Forwarders(n))
    ensures Hop(Forwarders(n), Param(i, 0), Param(i + 1, 0))
  {
    hide *;
    ForwarderIs(n, i);
    ForwarderIs(n, i + 1);
    WithinForwarder(i, false, Inner(i, false));
    PartsWellFormed(Inner(i, false), Body(i, false));
    InnerPasses(n, i, Param(i + 1, 0));
    PassIsHop(Forwarders(n), Param(i, 0), Inner(i, false), Param(i + 1, 0));
  }

  lemma PassIsHop(funcs: seq<AwkFunc>, x: Param, m: Node, y: Param)
    requires Bodies(funcs) && InRange(funcs, x) && InRange(funcs, y)
    requires Within(m, funcs[x.f].body) && m.Node? && WellFormed(m) && PassesAt(funcs, m, funcs[x.f].params[x.p], y)
    ensures Hop(funcs, x, y)
  {
    hide Within, WellFormed, PassesAt;
  }

  lemma HopIsPass(funcs: seq<AwkFunc>, x: Param, y: Param) returns (m: Node)
    requires Bodies(funcs) && Hop(funcs, x, y)
    ensures InRange(funcs, x) && Within(m, funcs[x.f].body) && m.Node? && WellFormed(m)
    ensures PassesAt(funcs, m, funcs[x.f].params[x.p], y) && m.kind == Call
  {
    hide Within, WellFormed, PassesAt;
    m :| Within(m, funcs[x.f].body) && m.Node? && WellFormed(m) && PassesAt(funcs, m, funcs[x.f].params[x.p], y);
    PassIsCall(funcs, m, funcs[x.f].params[x.p], y);
  }

  lemma PassIsCall(funcs: seq<AwkFunc>, m: Node, name: string, y: Param)
    requires m.Node? && WellFormed(m) && PassesAt(funcs, m, name, y)
    ensures m.kind == Call
  {
    hide WellFormed;
  }

  lemma ForwarderHop(n: nat, i: nat, y: Param)
    requires i <= n && Bodies(Forwarders(n)) && Hop(Forwarders(n), Param(i, 0), y)
    ensures i < n && y == Param(i + 1, 0)
  {
    hide *;
    ForwarderIs(n, i);
    var m := HopIsPass(Forwarders(n), Param(i, 0), y);
    WithinForwarder(i, i == n, m);
    InnerParts(i, i == n);
    if i < n {
      InnerPasses(n, i, y);
    }
  }

  /** A parameter that is handed to one later parameter only. */
  lemma SweptByOne(funcs: seq<AwkFunc>, t: nat, x: Param, y: Param)
    requires Bodies(funcs) && Hop(funcs, x, y) && t > 0 && !Before(y, x)
    requires forall z :: Hop(funcs, x, z) ==> z == y
    ensures InRange(funcs, x) && InRange(funcs, y)
    ensures Swept(funcs, t, x) <==> Swept(funcs, t - 1, x) || Swept(funcs, t - 1, y)
  {
    hide Bodies, Direct, Edge, Before;
  }

  lemma SweptByNone(funcs: seq<AwkFunc>, t: nat, x: Param)
    requires Bodies(funcs) && InRange(funcs, x) && t > 0
    requires forall z :: !Hop(funcs, x, z)
    ensures Swept(funcs, t, x) <==> Swept(funcs, t - 1, x)
  {
    hide Bodies, Direct, Hop, Before;
  }

  lemma SweptAtFirst(funcs: seq<AwkFunc>, x: Param)
    requires Bodies(funcs) && InRange(funcs, x)
    ensures Swept(funcs, 0, x) <==> Direct(funcs, x)
  {
    hide Bodies, Direct, InRange;
  }

  lemma NextIsLater(i: nat)
    ensures !Before(Param(i + 1, 0), Param(i, 0))
  {
  }

  lemma {:induction false} ForwarderSwept(n: nat, t: nat, i: nat)
    requires i <= n && Bodies(Forwarders(n))
    ensures InRange(Forwarders(n), Param(i, 0))
    ensures Swept(Forwarders(n), t, Param(i, 0)) <==> n - i <= t
    decreases t
  {
    hide *;
    ForwarderIs(n, i);
    ForwarderDirect(n, i);
    var funcs, x, y := Forwarders(n), Param(i, 0), Param(i + 1, 0);
    if t == 0 {
      SweptAtFirst(funcs, x);
    } else {
      ForwarderSwept(n, t - 1, i);
      forall z | Hop(funcs, x, z)
        ensures i < n && z == y
      {
        ForwarderHop(n, i, z);
      }
      if i < n {
        ForwarderPasses(n, i);
        NextIsLater(i);
        SweptByOne(funcs, t, x, y);
        ForwarderSwept(n, t - 1, i + 1);
      } else {
        SweptByNone(funcs, t, x);
      }
    }
  }

  /** The program that hands a parameter on through `n` calls, callers first, is a
      program of awk, its first parameter is an array for every `n`, and the analysis
      flags it only up to eight. */
  lemma LongChainsAreMissed(n: nat)
    ensures Program(Definitions(n), ProgramSyms(n, n + 1)) && AllGood(Definitions(n))
    ensures FunctionsOf(Definitions(n)) == Forwarders(n) && Bodies(Forwarders(n))
    ensures ArrayParam(Forwarders(n), Param(0, 0))
    ensures Swept(Forwarders(n), PASSES, Param(0, 0)) <==> n <= PASSES
  {
    hide Swept, Bodies, Hop, Program, AllGood, FunctionsOf, ProgramSyms, Definition, Body;
    DefinitionTrees(n, n + 1);
    DefinedFunctions(n, n + 1);
    assert Definitions(n)[..n + 1] == Definitions(n) && Forwarders(n)[..n + 1] == Forwarders(n);
    ForwardersWellFormed(n);
    ForwarderSwept(n, PASSES, 0);
    ForwarderSwept(n, n, 0);
    SweptIffChain(Forwarders(n), n, Param(0, 0));
  }
}
