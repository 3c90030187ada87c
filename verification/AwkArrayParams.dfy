/** Which parameters of user functions are arrays: a use analysis of one function
    body and its propagation through calls (src/awk_interp.c,
    awkNodeUsesNameAsArray, awkNodeForwardsNameAsArrayCall and
    awkAnalyzeFunctionArrayParams). */
module AwkArrayParams {

  import opened AwkAst
  import opened AwkTokens

  datatype AwkFunc = AwkFunc(name: string, params: seq<string>, body: Node)

  /** The `p`-th parameter of the `f`-th function. */
  datatype Param = Param(f: nat, p: nat)

  const PASSES: nat := 8

  type Flags = seq<seq<bool>>

  predicate InRange(funcs: seq<AwkFunc>, x: Param) {
    x.f < |funcs| && x.p < |funcs[x.f].params|
  }

  predicate Shaped(funcs: seq<AwkFunc>, flags: Flags) {
    |flags| == |funcs| && forall i :: 0 <= i < |funcs| ==> |flags[i]| == |funcs[i].params|
  }

  predicate Bodies(funcs: seq<AwkFunc>) {
    forall i :: 0 <= i < |funcs| ==> WellFormed(funcs[i].body)
  }

  predicate Flag(funcs: seq<AwkFunc>, flags: Flags, x: Param)
    requires Shaped(funcs, flags)
  {
    InRange(funcs, x) && flags[x.f][x.p]
  }

  // ---------- one body ----------

  /** This node on its own makes `name` an array. */
  predicate DirectAt(n: Node, name: string)
    requires n.Node? && WellFormed(n)
  {
    match n.kind
    case ArrayRef => n.str == Text(name)
    case In => n.str == Text(name)
    case Delete => n.str == Text(name)
    case DeleteAll => n.str == Text(name)
    case ForIn => n.str2 == Text(name)
    case Call => n.isBuiltin && n.str == Text("split") && |n.list| >= 2 && n.list[1].kind == VarRef && n.list[1].str == Text(name)
    case _ => false
  }

  predicate UsesNameAsArray(n: Node, name: string)
    requires WellFormed(n)
  {
    n.Node? &&
      (|| DirectAt(n, name)
       || UsesNameAsArray(n.a, name)
       || UsesNameAsArray(n.b, name)
       || UsesNameAsArray(n.c, name)
       || exists i :: 0 <= i < |n.list| && UsesNameAsArray(n.list[i], name))
  }

  /** The first function of that name; |funcs| when there is none. */
  function FindFunc(funcs: seq<AwkFunc>, name: string): (j: nat)
    ensures j <= |funcs|
    ensures forall i :: 0 <= i < j ==> funcs[i].name != name
    ensures j < |funcs| ==> funcs[j].name == name
  {
    if funcs == [] || funcs[0].name == name then 0 else 1 + FindFunc(funcs[1..], name)
  }

  /** This node calls a user function with `name` alone as argument for parameter `y`. */
  predicate PassesAt(funcs: seq<AwkFunc>, n: Node, name: string, y: Param)
    requires n.Node? && WellFormed(n)
  {
    && n.kind == Call && !n.isBuiltin
    && y.f == FindFunc(funcs, n.str.chars) && InRange(funcs, y)
    && y.p < |n.list| && n.list[y.p].kind == VarRef && n.list[y.p].str == Text(name)
  }

  /** This node is a call that passes `name` alone for a flagged parameter. */
  predicate CallFlags(funcs: seq<AwkFunc>, flags: Flags, n: Node, name: string)
    requires Shaped(funcs, flags) && n.Node? && WellFormed(n)
  {
    && n.kind == Call && !n.isBuiltin
    && var j := FindFunc(funcs, n.str.chars);
       exists i :: 0 <= i < |n.list| && PassesAt(funcs, n, name, Param(j, i)) && Flag(funcs, flags, Param(j, i))
  }

  predicate ForwardsNameAsArrayCall(funcs: seq<AwkFunc>, flags: Flags, n: Node, name: string)
    requires Shaped(funcs, flags) && WellFormed(n)
  {
    n.Node? &&
      (|| CallFlags(funcs, flags, n, name)
       || ForwardsNameAsArrayCall(funcs, flags, n.a, name)
       || ForwardsNameAsArrayCall(funcs, flags, n.b, name)
       || ForwardsNameAsArrayCall(funcs, flags, n.c, name)
       || exists i :: 0 <= i < |n.list| && ForwardsNameAsArrayCall(funcs, flags, n.list[i], name))
  }

  lemma {:induction false} PartsWellFormed(m: Node, n: Node)
    requires WellFormed(n) && Within(m, n)
    ensures m.Node? && WellFormed(m)
    decreases n
  {
    if m == n {
    } else if Within(m, n.a) {
      PartsWellFormed(m, n.a);
    } else if Within(m, n.b) {
      PartsWellFormed(m, n.b);
    } else if Within(m, n.c) {
      PartsWellFormed(m, n.c);
    } else {
      var k :| 0 <= k < |n.list| && Within(m, n.list[k]);
      PartsWellFormed(m, n.list[k]);
    }
  }

  /** The walk finds exactly the direct uses anywhere in the body. */
  lemma {:induction false} UsesIffDirectWithin(n: Node, name: string)
    requires WellFormed(n)
    ensures UsesNameAsArray(n, name) <==> exists m :: Within(m, n) && m.Node? && WellFormed(m) && DirectAt(m, name)
  {
    if n.Node? {
      UsesIffDirectWithin(n.a, name);
      UsesIffDirectWithin(n.b, name);
      UsesIffDirectWithin(n.c, name);
      forall k | 0 <= k < |n.list|
        ensures UsesNameAsArray(n.list[k], name)
           <==> exists m :: Within(m, n.list[k]) && m.Node? && WellFormed(m) && DirectAt(m, name)
      {
        UsesIffDirectWithin(n.list[k], name);
      }
      hide DirectAt;
    }
  }

  /** Somewhere in the body of x's function, x's name alone is the argument for y. */
  ghost predicate Edge(funcs: seq<AwkFunc>, x: Param, y: Param)
    requires Bodies(funcs) && InRange(funcs, x)
  {
    BodyPasses(funcs, funcs[x.f].body, funcs[x.f].params[x.p], y)
  }

  ghost predicate BodyPasses(funcs: seq<AwkFunc>, n: Node, name: string, y: Param)
    requires WellFormed(n)
  {
    exists m :: Within(m, n) && m.Node? && WellFormed(m) && PassesAt(funcs, m, name, y)
  }

  /** Somewhere in the body, `name` alone is the argument for a flagged parameter. */
  ghost predicate PassesToFlagged(funcs: seq<AwkFunc>, flags: Flags, n: Node, name: string)
    requires Shaped(funcs, flags) && WellFormed(n)
  {
    exists y :: BodyPasses(funcs, n, name, y) && Flag(funcs, flags, y)
  }

  lemma {:induction false} ForwardsIffPasses(funcs: seq<AwkFunc>, flags: Flags, n: Node, name: string)
    requires Shaped(funcs, flags) && WellFormed(n)
    ensures ForwardsNameAsArrayCall(funcs, flags, n, name) <==> PassesToFlagged(funcs, flags, n, name)
  {
    if n.Node? {
      ForwardsIffPasses(funcs, flags, n.a, name);
      ForwardsIffPasses(funcs, flags, n.b, name);
      ForwardsIffPasses(funcs, flags, n.c, name);
      forall k | 0 <= k < |n.list|
        ensures ForwardsNameAsArrayCall(funcs, flags, n.list[k], name) <==> PassesToFlagged(funcs, flags, n.list[k], name)
      {
        ForwardsIffPasses(funcs, flags, n.list[k], name);
      }
      FlaggedInParts(funcs, flags, n, name);
      hide CallFlags, PassesToFlagged, HasParts;
    }
  }

  lemma FlaggedInParts(funcs: seq<AwkFunc>, flags: Flags, n: Node, name: string)
    requires Shaped(funcs, flags) && n.Node? && WellFormed(n)
    ensures PassesToFlagged(funcs, flags, n, name) <==>
              (|| CallFlags(funcs, flags, n, name)
               || PassesToFlagged(funcs, flags, n.a, name)
               || PassesToFlagged(funcs, flags, n.b, name)
               || PassesToFlagged(funcs, flags, n.c, name)
               || exists k :: 0 <= k < |n.list| && PassesToFlagged(funcs, flags, n.list[k], name))
  {
    forall y ensures PartsPass(funcs, n, name, y) <==> BodyPasses(funcs, n, name, y) {
      PassesInParts(funcs, n, name, y);
    }
    CallFlagsIff(funcs, flags, n, name);
    hide PassesAt, BodyPasses, CallFlags, HasParts, Flag, Shaped;
  }

  lemma CallFlagsIff(funcs: seq<AwkFunc>, flags: Flags, n: Node, name: string)
    requires Shaped(funcs, flags) && n.Node? && WellFormed(n)
    ensures CallFlags(funcs, flags, n, name) <==> exists y :: PassesAt(funcs, n, name, y) && Flag(funcs, flags, y)
  {
    hide Flag;
    if y :| PassesAt(funcs, n, name, y) && Flag(funcs, flags, y) {
      assert y == Param(FindFunc(funcs, n.str.chars), y.p);
    }
  }

  ghost predicate PartsPass(funcs: seq<AwkFunc>, n: Node, name: string, y: Param)
    requires n.Node? && WellFormed(n)
  {
    || PassesAt(funcs, n, name, y) || BodyPasses(funcs, n.a, name, y) || BodyPasses(funcs, n.b, name, y)
    || BodyPasses(funcs, n.c, name, y)
    || exists k :: 0 <= k < |n.list| && BodyPasses(funcs, n.list[k], name, y)
  }

  lemma PassesInParts(funcs: seq<AwkFunc>, n: Node, name: string, y: Param)
    requires n.Node? && WellFormed(n)
    ensures PartsPass(funcs, n, name, y) <==> BodyPasses(funcs, n, name, y)
  {
    hide PassesAt, WellFormed;
    assert Within(n, n);
  }

  // ---------- what the passes compute ----------

  ghost predicate Direct(funcs: seq<AwkFunc>, x: Param)
    requires Bodies(funcs) && InRange(funcs, x)
  {
    UsesNameAsArray(funcs[x.f].body, funcs[x.f].params[x.p])
  }

  /** x is forwarded to y. */
  ghost predicate Hop(funcs: seq<AwkFunc>, x: Param, y: Param)
    requires Bodies(funcs)
  {
    InRange(funcs, x) && InRange(funcs, y) && Edge(funcs, x, y)
  }

  /** The order in which a pass visits the parameters. */
  predicate Before(x: Param, y: Param) {
    x.f < y.f || (x.f == y.f && x.p < y.p)
  }

  /** x is flagged after `t` passes: a pass sees the flags it has already set. */
  ghost predicate Swept(funcs: seq<AwkFunc>, t: nat, x: Param)
    requires Bodies(funcs) && InRange(funcs, x)
    decreases t, x.f, x.p
  {
    if t == 0 then Direct(funcs, x)
    else
      || Swept(funcs, t - 1, x)
      || exists y :: Hop(funcs, x, y) && if Before(y, x) then Swept(funcs, t, y) else Swept(funcs, t - 1, y)
  }

  lemma {:induction false} SweptStays(funcs: seq<AwkFunc>, t: nat, u: nat, x: Param)
    requires Bodies(funcs) && InRange(funcs, x) && t <= u && Swept(funcs, t, x)
    ensures Swept(funcs, u, x)
  {
    if t < u {
      SweptStays(funcs, t, u - 1, x);
      hide Bodies, InRange, Hop, Before;
    }
  }

  /** A pass that changes nothing is the last that could. */
  lemma {:induction false} QuietPassIsLast(funcs: seq<AwkFunc>, t: nat, u: nat, x: Param)
    requires Bodies(funcs) && InRange(funcs, x) && t <= u
    requires forall z :: InRange(funcs, z) && Swept(funcs, t + 1, z) ==> Swept(funcs, t, z)
    ensures Swept(funcs, u, x) <==> Swept(funcs, t, x)
    decreases u, x.f, x.p
  {
    hide Bodies, Edge, Direct;
    if Swept(funcs, t, x) {
      SweptStays(funcs, t, u, x);
    } else if u > t + 1 {
      QuietPassIsLast(funcs, t, u - 1, x);
      if Swept(funcs, u, x) {
        var y :| Hop(funcs, x, y) && if Before(y, x) then Swept(funcs, u, y) else Swept(funcs, u - 1, y);
        if Before(y, x) {
          QuietPassIsLast(funcs, t, u, y);
        } else {
          QuietPassIsLast(funcs, t, u - 1, y);
        }
        HopIsSwept(funcs, t, x, y);
      }
    }
  }

  lemma HopIsSwept(funcs: seq<AwkFunc>, t: nat, x: Param, y: Param)
    requires Bodies(funcs) && Hop(funcs, x, y) && Swept(funcs, t, y)
    ensures Swept(funcs, t + 1, x)
  {
    hide Bodies, Edge, Direct;
    SweptStays(funcs, t, t + 1, y);
  }

  // ---------- chains of forwarding calls ----------

  /** Each parameter is forwarded to the next and the last is used as an array. */
  ghost predicate Chain(funcs: seq<AwkFunc>, c: seq<Param>)
    requires Bodies(funcs)
  {
    && c != []
    && (forall k :: 0 <= k < |c| ==> InRange(funcs, c[k]))
    && (forall k :: 0 <= k < |c| - 1 ==> Hop(funcs, c[k], c[k + 1]))
    && Direct(funcs, c[|c| - 1])
  }

  /** The passes a chain needs: one, and one more for each call, other than the
      last, that does not go back to a parameter visited earlier. */
  function Sweeps(c: seq<Param>): (n: nat)
    requires c != []
    ensures n <= |c| - 1
  {
    if |c| == 1 then 0
    else
      var n := Sweeps(c[1..]) + if Before(c[1], c[0]) then 0 else 1;
      if n == 0 then 1 else n
  }

  ghost predicate ChainWithin(funcs: seq<AwkFunc>, t: nat, x: Param)
    requires Bodies(funcs)
  {
    exists c :: Chain(funcs, c) && c[0] == x && Sweeps(c) <= t
  }

  /** The parameters that are arrays: those with a chain to a direct use. */
  ghost predicate ArrayParam(funcs: seq<AwkFunc>, x: Param)
    requires Bodies(funcs)
  {
    exists c :: Chain(funcs, c) && c[0] == x
  }

  lemma ChainGrows(funcs: seq<AwkFunc>, x: Param, c: seq<Param>)
    requires Bodies(funcs) && Chain(funcs, c) && Hop(funcs, x, c[0])
    ensures Chain(funcs, [x] + c)
    ensures var n := Sweeps(c) + if Before(c[0], x) then 0 else 1;
            Sweeps([x] + c) == if n == 0 then 1 else n
  {
    hide Bodies, Edge, Direct, Before;
    var d := [x] + c;
    assert d[1..] == c;
    forall k | 0 <= k < |d| - 1
      ensures Hop(funcs, d[k], d[k + 1])
    {
      if k > 0 {
        assert d[k] == c[k - 1] && d[k + 1] == c[k];
      }
    }
    forall k | 0 <= k < |d|
      ensures InRange(funcs, d[k])
    {
      if k > 0 {
        assert d[k] == c[k - 1];
      }
    }
  }

  lemma ChainShrinks(funcs: seq<AwkFunc>, c: seq<Param>)
    requires Bodies(funcs) && Chain(funcs, c) && |c| > 1
    ensures Chain(funcs, c[1..]) && Hop(funcs, c[0], c[1])
  {
    hide Bodies, Edge, Direct, Hop, InRange;
    var d := c[1..];
    forall k | 0 <= k < |d| - 1
      ensures Hop(funcs, d[k], d[k + 1])
    {
      assert d[k] == c[k + 1] && d[k + 1] == c[k + 2];
    }
  }

  lemma {:induction false} SweptHasChain(funcs: seq<AwkFunc>, t: nat, x: Param)
    requires Bodies(funcs) && InRange(funcs, x) && Swept(funcs, t, x)
    ensures ChainWithin(funcs, t, x)
    decreases t, x.f, x.p
  {
    hide Bodies, Edge, Direct;
    if t == 0 {
      assert Chain(funcs, [x]) && Sweeps([x]) == 0;
    } else if Swept(funcs, t - 1, x) {
      SweptHasChain(funcs, t - 1, x);
    } else {
      var y :| Hop(funcs, x, y) && if Before(y, x) then Swept(funcs, t, y) else Swept(funcs, t - 1, y);
      var u := if Before(y, x) then t else t - 1;
      SweptHasChain(funcs, u, y);
      var c :| Chain(funcs, c) && c[0] == y && Sweeps(c) <= u;
      ChainGrows(funcs, x, c);
      assert ([x] + c)[0] == x;
    }
  }

  lemma {:induction false} ChainIsSwept(funcs: seq<AwkFunc>, t: nat, c: seq<Param>)
    requires Bodies(funcs) && Chain(funcs, c) && Sweeps(c) <= t
    ensures Swept(funcs, t, c[0])
    decreases |c|
  {
    hide Bodies, Edge, Direct;
    if |c| == 1 {
      SweptStays(funcs, 0, t, c[0]);
    } else {
      ChainShrinks(funcs, c);
      ChainIsSwept(funcs, if Before(c[1], c[0]) then t else t - 1, c[1..]);
    }
  }

  /** `t` passes flag exactly the parameters with a chain that needs at most `t`. */
  lemma SweptIffChain(funcs: seq<AwkFunc>, t: nat, x: Param)
    requires Bodies(funcs) && InRange(funcs, x)
    ensures Swept(funcs, t, x) <==> ChainWithin(funcs, t, x)
  {
    hide Swept, Bodies;
    if Swept(funcs, t, x) {
      SweptHasChain(funcs, t, x);
    }
    if ChainWithin(funcs, t, x) {
      var c :| Chain(funcs, c) && c[0] == x && Sweeps(c) <= t;
      ChainIsSwept(funcs, t, c);
    }
  }

  /** A set of parameters with the direct uses, closed under forwarding. */
  ghost predicate Closed(funcs: seq<AwkFunc>, s: set<Param>)
    requires Bodies(funcs)
  {
    && (forall x :: InRange(funcs, x) && Direct(funcs, x) ==> x in s)
    && (forall x, y :: Hop(funcs, x, y) && y in s ==> x in s)
  }

  /** ArrayParam is the least fixed point: it is in every closed set. */
  lemma {:induction false} ChainStaysInClosed(funcs: seq<AwkFunc>, s: set<Param>, c: seq<Param>)
    requires Bodies(funcs) && Closed(funcs, s) && Chain(funcs, c)
    ensures c[0] in s
    decreases |c|
  {
    hide Bodies, Edge, Direct;
    if |c| > 1 {
      ChainShrinks(funcs, c);
      ChainStaysInClosed(funcs, s, c[1..]);
    }
  }

  /** ArrayParam is closed itself. */
  lemma ArrayParamIsClosed(funcs: seq<AwkFunc>, x: Param, y: Param)
    requires Bodies(funcs) && InRange(funcs, x)
    ensures Direct(funcs, x) ==> ArrayParam(funcs, x)
    ensures Hop(funcs, x, y) && ArrayParam(funcs, y) ==> ArrayParam(funcs, x)
  {
    hide Bodies, Edge, Direct;
    if Direct(funcs, x) {
      assert Chain(funcs, [x]) && [x][0] == x;
    }
    if Hop(funcs, x, y) && ArrayParam(funcs, y) {
      var c :| Chain(funcs, c) && c[0] == y;
      ChainGrows(funcs, x, c);
      assert ([x] + c)[0] == x;
    }
  }

  // ---------- how far eight passes reach ----------

  /** What the analysis flags is an array parameter, and every parameter at most
      eight forwarding calls from a direct use is flagged. */
  lemma FlagsAreSound(funcs: seq<AwkFunc>, x: Param, c: seq<Param>)
    requires Bodies(funcs) && InRange(funcs, x)
    ensures Swept(funcs, PASSES, x) ==> ArrayParam(funcs, x)
    ensures Chain(funcs, c) && c[0] == x && |c| <= PASSES + 1 ==> Swept(funcs, PASSES, x)
  {
    hide Swept, Bodies, Hop, InRange;
    SweptIffChain(funcs, PASSES, x);
  }

  /** The analysis is complete if and only if every array parameter has a chain
      that needs at most eight passes. */
  lemma CompleteIffEveryChainIsShort(funcs: seq<AwkFunc>)
    requires Bodies(funcs)
    ensures (forall x :: InRange(funcs, x) && ArrayParam(funcs, x) ==> Swept(funcs, PASSES, x))
       <==> (forall x :: InRange(funcs, x) && ArrayParam(funcs, x) ==> ChainWithin(funcs, PASSES, x))
  {
    forall x | InRange(funcs, x)
      ensures Swept(funcs, PASSES, x) <==> ChainWithin(funcs, PASSES, x)
    {
      SweptIffChain(funcs, PASSES, x);
    }
    hide *;
  }

  predicate Distinct(c: seq<Param>) {
    forall i, j :: 0 <= i < j < |c| ==> c[i] != c[j]
  }

  /** A chain that repeats a parameter has a shorter one with the same start. */
  lemma SkipLoop(funcs: seq<AwkFunc>, c: seq<Param>, i: nat, j: nat)
    requires Bodies(funcs) && Chain(funcs, c) && i < j < |c| && c[i] == c[j]
    ensures Chain(funcs, c[..i] + c[j..]) && (c[..i] + c[j..])[0] == c[0]
  {
    hide Bodies, Edge, Direct, Hop, InRange;
    var d := c[..i] + c[j..];
    forall k | 0 <= k < |d| - 1
      ensures Hop(funcs, d[k], d[k + 1])
    {
      if k >= i {
        assert d[k] == c[k - i + j] && d[k + 1] == c[k - i + j + 1];
      } else if k + 1 < i {
        assert d[k] == c[k] && d[k + 1] == c[k + 1];
      } else {
        assert d[k] == c[k] && d[k + 1] == c[j] == c[k + 1];
      }
    }
    forall k | 0 <= k < |d|
      ensures InRange(funcs, d[k])
    {
      assert d[k] == if k < i then c[k] else c[k - i + j];
    }
  }

  lemma {:induction false} DistinctChain(funcs: seq<AwkFunc>, c: seq<Param>) returns (d: seq<Param>)
    requires Bodies(funcs) && Chain(funcs, c)
    ensures Chain(funcs, d) && d[0] == c[0] && Distinct(d)
    decreases |c|
  {
    hide Bodies, Edge, Direct, Hop, InRange;
    if Distinct(c) {
      return c;
    }
    var i, j :| 0 <= i < j < |c| && c[i] == c[j];
    SkipLoop(funcs, c, i, j);
    d := DistinctChain(funcs, c[..i] + c[j..]);
  }

  lemma {:induction false} DistinctFits(c: seq<Param>, s: set<Param>)
    requires Distinct(c) && forall k :: 0 <= k < |c| ==> c[k] in s
    ensures |c| <= |s|
  {
    if c != [] {
      DistinctFits(c[1..], s - {c[0]});
    }
  }

  function AllParams(funcs: seq<AwkFunc>): (s: set<Param>)
    ensures forall x :: x in s <==> InRange(funcs, x)
  {
    set i, p | 0 <= i < |funcs| && 0 <= p < |funcs[i].params| :: Param(i, p)
  }

  /** With at most nine parameters in the whole program the analysis is complete. */
  lemma NineParametersAreEnough(funcs: seq<AwkFunc>, x: Param)
    requires Bodies(funcs) && InRange(funcs, x) && |AllParams(funcs)| <= PASSES + 1
    ensures Swept(funcs, PASSES, x) <==> ArrayParam(funcs, x)
  {
    hide Swept, Bodies, Hop, InRange, AllParams;
    if ArrayParam(funcs, x) {
      var c :| Chain(funcs, c) && c[0] == x;
      var d := DistinctChain(funcs, c);
      DistinctFits(d, AllParams(funcs));
      FlagsAreSound(funcs, x, d);
    }
    FlagsAreSound(funcs, x, [x]);
  }

  // ---------- the analysis ----------

  /** The flags before `next` are those of pass `t`, the others of the pass before. */
  ghost predicate Halfway(funcs: seq<AwkFunc>, flags: Flags, t: nat, next: Param)
    requires Bodies(funcs) && t > 0
  {
    && Shaped(funcs, flags)
    && forall x :: InRange(funcs, x) ==> (Flag(funcs, flags, x) <==> Swept(funcs, if Before(x, next) then t else t - 1, x))
  }

  /** The flags with that of x set. */
  function Raised(funcs: seq<AwkFunc>, flags: Flags, x: Param): (r: Flags)
    requires Shaped(funcs, flags) && InRange(funcs, x)
    ensures Shaped(funcs, r) && Flag(funcs, r, x)
    ensures forall y :: y != x ==> (Flag(funcs, r, y) <==> Flag(funcs, flags, y))
  {
    flags[x.f := flags[x.f][x.p := true]]
  }

  /** Only the flag of x may have been set, to what pass `t` decides for it. */
  lemma NowDecided(funcs: seq<AwkFunc>, was: Flags, now: Flags, t: nat, x: Param)
    requires Bodies(funcs) && t > 0 && InRange(funcs, x) && Halfway(funcs, was, t, x)
    requires Shaped(funcs, now) && (Flag(funcs, now, x) <==> Swept(funcs, t, x))
    requires forall y :: InRange(funcs, y) && y != x ==> (Flag(funcs, now, y) <==> Flag(funcs, was, y))
    ensures Halfway(funcs, now, t, Param(x.f, x.p + 1))
  {
    hide Bodies, InRange, Flag, Swept, Shaped;
  }

  class Analysis {
    const funcs: seq<AwkFunc>
    var paramIsArray: Flags

    constructor (funcs: seq<AwkFunc>)
      ensures this.funcs == funcs
    {
      this.funcs := funcs;
      paramIsArray := [];
    }

    /** Is x flagged now? */
    predicate IsFlagged(x: Param)
      requires Shaped(funcs, paramIsArray)
      reads this
    {
      Flag(funcs, paramIsArray, x)
    }

    /** The flags are what `t` passes compute. */
    ghost predicate After(t: nat)
      requires Bodies(funcs)
      reads this
    {
      Shaped(funcs, paramIsArray) && forall x :: InRange(funcs, x) ==> (IsFlagged(x) <==> Swept(funcs, t, x))
    }

    method AnalyzeFunctionArrayParams()
      requires Bodies(funcs)
      modifies this
      ensures After(PASSES)
    {
      hide *;
      FlagDirectUses();
      var iter := 0;
      while iter < PASSES
        invariant iter <= PASSES && After(iter)
      {
        var changed := Pass(iter);
        if !changed {
          QuietPass(iter);
          return;
        }
        iter := iter + 1;
      }
    }

    lemma QuietPass(t: nat)
      requires Bodies(funcs) && t < PASSES && After(t + 1) && Quiet(t)
      ensures After(PASSES)
    {
      hide Bodies, InRange, Swept;
      forall x | InRange(funcs, x)
        ensures Swept(funcs, PASSES, x) <==> Swept(funcs, t + 1, x)
      {
        QuietPassIsLast(funcs, t, PASSES, x);
        QuietPassIsLast(funcs, t, t + 1, x);
      }
    }

    /** Pass `t` + 1 changes nothing. */
    ghost predicate Quiet(t: nat)
      requires Bodies(funcs)
    {
      forall x :: InRange(funcs, x) && Swept(funcs, t + 1, x) ==> Swept(funcs, t, x)
    }

    method FlagDirectUses()
      requires Bodies(funcs)
      modifies this
      ensures After(0)
    {
      paramIsArray := [];
      var i := 0;
      while i < |funcs|
        invariant i <= |funcs| == |funcs| && |paramIsArray| == i
        invariant forall k :: 0 <= k < i ==> |paramIsArray[k]| == |funcs[k].params|
        invariant forall k, q :: 0 <= k < i && 0 <= q < |funcs[k].params| ==> (paramIsArray[k][q] <==> Direct(funcs, Param(k, q)))
      {
        var flags: seq<bool> := [];
        var p := 0;
        while p < |funcs[i].params|
          invariant p <= |funcs[i].params| && |flags| == p
          invariant forall q :: 0 <= q < p ==> (flags[q] <==> Direct(funcs, Param(i, q)))
        {
          flags := flags + [UsesNameAsArray(funcs[i].body, funcs[i].params[p])];
          p := p + 1;
        }
        paramIsArray := paramIsArray + [flags];
        i := i + 1;
      }
    }

    /** The walk for the next parameter decides what the pass is to decide. */
    lemma NextIsDecided(t: nat, x: Param)
      requires Bodies(funcs) && t > 0 && InRange(funcs, x) && Halfway(funcs, paramIsArray, t, x)
      ensures IsFlagged(x) <==> Swept(funcs, t - 1, x)
      ensures IsFlagged(x) || ForwardsNameAsArrayCall(funcs, paramIsArray, funcs[x.f].body, funcs[x.f].params[x.p])
         <==> Swept(funcs, t, x)
    {
      ForwardsIffPasses(funcs, paramIsArray, funcs[x.f].body, funcs[x.f].params[x.p]);
      assert Before(x, x) == false;
      hide ForwardsNameAsArrayCall, WellFormed, BodyPasses, Shaped, Direct;
      forall y
        ensures BodyPasses(funcs, funcs[x.f].body, funcs[x.f].params[x.p], y) && Flag(funcs, paramIsArray, y)
           <==> Hop(funcs, x, y) && if Before(y, x) then Swept(funcs, t, y) else Swept(funcs, t - 1, y)
      {
        assert InRange(funcs, y) ==> (IsFlagged(y) <==> Swept(funcs, if Before(y, x) then t else t - 1, y));
      }
    }

    method Visit(ghost t: nat, i: nat, p: nat) returns (changed: bool)
      requires Bodies(funcs) && t > 0 && InRange(funcs, Param(i, p))
      requires Shaped(funcs, paramIsArray) && Halfway(funcs, paramIsArray, t, Param(i, p))
      modifies this
      ensures Shaped(funcs, paramIsArray) && Halfway(funcs, paramIsArray, t, Param(i, p + 1))
      ensures !changed && Swept(funcs, t, Param(i, p)) ==> Swept(funcs, t - 1, Param(i, p))
    {
      hide Swept, ForwardsNameAsArrayCall, WellFormed, Flag, Halfway, Shaped, Raised;
      ghost var x, was := Param(i, p), paramIsArray;
      NextIsDecided(t, x);
      changed := false;
      if !IsFlagged(Param(i, p)) && ForwardsNameAsArrayCall(funcs, paramIsArray, funcs[i].body, funcs[i].params[p]) {
        paramIsArray := Raised(funcs, paramIsArray, Param(i, p));
        changed := true;
      }
      if Swept(funcs, t - 1, x) {
        SweptStays(funcs, t - 1, t, x);
      }
      NowDecided(funcs, was, paramIsArray, t, x);
    }

    /** One pass over all parameters, seeing the flags it sets itself. */
    method Pass(ghost t: nat) returns (changed: bool)
      requires Bodies(funcs) && After(t)
      modifies this
      ensures After(t + 1)
      ensures !changed ==> Quiet(t)
    {
      hide Bodies, Swept;
      changed := false;
      var i := 0;
      while i < |funcs|
        invariant i <= |funcs| && Halfway(funcs, paramIsArray, t + 1, Param(i, 0))
        invariant !changed ==> QuietBefore(t, Param(i, 0))
      {
        var p := 0;
        while p < |funcs[i].params|
          invariant p <= |funcs[i].params| && Halfway(funcs, paramIsArray, t + 1, Param(i, p))
          invariant !changed ==> QuietBefore(t, Param(i, p))
        {
          var raised := Visit(t + 1, i, p);
          changed := changed || raised;
          p := p + 1;
        }
        i := i + 1;
      }
    }

    /** Pass `t` + 1 has changed no parameter before `next`. */
    ghost predicate QuietBefore(t: nat, next: Param)
      requires Bodies(funcs)
    {
      forall x :: InRange(funcs, x) && Before(x, next) && Swept(funcs, t + 1, x) ==> Swept(funcs, t, x)
    }
  }
}
