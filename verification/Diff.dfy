/** The edit script of the diff applet: the LCS table, its backtrack and the
    reversal in place (src/diff_app.c, diffComputeEditScript). */
module Diff {

  type Line = string

  /** An operation carries only the indices that its kind makes meaningful. */
  datatype DiffOp =
    | Equal(aIndex: nat, bIndex: nat)
    | Delete(aIndex: nat)
    | Insert(bIndex: nat)

  // ---------- what a script means ----------

  /** How many lines of the old file the first `k` operations use up. */
  function OldPos(ops: seq<DiffOp>, k: nat): nat
    requires k <= |ops|
  {
    if k == 0 then 0 else OldPos(ops, k - 1) + if ops[k - 1].Insert? then 0 else 1
  }

  /** How many lines of the new file the first `k` operations produce. */
  function NewPos(ops: seq<DiffOp>, k: nat): nat
    requires k <= |ops|
  {
    if k == 0 then 0 else NewPos(ops, k - 1) + if ops[k - 1].Delete? then 0 else 1
  }

  function EqualCount(ops: seq<DiffOp>, k: nat): nat
    requires k <= |ops|
  {
    if k == 0 then 0 else EqualCount(ops, k - 1) + if ops[k - 1].Equal? then 1 else 0
  }

  function EditCount(ops: seq<DiffOp>, k: nat): nat
    requires k <= |ops|
  {
    if k == 0 then 0 else EditCount(ops, k - 1) + if ops[k - 1].Equal? then 0 else 1
  }

  /** Operation `k` names the next unused line of each side it touches. */
  ghost predicate StepOk(ops: seq<DiffOp>, k: nat, a: seq<Line>, b: seq<Line>)
    requires k < |ops|
  {
    match ops[k]
    case Equal(x, y) =>
      x == OldPos(ops, k) < |a| && y == NewPos(ops, k) < |b| && a[x] == b[y]
    case Delete(x) => x == OldPos(ops, k) < |a|
    case Insert(y) => y == NewPos(ops, k) < |b|
  }

  /** `ops` uses every line of `a` and makes every line of `b`, each once and in order. */
  ghost predicate ValidScript(ops: seq<DiffOp>, a: seq<Line>, b: seq<Line>)
  {
    && (forall k :: 0 <= k < |ops| ==> StepOk(ops, k, a, b))
    && OldPos(ops, |ops|) == |a|
    && NewPos(ops, |ops|) == |b|
  }

  lemma {:induction false} CountsOfPrefix(s: seq<DiffOp>, t: seq<DiffOp>, k: nat)
    requires k <= |s|
    ensures OldPos(s + t, k) == OldPos(s, k)
    ensures NewPos(s + t, k) == NewPos(s, k)
    ensures EqualCount(s + t, k) == EqualCount(s, k)
  {
    if k > 0 {
      CountsOfPrefix(s, t, k - 1);
    }
  }

  lemma {:induction false} CountsOfScript(ops: seq<DiffOp>, k: nat)
    requires k <= |ops|
    ensures OldPos(ops, k) + NewPos(ops, k) == 2 * EqualCount(ops, k) + EditCount(ops, k)
    ensures EqualCount(ops, k) + EditCount(ops, k) == k
  {
    if k > 0 {
      CountsOfScript(ops, k - 1);
    }
  }

  // ---------- the longest common subsequence ----------

  function Max(x: nat, y: nat): nat {
    if x > y then x else y
  }

  /** The recurrence that the table stores for the first `i` and `j` lines. */
  function Lcs(a: seq<Line>, b: seq<Line>, i: nat, j: nat): nat
    requires i <= |a| && j <= |b|
    decreases i + j
  {
    if i == 0 || j == 0 then 0
    else if a[i - 1] == b[j - 1] then Lcs(a, b, i - 1, j - 1) + 1
    else Max(Lcs(a, b, i - 1, j), Lcs(a, b, i, j - 1))
  }

  /** `f` places the lines of `c`, in order, among the first `n` lines of `s`. */
  ghost predicate Embeds(c: seq<Line>, s: seq<Line>, n: nat, f: seq<nat>)
    requires n <= |s|
  {
    && |f| == |c|
    && (forall k :: 0 <= k < |f| ==> f[k] < n && s[f[k]] == c[k])
    && (forall k, l :: 0 <= k < l < |f| ==> f[k] < f[l])
  }

  ghost predicate CommonSubsequence(c: seq<Line>, a: seq<Line>, b: seq<Line>)
  {
    (exists f :: Embeds(c, a, |a|, f)) && (exists g :: Embeds(c, b, |b|, g))
  }

  lemma {:induction false} LcsBounds(a: seq<Line>, b: seq<Line>, i: nat, j: nat, f: seq<nat>, g: seq<nat>, c: seq<Line>)
    requires i <= |a| && j <= |b|
    requires Embeds(c, a, i, f) && Embeds(c, b, j, g)
    ensures |c| <= Lcs(a, b, i, j)
    decreases i + j
  {
    if c != [] {
      var last := |c| - 1;
      assert f[last] < i && g[last] < j;
      if a[i - 1] == b[j - 1] {
        LcsBounds(a, b, i - 1, j - 1, f[..last], g[..last], c[..last]);
      } else if f[last] < i - 1 {
        LcsBounds(a, b, i - 1, j, f, g, c);
      } else {
        LcsBounds(a, b, i, j - 1, f, g, c);
      }
    }
  }

  lemma {:induction false} LcsAttained(a: seq<Line>, b: seq<Line>, i: nat, j: nat)
    returns (c: seq<Line>, f: seq<nat>, g: seq<nat>)
    requires i <= |a| && j <= |b|
    ensures Embeds(c, a, i, f) && Embeds(c, b, j, g) && |c| == Lcs(a, b, i, j)
    decreases i + j
  {
    if i == 0 || j == 0 {
      c, f, g := [], [], [];
    } else if a[i - 1] == b[j - 1] {
      c, f, g := LcsAttained(a, b, i - 1, j - 1);
      c, f, g := c + [a[i - 1]], f + [i - 1], g + [j - 1];
    } else if Lcs(a, b, i - 1, j) > Lcs(a, b, i, j - 1) {
      c, f, g := LcsAttained(a, b, i - 1, j);
    } else {
      c, f, g := LcsAttained(a, b, i, j - 1);
    }
  }

  /** No common subsequence of the two files is longer than the table's corner. */
  lemma LcsIsLongest(a: seq<Line>, b: seq<Line>, c: seq<Line>)
    requires CommonSubsequence(c, a, b)
    ensures |c| <= Lcs(a, b, |a|, |b|)
  {
    var f :| Embeds(c, a, |a|, f);
    var g :| Embeds(c, b, |b|, g);
    LcsBounds(a, b, |a|, |b|, f, g, c);
  }

  /** And one is just as long. */
  lemma LongestIsCommon(a: seq<Line>, b: seq<Line>) returns (c: seq<Line>)
    ensures CommonSubsequence(c, a, b) && |c| == Lcs(a, b, |a|, |b|)
  {
    var f, g;
    c, f, g := LcsAttained(a, b, |a|, |b|);
  }

  /** Neighbouring cells differ by at most one. */
  lemma {:induction false} LcsNeighbours(a: seq<Line>, b: seq<Line>, i: nat, j: nat)
    requires i <= |a| && j <= |b|
    ensures i > 0 ==> Lcs(a, b, i - 1, j) <= Lcs(a, b, i, j) <= Lcs(a, b, i - 1, j) + 1
    ensures j > 0 ==> Lcs(a, b, i, j - 1) <= Lcs(a, b, i, j) <= Lcs(a, b, i, j - 1) + 1
    decreases i + j
  {
    if i > 0 && j > 0 {
      LcsNeighbours(a, b, i - 1, j);
      LcsNeighbours(a, b, i, j - 1);
    }
  }

  // ---------- the script the backtrack produces ----------

  /** The backtrack from cell (i, j), in forward order. */
  function Script(a: seq<Line>, b: seq<Line>, i: nat, j: nat): seq<DiffOp>
    requires i <= |a| && j <= |b|
    decreases i + j
  {
    if i == 0 && j == 0 then []
    else if i > 0 && j > 0 && a[i - 1] == b[j - 1] then
      Script(a, b, i - 1, j - 1) + [Equal(i - 1, j - 1)]
    else if j > 0 && (i == 0 || Lcs(a, b, i, j - 1) >= Lcs(a, b, i - 1, j)) then
      Script(a, b, i, j - 1) + [Insert(j - 1)]
    else
      Script(a, b, i - 1, j) + [Delete(i - 1)]
  }

  lemma {:induction false} ScriptSteps(a: seq<Line>, b: seq<Line>, i: nat, j: nat)
    requires i <= |a| && j <= |b|
    ensures var s := Script(a, b, i, j);
            && OldPos(s, |s|) == i && NewPos(s, |s|) == j
            && EqualCount(s, |s|) == Lcs(a, b, i, j)
            && (forall k :: 0 <= k < |s| ==> StepOk(s, k, a, b))
    decreases i + j
  {
    if i > 0 || j > 0 {
      var s := Script(a, b, i, j);
      var op := s[|s| - 1];
      var i', j' := if op.Insert? then i else i - 1, if op.Delete? then j else j - 1;
      ScriptSteps(a, b, i', j');
      assert s == Script(a, b, i', j') + [op];
      assert Lcs(a, b, i, j) == Lcs(a, b, i', j') + if op.Equal? then 1 else 0;
      LongerScript(Script(a, b, i', j'), op, a, b);
    }
  }

  /** A right step at the end of a right script. */
  lemma LongerScript(front: seq<DiffOp>, op: DiffOp, a: seq<Line>, b: seq<Line>)
    requires forall k :: 0 <= k < |front| ==> StepOk(front, k, a, b)
    requires op.Equal? ==> op.aIndex == OldPos(front, |front|) < |a| && op.bIndex == NewPos(front, |front|) < |b|
                           && a[op.aIndex] == b[op.bIndex]
    requires op.Delete? ==> op.aIndex == OldPos(front, |front|) < |a|
    requires op.Insert? ==> op.bIndex == NewPos(front, |front|) < |b|
    ensures forall k :: 0 <= k <= |front| ==> StepOk(front + [op], k, a, b)
    ensures OldPos(front + [op], |front| + 1) == OldPos(front, |front|) + (if op.Insert? then 0 else 1)
    ensures NewPos(front + [op], |front| + 1) == NewPos(front, |front|) + (if op.Delete? then 0 else 1)
    ensures EqualCount(front + [op], |front| + 1) == EqualCount(front, |front|) + (if op.Equal? then 1 else 0)
  {
    CountsOfPrefix(front, [op], |front|);
    forall k | 0 <= k <= |front|
      ensures StepOk(front + [op], k, a, b)
    {
      CountsOfPrefix(front, [op], k);
      assert k < |front| ==> StepOk(front, k, a, b);
    }
  }

  /** No valid script keeps more lines than the table's corner says. */
  lemma {:induction false} EqualsBounded(ops: seq<DiffOp>, k: nat, a: seq<Line>, b: seq<Line>)
    requires k <= |ops|
    requires forall l :: 0 <= l < |ops| ==> StepOk(ops, l, a, b)
    ensures OldPos(ops, k) <= |a| && NewPos(ops, k) <= |b|
    ensures EqualCount(ops, k) <= Lcs(a, b, OldPos(ops, k), NewPos(ops, k))
  {
    if k > 0 {
      EqualsBounded(ops, k - 1, a, b);
      assert StepOk(ops, k - 1, a, b);
      LcsNeighbours(a, b, OldPos(ops, k), NewPos(ops, k));
    }
  }

  /** The backtracked script is valid, keeps exactly DP(n, m) lines, and no
      valid script has fewer insertions plus deletions. */
  lemma ScriptIsOptimal(a: seq<Line>, b: seq<Line>)
    ensures var s := Script(a, b, |a|, |b|);
            && ValidScript(s, a, b)
            && EqualCount(s, |s|) == Lcs(a, b, |a|, |b|)
            && |s| <= |a| + |b|
            && forall t :: ValidScript(t, a, b) ==> EditCount(s, |s|) <= EditCount(t, |t|)
  {
    var s := Script(a, b, |a|, |b|);
    ScriptSteps(a, b, |a|, |b|);
    CountsOfScript(s, |s|);
    forall t | ValidScript(t, a, b)
      ensures EditCount(s, |s|) <= EditCount(t, |t|)
    {
      EqualsBounded(t, |t|, a, b);
      CountsOfScript(t, |t|);
    }
  }

  /** Within a run of changes the deletions come first: an insertion is never
      directly followed by a deletion. */
  lemma {:induction false} DeletesBeforeInserts(a: seq<Line>, b: seq<Line>, i: nat, j: nat, k: nat)
    requires i <= |a| && j <= |b|
    requires k + 1 < |Script(a, b, i, j)|
    ensures !(Script(a, b, i, j)[k].Insert? && Script(a, b, i, j)[k + 1].Delete?)
    decreases i + j
  {
    var s := Script(a, b, i, j);
    var i', j' := if s[|s| - 1].Insert? then i else i - 1, if s[|s| - 1].Delete? then j else j - 1;
    var front := Script(a, b, i', j');
    assert s == front + [s[|s| - 1]];
    if k + 1 < |front| {
      DeletesBeforeInserts(a, b, i', j', k);
    } else if s[k].Insert? && s[k + 1].Delete? {
      // the cell to the left would have been at least as good here as well
      LcsNeighbours(a, b, i, j - 1);
      assert false;
    }
  }

  /** A script without changes exists only between equal files. */
  lemma NoEditsIffSame(a: seq<Line>, b: seq<Line>)
    ensures (forall k :: 0 <= k < |Script(a, b, |a|, |b|)| ==> Script(a, b, |a|, |b|)[k].Equal?) <==> a == b
  {
    var s := Script(a, b, |a|, |b|);
    ScriptIsOptimal(a, b);
    if forall k :: 0 <= k < |s| ==> s[k].Equal? {
      AllEqualPositions(s, |s|);
      forall x | 0 <= x < |a|
        ensures a[x] == b[x]
      {
        AllEqualPositions(s, x);
        assert StepOk(s, x, a, b);
      }
    }
    if a == b {
      SameFilesScript(a, |a|);
    }
  }

  lemma {:induction false} AllEqualPositions(ops: seq<DiffOp>, k: nat)
    requires k <= |ops|
    requires forall l :: 0 <= l < |ops| ==> ops[l].Equal?
    ensures OldPos(ops, k) == k == NewPos(ops, k)
  {
    if k > 0 {
      AllEqualPositions(ops, k - 1);
    }
  }

  lemma {:induction false} SameFilesScript(a: seq<Line>, i: nat)
    requires i <= |a|
    ensures forall k :: 0 <= k < |Script(a, a, i, i)| ==> Script(a, a, i, i)[k].Equal?
  {
    if i > 0 {
      SameFilesScript(a, i - 1);
    }
  }

  /** One step of the backtrack, in terms of the three cells it looks at. */
  lemma ScriptStep(a: seq<Line>, b: seq<Line>, i: nat, j: nat, tail: seq<DiffOp>, up: nat, left: nat)
    requires i <= |a| && j <= |b| && (i > 0 || j > 0)
    requires i > 0 ==> up == Lcs(a, b, i - 1, j)
    requires j > 0 ==> left == Lcs(a, b, i, j - 1)
    ensures if i > 0 && j > 0 && a[i - 1] == b[j - 1] then
              Script(a, b, i, j) + tail == Script(a, b, i - 1, j - 1) + ([Equal(i - 1, j - 1)] + tail)
            else if j > 0 && (i == 0 || left >= up) then
              Script(a, b, i, j) + tail == Script(a, b, i, j - 1) + ([Insert(j - 1)] + tail)
            else
              Script(a, b, i, j) + tail == Script(a, b, i - 1, j) + ([Delete(i - 1)] + tail)
  {
  }

  lemma ScriptAtOrigin(a: seq<Line>, b: seq<Line>)
    ensures Script(a, b, 0, 0) == []
  {
  }

  // ---------- the code ----------

  ghost predicate RowFilled(dp: array2<nat>, a: seq<Line>, b: seq<Line>, x: nat, width: nat)
    requires dp.Length0 == |a| + 1 && dp.Length1 == |b| + 1 && x <= |a| && width <= |b| + 1
    reads dp
  {
    forall y :: 0 <= y < width ==> dp[x, y] == Lcs(a, b, x, y)
  }

  ghost predicate FullRow(dp: array2<nat>, a: seq<Line>, b: seq<Line>, x: nat)
    requires dp.Length0 == |a| + 1 && dp.Length1 == |b| + 1 && x <= |a|
    reads dp
  {
    RowFilled(dp, a, b, x, |b| + 1)
  }

  method FillRow(a: seq<Line>, b: seq<Line>, dp: array2<nat>, i: nat)
    requires dp.Length0 == |a| + 1 && dp.Length1 == |b| + 1 && 1 <= i <= |a|
    requires FullRow(dp, a, b, i - 1)
    requires dp[i, 0] == 0
    modifies dp
    ensures FullRow(dp, a, b, i)
    ensures forall x, y :: 0 <= x <= |a| && x != i && 0 <= y <= |b| ==> dp[x, y] == old(dp[x, y])
  {
    var j := 1;
    while j <= |b|
      invariant 1 <= j <= |b| + 1
      invariant RowFilled(dp, a, b, i, j)
      invariant FullRow(dp, a, b, i - 1)
      invariant forall x, y :: 0 <= x <= |a| && x != i && 0 <= y <= |b| ==> dp[x, y] == old(dp[x, y])
    {
      if a[i - 1] == b[j - 1] {
        dp[i, j] := dp[i - 1, j - 1] + 1;
      } else {
        var up, left := dp[i - 1, j], dp[i, j - 1];
        dp[i, j] := if up > left then up else left;
      }
      j := j + 1;
    }
  }

  method FillTable(a: seq<Line>, b: seq<Line>) returns (dp: array2<nat>)
    ensures fresh(dp) && dp.Length0 == |a| + 1 && dp.Length1 == |b| + 1
    ensures forall x :: 0 <= x <= |a| ==> FullRow(dp, a, b, x)
  {
    dp := new nat[|a| + 1, |b| + 1]((_, _) => 0);
    var i := 1;
    while i <= |a|
      invariant 1 <= i <= |a| + 1
      invariant forall x :: 0 <= x < i ==> FullRow(dp, a, b, x)
      invariant forall x :: i <= x <= |a| ==> dp[x, 0] == 0
    {
      label before:
      FillRow(a, b, dp, i);
      forall x | 0 <= x < i
        ensures FullRow(dp, a, b, x)
      {
        assert old@before(FullRow(dp, a, b, x));
      }
      i := i + 1;
    }
  }

  function Reversed(s: seq<DiffOp>): (r: seq<DiffOp>)
    ensures |r| == |s| && forall k :: 0 <= k < |s| ==> r[k] == s[|s| - 1 - k]
  {
    seq(|s|, k requires 0 <= k < |s| => s[|s| - 1 - k])
  }

  /** Walks the table from its corner; `ops` has room for n + m operations. */
  method Backtrack(a: seq<Line>, b: seq<Line>, dp: array2<nat>, ops: array<DiffOp>) returns (count: nat)
    requires dp.Length0 == |a| + 1 && dp.Length1 == |b| + 1
    requires forall x :: 0 <= x <= |a| ==> FullRow(dp, a, b, x)
    requires ops.Length == |a| + |b|
    modifies ops
    ensures count <= ops.Length
    ensures Reversed(ops[..count]) == Script(a, b, |a|, |b|)
  {
    hide Lcs, Script;
    count := 0;
    var i, j := |a|, |b|;
    ghost var tail: seq<DiffOp> := [];
    while i > 0 || j > 0
      invariant 0 <= i <= |a| && 0 <= j <= |b| && i + j + count <= ops.Length
      invariant |tail| == count && forall k :: 0 <= k < count ==> tail[k] == ops[count - 1 - k]
      invariant Script(a, b, |a|, |b|) == Script(a, b, i, j) + tail
      decreases i + j
    {
      assert FullRow(dp, a, b, i) && (i > 0 ==> FullRow(dp, a, b, i - 1));
      ScriptStep(a, b, i, j, tail, if i > 0 then dp[i - 1, j] else 0, if j > 0 then dp[i, j - 1] else 0);
      if i > 0 && j > 0 && a[i - 1] == b[j - 1] {
        ops[count] := Equal(i - 1, j - 1);
        count := count + 1;
        i, j := i - 1, j - 1;
      } else if j > 0 && (i == 0 || dp[i, j - 1] >= dp[i - 1, j]) {
        ops[count] := Insert(j - 1);
        count := count + 1;
        j := j - 1;
      } else {
        ops[count] := Delete(i - 1);
        count := count + 1;
        i := i - 1;
      }
      tail := [ops[count - 1]] + tail;
    }
    ScriptAtOrigin(a, b);
    assert Reversed(ops[..count]) == tail;
  }

  method ReverseInPlace(ops: array<DiffOp>, count: nat)
    requires count <= ops.Length
    modifies ops
    ensures ops[..count] == Reversed(old(ops[..count]))
  {
    var k := 0;
    while k < count / 2
      invariant 0 <= k <= count / 2
      invariant forall x :: 0 <= x < k ==> ops[x] == old(ops[count - 1 - x]) && ops[count - 1 - x] == old(ops[x])
      invariant forall x :: k <= x < count - k ==> ops[x] == old(ops[x])
    {
      var tmp := ops[k];
      ops[k] := ops[count - 1 - k];
      ops[count - 1 - k] := tmp;
      k := k + 1;
    }
  }

  method ComputeEditScript(a: seq<Line>, b: seq<Line>) returns (ops: array<DiffOp>, opCount: nat)
    ensures fresh(ops) && opCount <= ops.Length == |a| + |b|
    ensures ops[..opCount] == Script(a, b, |a|, |b|)
    ensures ValidScript(ops[..opCount], a, b)
    ensures EqualCount(ops[..opCount], opCount) == Lcs(a, b, |a|, |b|)
    ensures forall t :: ValidScript(t, a, b) ==> EditCount(ops[..opCount], opCount) <= EditCount(t, |t|)
  {
    var dp := FillTable(a, b);
    ops := new DiffOp[|a| + |b|];
    opCount := Backtrack(a, b, dp, ops);
    ReverseInPlace(ops, opCount);
    ScriptIsOptimal(a, b);
  }
}
