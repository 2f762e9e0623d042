/** The admin panel's line diff: the longest-common-subsequence table, the walk over it,
    and the proof that no edit script is shorter and that the walk is the first of the shortest. */
module LineDiff {
  import opened Wrappers

  datatype Kind = Equal | Add | Remove

  datatype DiffOp = DiffOp(kind: Kind, line: string)

  // ---------- What a diff is ----------

  /** The lines of the ops that are not of the given kind. */
  function Without(ops: seq<DiffOp>, kind: Kind): seq<string> {
    if ops == [] then []
    else (if ops[0].kind == kind then [] else [ops[0].line]) + Without(ops[1..], kind)
  }

  /** Dropping the additions gives back the old lines, dropping the removals the new ones. */
  predicate IsScript(ops: seq<DiffOp>, a: seq<string>, b: seq<string>) {
    Without(ops, Add) == a && Without(ops, Remove) == b
  }

  function EqualLines(ops: seq<DiffOp>): seq<string> {
    if ops == [] then []
    else (if ops[0].kind == Equal then [ops[0].line] else []) + EqualLines(ops[1..])
  }

  function Edits(ops: seq<DiffOp>): nat {
    if ops == [] then 0 else (if ops[0].kind == Equal then 0 else 1) + Edits(ops[1..])
  }

  predicate IsSubsequence(c: seq<string>, s: seq<string>) {
    c == [] || (s != [] && ((c[0] == s[0] && IsSubsequence(c[1..], s[1..])) || IsSubsequence(c, s[1..])))
  }

  // ---------- The table's recurrence ----------

  function Max(x: nat, y: nat): nat {
    if x >= y then x else y
  }

  /** What table entry (i, j) holds. */
  function Lcs(a: seq<string>, b: seq<string>, i: nat, j: nat): nat
    requires i <= |a| && j <= |b|
    decreases |a| - i + |b| - j
  {
    if i == |a| || j == |b| then 0
    else if a[i] == b[j] then Lcs(a, b, i + 1, j + 1) + 1
    else Max(Lcs(a, b, i + 1, j), Lcs(a, b, i, j + 1))
  }

  /** One line more on either side is worth at most one match. */
  lemma {:induction false} LcsSteps(a: seq<string>, b: seq<string>, i: nat, j: nat)
    requires i <= |a| && j <= |b|
    ensures i < |a| ==> Lcs(a, b, i + 1, j) <= Lcs(a, b, i, j) <= Lcs(a, b, i + 1, j) + 1
    ensures j < |b| ==> Lcs(a, b, i, j + 1) <= Lcs(a, b, i, j) <= Lcs(a, b, i, j + 1) + 1
    decreases |a| - i + |b| - j
  {
    if i < |a| && j < |b| {
      LcsSteps(a, b, i + 1, j);
      LcsSteps(a, b, i, j + 1);
      LcsSteps(a, b, i + 1, j + 1);
    }
  }

  /** No script keeps more lines than the table says. */
  lemma {:induction false} ScriptIsBounded(ops: seq<DiffOp>, a: seq<string>, b: seq<string>, i: nat, j: nat)
    requires i <= |a| && j <= |b| && IsScript(ops, a[i..], b[j..])
    ensures |EqualLines(ops)| <= Lcs(a, b, i, j)
    decreases |ops|
  {
    if ops != [] {
      var rest := ops[1..];
      match ops[0].kind
      case Equal =>
        assert a[i..] == [ops[0].line] + Without(rest, Add) && b[j..] == [ops[0].line] + Without(rest, Remove);
        assert a[i] == ops[0].line && b[j] == ops[0].line;
        assert a[i + 1..] == a[i..][1..] && b[j + 1..] == b[j..][1..];
        ScriptIsBounded(rest, a, b, i + 1, j + 1);
      case Remove =>
        assert a[i..] == [ops[0].line] + Without(rest, Add);
        assert a[i + 1..] == a[i..][1..];
        ScriptIsBounded(rest, a, b, i + 1, j);
        LcsSteps(a, b, i, j);
      case Add =>
        assert b[j..] == [ops[0].line] + Without(rest, Remove);
        assert b[j + 1..] == b[j..][1..];
        ScriptIsBounded(rest, a, b, i, j + 1);
        LcsSteps(a, b, i, j);
    }
  }

  /** Edits and kept lines share out the lines of both sides. */
  lemma {:induction false} EditsAreTheRest(ops: seq<DiffOp>)
    ensures Edits(ops) + 2 * |EqualLines(ops)| == |Without(ops, Add)| + |Without(ops, Remove)|
  {
    if ops != [] {
      EditsAreTheRest(ops[1..]);
    }
  }

  /** The lines a script keeps are a common subsequence of its two sides. */
  lemma {:induction false} KeptIsCommon(ops: seq<DiffOp>)
    ensures IsSubsequence(EqualLines(ops), Without(ops, Add))
    ensures IsSubsequence(EqualLines(ops), Without(ops, Remove))
  {
    if ops != [] {
      var line, rest := ops[0].line, ops[1..];
      KeptIsCommon(rest);
      var kept := EqualLines(rest);
      assert Without(ops, Add) == if ops[0].kind == Add then Without(rest, Add) else [line] + Without(rest, Add);
      assert Without(ops, Remove) == if ops[0].kind == Remove then Without(rest, Remove) else [line] + Without(rest, Remove);
      assert EqualLines(ops) == if ops[0].kind == Equal then [line] + kept else kept;
      SubsequenceGrows(kept, Without(rest, Add), line);
      SubsequenceGrows(kept, Without(rest, Remove), line);
    }
  }

  lemma SubsequenceGrows(c: seq<string>, s: seq<string>, line: string)
    requires IsSubsequence(c, s)
    ensures IsSubsequence(c, [line] + s) && IsSubsequence([line] + c, [line] + s)
  {
  }

  lemma {:induction false} CommonIsBounded(c: seq<string>, a: seq<string>, b: seq<string>, i: nat, j: nat)
    requires i <= |a| && j <= |b| && IsSubsequence(c, a[i..]) && IsSubsequence(c, b[j..])
    ensures |c| <= Lcs(a, b, i, j)
    decreases |a| - i + |b| - j
  {
    if c != [] {
      assert a[i..][1..] == a[i + 1..] && b[j..][1..] == b[j + 1..];
      LcsSteps(a, b, i, j);
      if IsSubsequence(c, a[i + 1..]) {
        CommonIsBounded(c, a, b, i + 1, j);
      } else if IsSubsequence(c, b[j + 1..]) {
        CommonIsBounded(c, a, b, i, j + 1);
      } else {
        CommonIsBounded(c[1..], a, b, i + 1, j + 1);
      }
    }
  }

  /** A script that keeps as many lines as the table says keeps a longest common
      subsequence, and no script has fewer edits. */
  lemma OptimalScript(ops: seq<DiffOp>, a: seq<string>, b: seq<string>)
    requires IsScript(ops, a, b) && |EqualLines(ops)| == Lcs(a, b, 0, 0)
    ensures IsSubsequence(EqualLines(ops), a) && IsSubsequence(EqualLines(ops), b)
    ensures forall c :: IsSubsequence(c, a) && IsSubsequence(c, b) ==> |c| <= |EqualLines(ops)|
    ensures forall other :: IsScript(other, a, b) ==> Edits(ops) <= Edits(other)
  {
    assert a[0..] == a && b[0..] == b;
    KeptIsCommon(ops);
    forall c | IsSubsequence(c, a) && IsSubsequence(c, b)
      ensures |c| <= |EqualLines(ops)|
    {
      CommonIsBounded(c, a, b, 0, 0);
    }
    forall other | IsScript(other, a, b)
      ensures Edits(ops) <= Edits(other)
    {
      ScriptIsBounded(other, a, b, 0, 0);
      EditsAreTheRest(ops);
      EditsAreTheRest(other);
    }
  }

  // ---------- The code ----------

  /** dp[p, q] is the LCS length of a[p..] and b[q..] from row i on, and in row i - 1 from
      column j on; everything before that is still 0. */
  ghost predicate Filled(dp: array2<nat>, a: seq<string>, b: seq<string>, i: nat, j: nat)
    reads dp
  {
    && dp.Length0 == |a| + 1 && dp.Length1 == |b| + 1
    && (forall p, q :: 0 <= p <= |a| && 0 <= q <= |b| ==>
          dp[p, q] == if i <= p || (p + 1 == i && j <= q) then Lcs(a, b, p, q) else 0)
  }

  method FillTable(a: seq<string>, b: seq<string>) returns (dp: array2<nat>)
    ensures fresh(dp) && Filled(dp, a, b, 0, 0)
  {
    dp := new nat[|a| + 1, |b| + 1]((_, _) => 0);
    var i: nat := |a|;
    while i > 0
      invariant i <= |a|
      invariant Filled(dp, a, b, i, |b|)
    {
      var j: nat := |b|;
      while j > 0
        invariant j <= |b|
        invariant Filled(dp, a, b, i, j)
      {
        FillCell(dp, a, b, i - 1, j - 1);
        j := j - 1;
      }
      i := i - 1;
    }
  }

  /** The body of the inner loop. */
  method FillCell(dp: array2<nat>, a: seq<string>, b: seq<string>, i: nat, j: nat)
    requires i < |a| && j < |b| && Filled(dp, a, b, i + 1, j + 1)
    modifies dp
    ensures Filled(dp, a, b, i + 1, j)
  {
    assert dp[i + 1, j + 1] == Lcs(a, b, i + 1, j + 1);
    assert dp[i + 1, j] == Lcs(a, b, i + 1, j) && dp[i, j + 1] == Lcs(a, b, i, j + 1);
    dp[i, j] := if a[i] == b[j] then dp[i + 1, j + 1] + 1 else Max(dp[i + 1, j], dp[i, j + 1]);
    assert dp[i, j] == Lcs(a, b, i, j);
  }

  // ---------- The walk among the optimal scripts ----------

  /** What the walk still emits from (i, j) on. */
  ghost function WalkFrom(a: seq<string>, b: seq<string>, i: nat, j: nat): seq<DiffOp>
    requires i <= |a| && j <= |b|
    decreases |a| - i + |b| - j
  {
    if i < |a| && j < |b| then
      if a[i] == b[j] then [DiffOp(Equal, a[i])] + WalkFrom(a, b, i + 1, j + 1)
      else if Lcs(a, b, i + 1, j) >= Lcs(a, b, i, j + 1) then [DiffOp(Remove, a[i])] + WalkFrom(a, b, i + 1, j)
      else [DiffOp(Add, b[j])] + WalkFrom(a, b, i, j + 1)
    else if i < |a| then [DiffOp(Remove, a[i])] + WalkFrom(a, b, i + 1, j)
    else if j < |b| then [DiffOp(Add, b[j])] + WalkFrom(a, b, i, j + 1)
    else []
  }

  /** The walk is a script of the remaining lines that keeps as many as the table says. */
  lemma {:induction false} WalkIsScript(a: seq<string>, b: seq<string>, i: nat, j: nat)
    requires i <= |a| && j <= |b|
    ensures IsScript(WalkFrom(a, b, i, j), a[i..], b[j..])
    ensures |EqualLines(WalkFrom(a, b, i, j))| == Lcs(a, b, i, j)
    decreases |a| - i + |b| - j
  {
    if i < |a| {
      assert a[i..] == [a[i]] + a[i + 1..];
    }
    if j < |b| {
      assert b[j..] == [b[j]] + b[j + 1..];
    }
    if i < |a| && j < |b| && a[i] == b[j] {
      WalkIsScript(a, b, i + 1, j + 1);
    } else if i < |a| && (j == |b| || Lcs(a, b, i + 1, j) >= Lcs(a, b, i, j + 1)) {
      WalkIsScript(a, b, i + 1, j);
    } else if j < |b| {
      WalkIsScript(a, b, i, j + 1);
    }
  }

  /** An equal line is shown before a removal, a removal before an addition. */
  function Turn(kind: Kind): nat {
    match kind
    case Equal => 0
    case Remove => 1
    case Add => 2
  }

  /** Where the two scripts first differ, `ops` takes the earlier turn. */
  ghost predicate NotBehind(ops: seq<DiffOp>, other: seq<DiffOp>) {
    || ops == []
    || (other != [] && (Turn(ops[0].kind) < Turn(other[0].kind)
                        || (ops[0] == other[0] && NotBehind(ops[1..], other[1..]))))
  }

  /** No addition stands directly ahead of a removal: a changed line shows its old text first. */
  ghost predicate RemovesFirst(ops: seq<DiffOp>) {
    forall k :: 0 <= k < |ops| - 1 && ops[k].kind == Add ==> ops[k + 1].kind != Remove
  }

  lemma ScriptHead(ops: seq<DiffOp>, a: seq<string>, b: seq<string>)
    requires IsScript(ops, a, b) && ops != []
    ensures ops[0].kind != Add ==> a != [] && a[0] == ops[0].line
    ensures ops[0].kind != Remove ==> b != [] && b[0] == ops[0].line
    ensures IsScript(ops[1..], if ops[0].kind == Add then a else a[1..], if ops[0].kind == Remove then b else b[1..])
    ensures |EqualLines(ops)| == |EqualLines(ops[1..])| + if ops[0].kind == Equal then 1 else 0
  {
  }

  /** Of all scripts that keep as many lines the walk is the first. */
  lemma {:induction false} WalkIsFirstFrom(a: seq<string>, b: seq<string>, i: nat, j: nat, other: seq<DiffOp>)
    requires i <= |a| && j <= |b|
    requires IsScript(other, a[i..], b[j..]) && |EqualLines(other)| >= Lcs(a, b, i, j)
    ensures NotBehind(WalkFrom(a, b, i, j), other)
    decreases |a| - i + |b| - j
  {
    hide EqualLines, Without, IsScript, Max;
    if other == [] {
      EmptyScript(a, b, i, j);
    } else {
      ScriptHead(other, a[i..], b[j..]);
      assert i < |a| ==> a[i..][1..] == a[i + 1..];
      assert j < |b| ==> b[j..][1..] == b[j + 1..];
      match other[0].kind
      case Equal =>
        WalkIsFirstFrom(a, b, i + 1, j + 1, other[1..]);
      case Remove =>
        ScriptIsBounded(other[1..], a, b, i + 1, j);
        LcsSteps(a, b, i, j);
        if j == |b| || (a[i] != b[j] && Lcs(a, b, i + 1, j) >= Lcs(a, b, i, j + 1)) {
          WalkIsFirstFrom(a, b, i + 1, j, other[1..]);
        }
      case Add =>
        ScriptIsBounded(other[1..], a, b, i, j + 1);
        LcsSteps(a, b, i, j);
        if i == |a| || (a[i] != b[j] && Lcs(a, b, i + 1, j) < Lcs(a, b, i, j + 1)) {
          WalkIsFirstFrom(a, b, i, j + 1, other[1..]);
        }
    }
  }

  lemma EmptyScript(a: seq<string>, b: seq<string>, i: nat, j: nat)
    requires i <= |a| && j <= |b| && IsScript([], a[i..], b[j..])
    ensures WalkFrom(a, b, i, j) == []
  {
    assert |a[i..]| == 0 && |b[j..]| == 0;
  }

  lemma WalkIsFirst(a: seq<string>, b: seq<string>)
    ensures var ops := WalkFrom(a, b, 0, 0);
            forall other :: IsScript(other, a, b) && Edits(other) == Edits(ops) ==> NotBehind(ops, other)
  {
    var ops := WalkFrom(a, b, 0, 0);
    assert a[0..] == a && b[0..] == b;
    WalkIsScript(a, b, 0, 0);
    EditsAreTheRest(ops);
    forall other | IsScript(other, a, b) && Edits(other) == Edits(ops)
      ensures NotBehind(ops, other)
    {
      EditsAreTheRest(other);
      WalkIsFirstFrom(a, b, 0, 0, other);
    }
  }

  lemma {:induction false} WalkRemovesFirst(a: seq<string>, b: seq<string>, i: nat, j: nat)
    requires i <= |a| && j <= |b|
    ensures RemovesFirst(WalkFrom(a, b, i, j))
    decreases |a| - i + |b| - j
  {
    var ops := WalkFrom(a, b, i, j);
    if ops != [] {
      LcsSteps(a, b, i, j);
      match ops[0].kind
      case Equal => WalkRemovesFirst(a, b, i + 1, j + 1);
      case Remove => WalkRemovesFirst(a, b, i + 1, j);
      case Add =>
        if i < |a| {
          LcsSteps(a, b, i + 1, j);
        }
        WalkRemovesFirst(a, b, i, j + 1);
    }
  }

  // ---------- The diff ----------

  method DiffLines(a: seq<string>, b: seq<string>) returns (ops: seq<DiffOp>)
    ensures IsScript(ops, a, b)
    ensures IsSubsequence(EqualLines(ops), a) && IsSubsequence(EqualLines(ops), b)
    ensures forall c :: IsSubsequence(c, a) && IsSubsequence(c, b) ==> |c| <= |EqualLines(ops)|
    ensures forall other :: IsScript(other, a, b) ==> Edits(ops) <= Edits(other)
    ensures forall other :: IsScript(other, a, b) && Edits(other) == Edits(ops) ==> NotBehind(ops, other)
    ensures RemovesFirst(ops)
  {
    var dp := FillTable(a, b);
    ops := [];
    var i: nat, j: nat := 0, 0;
    while i < |a| && j < |b|
      invariant i <= |a| && j <= |b| && ops + WalkFrom(a, b, i, j) == WalkFrom(a, b, 0, 0)
      invariant Filled(dp, a, b, 0, 0)
      decreases |a| - i + |b| - j
    {
      if a[i] == b[j] {
        AppendMoves(ops, DiffOp(Equal, a[i]), WalkFrom(a, b, i + 1, j + 1));
        ops := ops + [DiffOp(Equal, a[i])];
        i, j := i + 1, j + 1;
      } else if dp[i + 1, j] >= dp[i, j + 1] {
        AppendMoves(ops, DiffOp(Remove, a[i]), WalkFrom(a, b, i + 1, j));
        ops := ops + [DiffOp(Remove, a[i])];
        i := i + 1;
      } else {
        AppendMoves(ops, DiffOp(Add, b[j]), WalkFrom(a, b, i, j + 1));
        ops := ops + [DiffOp(Add, b[j])];
        j := j + 1;
      }
    }
    while i < |a|
      invariant i <= |a| && j <= |b| && ops + WalkFrom(a, b, i, j) == WalkFrom(a, b, 0, 0) && (i == |a| || j == |b|)
    {
      AppendMoves(ops, DiffOp(Remove, a[i]), WalkFrom(a, b, i + 1, j));
      ops := ops + [DiffOp(Remove, a[i])];
      i := i + 1;
    }
    while j < |b|
      invariant j <= |b| && i == |a| && ops + WalkFrom(a, b, i, j) == WalkFrom(a, b, 0, 0)
    {
      AppendMoves(ops, DiffOp(Add, b[j]), WalkFrom(a, b, i, j + 1));
      ops := ops + [DiffOp(Add, b[j])];
      j := j + 1;
    }
    assert ops + [] == ops;
    assert a[0..] == a && b[0..] == b;
    WalkIsScript(a, b, 0, 0);
    OptimalScript(ops, a, b);
    WalkIsFirst(a, b);
    WalkRemovesFirst(a, b, 0, 0);
  }

  // ---------- Splitting a text into lines ----------

  /** JavaScript's text.split('\n') */
  function ToLines(text: string): (lines: seq<string>)
    ensures lines != []
  {
    if text == "" then [""]
    else
      var rest := ToLines(text[1..]);
      if text[0] == '\n' then [""] + rest else [[text[0]] + rest[0]] + rest[1..]
  }

  function JoinLines(lines: seq<string>): string
    requires lines != []
  {
    if |lines| == 1 then lines[0] else lines[0] + "\n" + JoinLines(lines[1..])
  }

  /** The two diffed texts can be read back from the diff's two sides. */
  lemma {:induction false} LinesRoundTrip(text: string)
    ensures JoinLines(ToLines(text)) == text
    ensures forall line :: line in ToLines(text) ==> '\n' !in line
  {
    if text != "" {
      var rest := ToLines(text[1..]);
      LinesRoundTrip(text[1..]);
      assert rest[0] in rest;
      if text[0] == '\n' {
        assert ([""] + rest)[1..] == rest;
      } else {
        assert ([[text[0]] + rest[0]] + rest[1..])[1..] == rest[1..];
      }
    }
  }
}
