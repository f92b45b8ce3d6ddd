/** The word-level diff behind the before/after view: the text is cut into
    runs of whitespace and runs of everything else, the two token lists are
    aligned by a longest-common-subsequence table, and each side is rendered
    as escaped HTML with the removed (before) or added (after) tokens
    wrapped in a highlighting span. */
module Diff {
  import opened Strings

  // ---------------------------------------------------------------- tokens

  /** The tokens joined back together. */
  function Concat(ts: seq<string>): string {
    if ts == [] then [] else ts[0] + Concat(ts[1..])
  }

  lemma SplitJoins(s: string, n: nat)
    requires n <= |s|
    ensures s[..n] + s[n..] == s
  {
  }

  lemma ConcatCons(t: string, ts: seq<string>)
    ensures Concat([t] + ts) == t + Concat(ts)
  {
    assert ([t] + ts)[1..] == ts;
  }

  lemma {:induction false} ConcatAppend(x: seq<string>, y: seq<string>)
    ensures Concat(x + y) == Concat(x) + Concat(y)
  {
    if x == [] {
      assert x + y == y;
    } else {
      assert (x + y)[0] == x[0] && (x + y)[1..] == x[1..] + y;
      ConcatAppend(x[1..], y);
    }
  }

  /** A token is a non-empty run of whitespace or of non-whitespace. */
  predicate Uniform(t: string) {
    t != [] && (AllWs(t) || NoWs(t))
  }

  /** The token is a whitespace run. */
  predicate WsRun(t: string) {
    t != [] && IsWs(t[0])
  }

  /** `str.split(/(\s+)/).filter(Boolean)`: the maximal runs of whitespace and
      of non-whitespace, in order; the empty strings the split leaves at the
      ends are dropped. */
  function Tokenize(s: string): (r: seq<string>)
    ensures |r| <= |s|
    ensures r == [] <==> s == []
    decreases |s|
  {
    if s == [] then []
    else
      var n := Span(s, 0, if IsWs(s[0]) then Ws else NotWs);
      [s[..n]] + Tokenize(s[n..])
  }

  /** The first token is the run at the start of the text. */
  lemma FirstRun(s: string)
    requires s != []
    ensures var cls := if IsWs(s[0]) then Ws else NotWs;
      var n := Span(s, 0, cls);
      1 <= n && Uniform(s[..n]) && (WsRun(s[..n]) <==> IsWs(s[0]))
      && (n < |s| ==> (IsWs(s[n]) <==> !IsWs(s[0])))
  {
    var cls := if IsWs(s[0]) then Ws else NotWs;
    var n := Span(s, 0, cls);
    var t := s[..n];
    assert forall k :: 0 <= k < |t| ==> t[k] == s[k] && In(s[k], cls);
    if IsWs(s[0]) {
      assert AllWs(t);
    } else {
      assert NoWs(t);
    }
  }

  /** Unfolds one token. */
  lemma TokenizeCons(s: string)
    requires s != []
    ensures var n := Span(s, 0, if IsWs(s[0]) then Ws else NotWs);
      Tokenize(s) == [s[..n]] + Tokenize(s[n..])
  { }

  /** The tokens join back to the text. */
  lemma {:induction false} TokenizeJoins(s: string)
    ensures Concat(Tokenize(s)) == s
    decreases |s|
  {
    if s != [] {
      var n := Span(s, 0, if IsWs(s[0]) then Ws else NotWs);
      var head, tail := s[..n], s[n..];
      TokenizeCons(s);
      ConcatCons(head, Tokenize(tail));
      TokenizeJoins(tail);
      SplitJoins(s, n);
    }
  }

  /** Every token is a non-empty uniform run, and whitespace runs and other
      runs alternate, so every run is maximal. */
  lemma {:induction false} TokenizeRuns(s: string)
    ensures forall k :: 0 <= k < |Tokenize(s)| ==> Uniform(Tokenize(s)[k])
    ensures Tokenize(s) == [] <==> s == []
    ensures s != [] ==> (WsRun(Tokenize(s)[0]) <==> IsWs(s[0]))
    ensures forall k :: 0 <= k < |Tokenize(s)| - 1 ==> (WsRun(Tokenize(s)[k]) <==> !WsRun(Tokenize(s)[k + 1]))
    decreases |s|
  {
    if s != [] {
      var n := Span(s, 0, if IsWs(s[0]) then Ws else NotWs);
      var rest := Tokenize(s[n..]);
      var ts := Tokenize(s);
      FirstRun(s);
      TokenizeCons(s);
      TokenizeRuns(s[n..]);
      assert ts[0] == s[..n];
      assert forall k :: 1 <= k < |ts| ==> ts[k] == rest[k - 1];
      if n < |s| {
        assert s[n..][0] == s[n];
      }
    }
  }

  // ---------------------------------------------------------------- alignment

  /** The op tags of the code: `'same'`, `'removed'`, `'added'`. */
  datatype Kind = Same | Removed | Added

  datatype Op = Op(kind: Kind, value: string)

  /** The values of the `same` and `removed` ops: what the ops say the old
      side was. */
  function Before(ops: seq<Op>): seq<string> {
    if ops == [] then [] else (if ops[0].kind == Added then [] else [ops[0].value]) + Before(ops[1..])
  }

  /** The values of the `same` and `added` ops: what the ops say the new side is. */
  function After(ops: seq<Op>): seq<string> {
    if ops == [] then [] else (if ops[0].kind == Removed then [] else [ops[0].value]) + After(ops[1..])
  }

  /** The values of all ops in order. */
  function Values(ops: seq<Op>): seq<string> {
    if ops == [] then [] else [ops[0].value] + Values(ops[1..])
  }

  function CountKind(ops: seq<Op>, k: Kind): nat {
    if ops == [] then 0 else (if ops[0].kind == k then 1 else 0) + CountKind(ops[1..], k)
  }

  function Max(x: nat, y: nat): nat {
    if x >= y then x else y
  }

  /** The table's recurrence: `dp[i][j]`, the length of the longest common
      subsequence of `a[i..]` and `b[j..]`, which is never longer than
      either side. */
  function Lcs(a: seq<string>, b: seq<string>, i: nat, j: nat): (r: nat)
    requires i <= |a| && j <= |b|
    ensures r <= |a| - i && r <= |b| - j
    decreases |a| - i + |b| - j
  {
    if i == |a| || j == |b| then 0
    else if a[i] == b[j] then 1 + Lcs(a, b, i + 1, j + 1)
    else Max(Lcs(a, b, i + 1, j), Lcs(a, b, i, j + 1))
  }

  /** The ops the forward walk emits from `(i, j)`: a match is `same`; on a
      mismatch the walk drops from `a` unless dropping from `b` keeps a
      strictly longer common subsequence; once one side is used up the rest
      of the other follows. What the ops mean is `ScriptReplays`, `ScriptCounts` and `ScriptLength`. */
  function Script(a: seq<string>, b: seq<string>, i: nat, j: nat): seq<Op>
    requires i <= |a| && j <= |b|
    decreases |a| - i + |b| - j
  {
    if i < |a| && j < |b| then
      if a[i] == b[j] then [Op(Same, a[i])] + Script(a, b, i + 1, j + 1)
      else if Lcs(a, b, i + 1, j) >= Lcs(a, b, i, j + 1) then [Op(Removed, a[i])] + Script(a, b, i + 1, j)
      else [Op(Added, b[j])] + Script(a, b, i, j + 1)
    else if i < |a| then [Op(Removed, a[i])] + Script(a, b, i + 1, j)
    else if j < |b| then [Op(Added, b[j])] + Script(a, b, i, j + 1)
    else []
  }

  /** Dropping one token from either side loses at most one from the
      common subsequence and never gains any. */
  lemma {:induction false} LcsSteps(a: seq<string>, b: seq<string>, i: nat, j: nat)
    requires i <= |a| && j <= |b|
    ensures i < |a| ==> Lcs(a, b, i + 1, j) <= Lcs(a, b, i, j) <= Lcs(a, b, i + 1, j) + 1
    ensures j < |b| ==> Lcs(a, b, i, j + 1) <= Lcs(a, b, i, j) <= Lcs(a, b, i, j + 1) + 1
    decreases |a| - i + |b| - j
  {
    if i < |a| && j < |b| {
      LcsSteps(a, b, i + 1, j);
      LcsSteps(a, b, i, j + 1);
    }
  }

  /** Replaying the walk gives back both sides: its `same` and `removed`
      ops spell `a[i..]`, its `same` and `added` ops spell `b[j..]`. */
  lemma {:induction false} ScriptReplays(a: seq<string>, b: seq<string>, i: nat, j: nat)
    requires i <= |a| && j <= |b|
    ensures Before(Script(a, b, i, j)) == a[i..]
    ensures After(Script(a, b, i, j)) == b[j..]
    decreases |a| - i + |b| - j
  {
    if i < |a| && j < |b| {
      assert a[i..] == [a[i]] + a[i + 1..] && b[j..] == [b[j]] + b[j + 1..];
      if a[i] == b[j] {
        ScriptReplays(a, b, i + 1, j + 1);
        OpsCons(Op(Same, a[i]), Script(a, b, i + 1, j + 1));
      } else if Lcs(a, b, i + 1, j) >= Lcs(a, b, i, j + 1) {
        ScriptReplays(a, b, i + 1, j);
        OpsCons(Op(Removed, a[i]), Script(a, b, i + 1, j));
      } else {
        ScriptReplays(a, b, i, j + 1);
        OpsCons(Op(Added, b[j]), Script(a, b, i, j + 1));
      }
    } else if i < |a| {
      ScriptReplays(a, b, i + 1, j);
      assert a[i..] == [a[i]] + a[i + 1..];
      OpsCons(Op(Removed, a[i]), Script(a, b, i + 1, j));
    } else if j < |b| {
      ScriptReplays(a, b, i, j + 1);
      assert b[j..] == [b[j]] + b[j + 1..];
      OpsCons(Op(Added, b[j]), Script(a, b, i, j + 1));
    }
  }

  /** The walk's `same` ops are as many as the table says. */
  lemma {:induction false} ScriptCounts(a: seq<string>, b: seq<string>, i: nat, j: nat)
    requires i <= |a| && j <= |b|
    ensures CountKind(Script(a, b, i, j), Same) == Lcs(a, b, i, j)
    decreases |a| - i + |b| - j
  {
    if i < |a| && j < |b| {
      if a[i] == b[j] {
        ScriptCounts(a, b, i + 1, j + 1);
        OpsCons(Op(Same, a[i]), Script(a, b, i + 1, j + 1));
      } else if Lcs(a, b, i + 1, j) >= Lcs(a, b, i, j + 1) {
        ScriptCounts(a, b, i + 1, j);
        OpsCons(Op(Removed, a[i]), Script(a, b, i + 1, j));
      } else {
        ScriptCounts(a, b, i, j + 1);
        OpsCons(Op(Added, b[j]), Script(a, b, i, j + 1));
      }
    } else if i < |a| {
      ScriptCounts(a, b, i + 1, j);
      OpsCons(Op(Removed, a[i]), Script(a, b, i + 1, j));
    } else if j < |b| {
      ScriptCounts(a, b, i, j + 1);
      OpsCons(Op(Added, b[j]), Script(a, b, i, j + 1));
    }
  }

  /** Every op but a `same` one stands for one token of one side, a `same`
      one for a token of each. */
  lemma {:induction false} OpsSizes(ops: seq<Op>)
    ensures |Before(ops)| + |After(ops)| == |ops| + CountKind(ops, Same)
  {
    if ops != [] {
      OpsSizes(ops[1..]);
    }
  }

  /** Every token of either side that is not in the common subsequence is
      one op of the walk. */
  lemma ScriptLength(a: seq<string>, b: seq<string>, i: nat, j: nat)
    requires i <= |a| && j <= |b|
    ensures |Script(a, b, i, j)| == (|a| - i) + (|b| - j) - Lcs(a, b, i, j)
  {
    ScriptReplays(a, b, i, j);
    ScriptCounts(a, b, i, j);
    OpsSizes(Script(a, b, i, j));
  }

  /** One op in front of others. */
  lemma OpsCons(o: Op, rest: seq<Op>)
    ensures Before([o] + rest) == (if o.kind == Added then [] else [o.value]) + Before(rest)
    ensures After([o] + rest) == (if o.kind == Removed then [] else [o.value]) + After(rest)
    ensures CountKind([o] + rest, Same) == (if o.kind == Same then 1 else 0) + CountKind(rest, Same)
  {
    assert ([o] + rest)[1..] == rest;
  }

  /** No alignment of `a[i..]` with `b[j..]` keeps more tokens than the
      table's value: the walk's alignment is a longest one. */
  lemma {:induction false} LcsIsLongest(a: seq<string>, b: seq<string>, i: nat, j: nat, ops: seq<Op>)
    requires i <= |a| && j <= |b|
    requires Before(ops) == a[i..] && After(ops) == b[j..]
    ensures CountKind(ops, Same) <= Lcs(a, b, i, j)
    decreases |ops|
  {
    if ops != [] {
      var o, rest := ops[0], ops[1..];
      match o.kind
      case Same =>
        assert a[i..][0] == o.value && b[j..][0] == o.value;
        assert a[i + 1..] == a[i..][1..] && b[j + 1..] == b[j..][1..];
        LcsIsLongest(a, b, i + 1, j + 1, rest);
      case Removed =>
        assert a[i..][0] == o.value;
        assert a[i + 1..] == a[i..][1..];
        LcsIsLongest(a, b, i + 1, j, rest);
        LcsSteps(a, b, i, j);
      case Added =>
        assert b[j..][0] == o.value;
        assert b[j + 1..] == b[j..][1..];
        LcsIsLongest(a, b, i, j + 1, rest);
        LcsSteps(a, b, i, j);
    }
  }

  /** Diffing a token list with itself keeps every token. */
  lemma {:induction false} ScriptOfSame(a: seq<string>, i: nat)
    requires i <= |a|
    ensures |Script(a, a, i, i)| == |a| - i
    ensures forall k :: 0 <= k < |a| - i ==> Script(a, a, i, i)[k] == Op(Same, a[i + k])
    decreases |a| - i
  {
    if i < |a| {
      var rest := Script(a, a, i + 1, i + 1);
      ScriptOfSame(a, i + 1);
      assert Script(a, a, i, i) == [Op(Same, a[i])] + rest;
      forall k | 0 <= k < |a| - i
        ensures Script(a, a, i, i)[k] == Op(Same, a[i + k])
      {
        if k > 0 {
          assert Script(a, a, i, i)[k] == rest[k - 1];
        }
      }
    }
  }

  /** The first half of `diffTokens`: the table, filled row by row from the
      bottom; row `n` and column `m` keep their initial zero. */
  method FillTable(a: seq<string>, b: seq<string>) returns (dp: array2<nat>)
    ensures fresh(dp) && dp.Length0 == |a| + 1 && dp.Length1 == |b| + 1
    ensures forall p, q {:trigger dp[p, q]} :: 0 <= p <= |a| && 0 <= q <= |b| ==> dp[p, q] == Lcs(a, b, p, q)
  {
    var n, m := |a|, |b|;
    dp := new nat[n + 1, m + 1]((_, _) => 0);
    for i := n downto 0
      invariant forall p, q {:trigger dp[p, q]} :: i <= p <= n && 0 <= q <= m ==> dp[p, q] == Lcs(a, b, p, q)
      invariant forall p :: 0 <= p < i ==> dp[p, m] == 0
    {
      FillRow(a, b, dp, i);
    }
  }

  /** The inner loop of the fill: row `i`, from the right, out of row `i + 1`
      and the entry to the right. */
  method FillRow(a: seq<string>, b: seq<string>, dp: array2<nat>, i: nat)
    requires dp.Length0 == |a| + 1 && dp.Length1 == |b| + 1 && i < |a|
    requires forall p, q {:trigger dp[p, q]} :: i < p <= |a| && 0 <= q <= |b| ==> dp[p, q] == Lcs(a, b, p, q)
    requires dp[i, |b|] == 0
    modifies dp
    ensures forall p, q {:trigger dp[p, q]} :: i <= p <= |a| && 0 <= q <= |b| ==> dp[p, q] == Lcs(a, b, p, q)
    ensures forall p, q {:trigger dp[p, q]} :: 0 <= p < i && 0 <= q <= |b| ==> dp[p, q] == old(dp[p, q])
  {
    var m := |b|;
    for j := m downto 0
      invariant forall p, q {:trigger dp[p, q]} :: i < p <= |a| && 0 <= q <= m ==> dp[p, q] == Lcs(a, b, p, q)
      invariant forall q {:trigger dp[i, q]} :: j <= q <= m ==> dp[i, q] == Lcs(a, b, i, q)
      invariant forall p, q {:trigger dp[p, q]} :: 0 <= p < i && 0 <= q <= m ==> dp[p, q] == old(dp[p, q])
    {
      var v: nat;
      if a[i] == b[j] {
        v := 1 + dp[i + 1, j + 1];
      } else {
        v := Max(dp[i + 1, j], dp[i, j + 1]);
      }
      assert v == Lcs(a, b, i, j);
      dp[i, j] := v;
    }
  }

  /** Moving one op from the front of what is left to the end of what has
      been emitted. */
  lemma Emit(done: seq<Op>, o: Op, rest: seq<Op>)
    ensures (done + [o]) + rest == done + ([o] + rest)
  { }

  /** The second half of `diffTokens`: the forward walk over the filled
      table, then the two loops that drain whichever side is left. */
  method Walk(a: seq<string>, b: seq<string>, dp: array2<nat>) returns (res: seq<Op>)
    requires dp.Length0 == |a| + 1 && dp.Length1 == |b| + 1
    requires forall p, q :: 0 <= p <= |a| && 0 <= q <= |b| ==> dp[p, q] == Lcs(a, b, p, q)
    ensures res == Script(a, b, 0, 0)
  {
    var n, m := |a|, |b|;
    res := [];
    var i, j := 0, 0;
    while i < n && j < m
      invariant 0 <= i <= n && 0 <= j <= m
      invariant res + Script(a, b, i, j) == Script(a, b, 0, 0)
      decreases n - i + m - j
    {
      if a[i] == b[j] {
        Emit(res, Op(Same, a[i]), Script(a, b, i + 1, j + 1));
        res := res + [Op(Same, a[i])];
        i, j := i + 1, j + 1;
      } else if dp[i + 1, j] >= dp[i, j + 1] {
        Emit(res, Op(Removed, a[i]), Script(a, b, i + 1, j));
        res := res + [Op(Removed, a[i])];
        i := i + 1;
      } else {
        Emit(res, Op(Added, b[j]), Script(a, b, i, j + 1));
        res := res + [Op(Added, b[j])];
        j := j + 1;
      }
    }
    while i < n
      invariant 0 <= i <= n && 0 <= j <= m && (i < n ==> j == m)
      invariant res + Script(a, b, i, j) == Script(a, b, 0, 0)
    {
      assert Script(a, b, i, j) == [Op(Removed, a[i])] + Script(a, b, i + 1, j);
      Emit(res, Op(Removed, a[i]), Script(a, b, i + 1, j));
      res := res + [Op(Removed, a[i])];
      i := i + 1;
    }
    while j < m
      invariant i == n && 0 <= j <= m
      invariant res + Script(a, b, i, j) == Script(a, b, 0, 0)
    {
      assert Script(a, b, i, j) == [Op(Added, b[j])] + Script(a, b, i, j + 1);
      Emit(res, Op(Added, b[j]), Script(a, b, i, j + 1));
      res := res + [Op(Added, b[j])];
      j := j + 1;
    }
    assert res + [] == res;
  }

  /** `diffTokens(a, b)`: an alignment that replays to both sides and keeps
      a longest common subsequence of them (see `LcsIsLongest`). */
  method DiffTokens(a: seq<string>, b: seq<string>) returns (res: seq<Op>)
    ensures res == Script(a, b, 0, 0)
    ensures Before(res) == a && After(res) == b
    ensures CountKind(res, Same) == Lcs(a, b, 0, 0)
    ensures |res| == |a| + |b| - Lcs(a, b, 0, 0)
  {
    var dp := FillTable(a, b);
    res := Walk(a, b, dp);
    ScriptReplays(a, b, 0, 0);
    ScriptCounts(a, b, 0, 0);
    ScriptLength(a, b, 0, 0);
  }

  // ---------------------------------------------------------------- escaping

  function EscapeChar(c: char): string {
    if c == '&' then "&amp;" else if c == '<' then "&lt;" else if c == '>' then "&gt;" else [c]
  }

  /** `escapeHtml`: `&` first, then `<`, then `>`. Escaped text holds no
      angle bracket, so it can never open or close a tag. */
  function EscapeHtml(s: string): (r: string)
    ensures forall k :: 0 <= k < |r| ==> r[k] != '<' && r[k] != '>'
  {
    var t := ReplaceChars(ReplaceChars(s, {'&'}, "&amp;"), {'<'}, "&lt;");
    ReplaceCharsAbsent(t, {'>'}, "&gt;", '<');
    ReplaceChars(t, {'>'}, "&gt;")
  }

  /** Escaping works character by character. */
  lemma EscapeAppend(x: string, y: string)
    ensures EscapeHtml(x + y) == EscapeHtml(x) + EscapeHtml(y)
  {
    var x1, y1 := ReplaceChars(x, {'&'}, "&amp;"), ReplaceChars(y, {'&'}, "&amp;");
    ReplaceCharsAppend(x, y, {'&'}, "&amp;");
    var x2, y2 := ReplaceChars(x1, {'<'}, "&lt;"), ReplaceChars(y1, {'<'}, "&lt;");
    ReplaceCharsAppend(x1, y1, {'<'}, "&lt;");
    ReplaceCharsAppend(x2, y2, {'>'}, "&gt;");
  }

  lemma EscapeOne(c: char)
    ensures EscapeHtml([c]) == EscapeChar(c)
  {
    var s1 := ReplaceChars([c], {'&'}, "&amp;");
    ReplaceCharsUnit(c, {'&'}, "&amp;");
    var s2 := ReplaceChars(s1, {'<'}, "&lt;");
    if c == '&' {
      assert forall k :: 0 <= k < |s1| ==> s1[k] !in {'<'} && s1[k] !in {'>'};
      assert s2 == s1;
    } else if c == '<' {
      ReplaceCharsUnit(c, {'<'}, "&lt;");
      assert forall k :: 0 <= k < |s2| ==> s2[k] !in {'>'};
    } else {
      ReplaceCharsUnit(c, {'<'}, "&lt;");
      ReplaceCharsUnit(c, {'>'}, "&gt;");
    }
  }

  lemma EscapeCons(c: char, s: string)
    ensures EscapeHtml([c] + s) == EscapeChar(c) + EscapeHtml(s)
  {
    EscapeAppend([c], s);
    EscapeOne(c);
  }

  /** Each character escaped on its own: the reference the three passes are
      checked against. */
  function Escaped(s: string): string {
    if s == [] then [] else EscapeChar(s[0]) + Escaped(s[1..])
  }

  /** The three whole-text passes escape every character on its own; `&`
      going first is what makes this hold. */
  lemma {:induction false} EscapeHtmlPerChar(s: string)
    ensures EscapeHtml(s) == Escaped(s)
    decreases |s|
  {
    if s == [] {
      assert CountIn(s, {'&'}) == 0;
    } else {
      assert s == [s[0]] + s[1..];
      EscapeCons(s[0], s[1..]);
      EscapeHtmlPerChar(s[1..]);
    }
  }

  /** Text with none of `&`, `<`, `>` is left as it is. */
  lemma EscapePlain(s: string)
    requires forall k :: 0 <= k < |s| ==> s[k] !in {'&', '<', '>'}
    ensures EscapeHtml(s) == s
  {
    assert CountIn(s, {'&'}) == 0;
    assert CountIn(s, {'<'}) == 0;
    assert CountIn(s, {'>'}) == 0;
  }

  /** What a browser shows for the three entities. */
  function Unescape(h: string): string
    decreases |h|
  {
    if h == [] then []
    else if |h| >= 5 && h[0] == '&' && h[1] == 'a' && h[2] == 'm' && h[3] == 'p' && h[4] == ';' then
      "&" + Unescape(h[5..])
    else if |h| >= 4 && h[0] == '&' && h[1] == 'l' && h[2] == 't' && h[3] == ';' then
      "<" + Unescape(h[4..])
    else if |h| >= 4 && h[0] == '&' && h[1] == 'g' && h[2] == 't' && h[3] == ';' then
      ">" + Unescape(h[4..])
    else [h[0]] + Unescape(h[1..])
  }

  lemma UnescapeChar(c: char, rest: string)
    ensures Unescape(EscapeChar(c) + rest) == [c] + Unescape(rest)
  {
    var h := EscapeChar(c) + rest;
    if c == '&' {
      assert h[..5] == "&amp;" && h[5..] == rest;
    } else if c == '<' {
      assert h[..4] == "&lt;" && h[4..] == rest;
    } else if c == '>' {
      assert h[..4] == "&gt;" && h[4..] == rest;
    } else {
      assert h[0] == c && h[1..] == rest;
    }
  }

  lemma {:induction false} UnescapeEscaped(s: string, rest: string)
    ensures Unescape(Escaped(s) + rest) == s + Unescape(rest)
    decreases |s|
  {
    if s == [] {
      assert Escaped(s) + rest == rest;
    } else {
      var c, t := s[0], s[1..];
      var tail := Escaped(t) + rest;
      calc {
        Unescape(Escaped(s) + rest);
        { assert Escaped(s) + rest == EscapeChar(c) + tail; }
        Unescape(EscapeChar(c) + tail);
        { UnescapeChar(c, tail); }
        [c] + Unescape(tail);
        { UnescapeEscaped(t, rest); }
        [c] + (t + Unescape(rest));
        { assert s == [c] + t; }
        s + Unescape(rest);
      }
    }
  }

  /** Escaped text reads back as the original whatever follows it: `&` goes
      first, so the entities of `<` and `>` are not escaped again. */
  lemma UnescapeEscape(s: string, rest: string)
    ensures Unescape(EscapeHtml(s) + rest) == s + Unescape(rest)
  {
    EscapeHtmlPerChar(s);
    UnescapeEscaped(s, rest);
  }

  // ---------------------------------------------------------------- rendering

  const RemovedTag: string := "span class=\"diff-removed\""
  const AddedTag: string := "span class=\"diff-added\""
  const CloseTag: string := "/span"

  function Wrap(tag: string, body: string): string {
    "<" + tag + ">" + body + "<" + CloseTag + ">"
  }

  function BeforePiece(d: Op): string {
    if d.kind == Added then EscapeHtml(d.value)
    else if d.kind == Removed then Wrap(RemovedTag, EscapeHtml(d.value))
    else EscapeHtml(d.value)
  }

  function AfterPiece(d: Op): string {
    if d.kind == Removed then EscapeHtml(d.value)
    else if d.kind == Added then Wrap(AddedTag, EscapeHtml(d.value))
    else EscapeHtml(d.value)
  }

  /** `renderBefore`: every op's value escaped, the `removed` ones wrapped;
      the `added` ones are shown as well, unwrapped. The view holds exactly
      two tags per `removed` op: one span around each and nothing else. */
  function RenderBefore(ops: seq<Op>): (r: string)
    ensures CountIn(r, {'<'}) == 2 * CountKind(ops, Removed)
  {
    if ops == [] then []
    else
      CountInAppend(BeforePiece(ops[0]), RenderBefore(ops[1..]), {'<'});
      BeforePieceTags(ops[0]);
      BeforePiece(ops[0]) + RenderBefore(ops[1..])
  }

  /** `renderAfter`: every op's value escaped, the `added` ones wrapped; it
      holds exactly two tags per `added` op. */
  function RenderAfter(ops: seq<Op>): (r: string)
    ensures CountIn(r, {'<'}) == 2 * CountKind(ops, Added)
  {
    if ops == [] then []
    else
      CountInAppend(AfterPiece(ops[0]), RenderAfter(ops[1..]), {'<'});
      AfterPieceTags(ops[0]);
      AfterPiece(ops[0]) + RenderAfter(ops[1..])
  }

  /** The before view is built piece by piece: rendering two op lists one
      after the other renders their concatenation. */
  lemma {:induction false} RenderBeforeAppend(x: seq<Op>, y: seq<Op>)
    ensures RenderBefore(x + y) == RenderBefore(x) + RenderBefore(y)
  {
    if x != [] {
      assert (x + y)[0] == x[0] && (x + y)[1..] == x[1..] + y;
      RenderBeforeAppend(x[1..], y);
      assert RenderBefore(x + y) == BeforePiece(x[0]) + RenderBefore(x[1..] + y);
      assert RenderBefore(x) == BeforePiece(x[0]) + RenderBefore(x[1..]);
      var p, u, v := BeforePiece(x[0]), RenderBefore(x[1..]), RenderBefore(y);
      assert p + (u + v) == (p + u) + v;
    } else {
      assert x + y == y;
    }
  }

  /** The after view is built piece by piece in the same way. */
  lemma {:induction false} RenderAfterAppend(x: seq<Op>, y: seq<Op>)
    ensures RenderAfter(x + y) == RenderAfter(x) + RenderAfter(y)
  {
    if x != [] {
      assert (x + y)[0] == x[0] && (x + y)[1..] == x[1..] + y;
      RenderAfterAppend(x[1..], y);
      assert RenderAfter(x + y) == AfterPiece(x[0]) + RenderAfter(x[1..] + y);
      assert RenderAfter(x) == AfterPiece(x[0]) + RenderAfter(x[1..]);
      var p, u, v := AfterPiece(x[0]), RenderAfter(x[1..]), RenderAfter(y);
      assert p + (u + v) == (p + u) + v;
    } else {
      assert x + y == y;
    }
  }

  /** The text between tags: everything from a `<` up to the next `>` is dropped. */
  function StripTags(h: string): string
    decreases |h|
  {
    if h == [] then []
    else if h[0] == '<' then StripTags(AfterTag(h[1..]))
    else [h[0]] + StripTags(h[1..])
  }

  function AfterTag(h: string): (r: string)
    ensures |r| <= |h|
  {
    if h == [] then [] else if h[0] == '>' then h[1..] else AfterTag(h[1..])
  }

  /** What a reader of the rendered HTML sees. */
  function Visible(h: string): string {
    Unescape(StripTags(h))
  }

  lemma {:induction false} AfterTagSkips(t: string, x: string)
    requires forall k :: 0 <= k < |t| ==> t[k] != '>'
    ensures AfterTag(t + ">" + x) == x
    decreases |t|
  {
    if t == [] {
      assert t + ">" + x == [('>')] + x;
    } else {
      assert (t + ">" + x)[1..] == t[1..] + ">" + x;
      AfterTagSkips(t[1..], x);
    }
  }

  lemma {:induction false} StripPlain(e: string, x: string)
    requires forall k :: 0 <= k < |e| ==> e[k] != '<'
    ensures StripTags(e + x) == e + StripTags(x)
    decreases |e|
  {
    if e == [] {
      assert e + x == x;
    } else {
      assert (e + x)[1..] == e[1..] + x;
      StripPlain(e[1..], x);
    }
  }

  lemma StripTag(t: string, x: string)
    requires forall k :: 0 <= k < |t| ==> t[k] != '>'
    ensures StripTags("<" + t + ">" + x) == StripTags(x)
  {
    var h := "<" + t + ">" + x;
    assert h[1..] == t + ">" + x;
    AfterTagSkips(t, x);
  }

  /** A wrapped piece shows exactly its escaped body. */
  lemma StripWrap(tag: string, body: string, x: string)
    requires forall k :: 0 <= k < |tag| ==> tag[k] != '>'
    requires forall k :: 0 <= k < |body| ==> body[k] != '<'
    ensures StripTags(Wrap(tag, body) + x) == body + StripTags(x)
  {
    var close := "<" + CloseTag + ">";
    assert Wrap(tag, body) + x == "<" + tag + ">" + (body + close + x);
    StripTag(tag, body + close + x);
    assert body + close + x == body + (close + x);
    StripPlain(body, close + x);
    assert close + x == "<" + CloseTag + ">" + x;
    StripTag(CloseTag, x);
  }

  /** A piece of the before view shows its escaped value. */
  lemma BeforePieceShows(d: Op, x: string)
    ensures StripTags(BeforePiece(d) + x) == EscapeHtml(d.value) + StripTags(x)
  {
    if d.kind == Removed {
      StripWrap(RemovedTag, EscapeHtml(d.value), x);
    } else {
      StripPlain(EscapeHtml(d.value), x);
    }
  }

  /** A piece of the after view shows its escaped value. */
  lemma AfterPieceShows(d: Op, x: string)
    ensures StripTags(AfterPiece(d) + x) == EscapeHtml(d.value) + StripTags(x)
  {
    if d.kind == Added {
      StripWrap(AddedTag, EscapeHtml(d.value), x);
    } else {
      StripPlain(EscapeHtml(d.value), x);
    }
  }

  /** The before view shows the value of every op, in order: removed,
      same and added tokens alike. */
  lemma {:induction false} BeforeShowsAll(ops: seq<Op>)
    ensures Visible(RenderBefore(ops)) == Concat(Values(ops))
  {
    if ops != [] {
      var d, rest := ops[0], ops[1..];
      var r := RenderBefore(rest);
      calc {
        Visible(RenderBefore(ops));
        Unescape(StripTags(BeforePiece(d) + r));
        { BeforePieceShows(d, r); }
        Unescape(EscapeHtml(d.value) + StripTags(r));
        { UnescapeEscape(d.value, StripTags(r)); }
        d.value + Visible(r);
        { BeforeShowsAll(rest); }
        d.value + Concat(Values(rest));
      }
    }
  }

  /** The after view shows the value of every op too. */
  lemma {:induction false} AfterShowsAll(ops: seq<Op>)
    ensures Visible(RenderAfter(ops)) == Concat(Values(ops))
  {
    if ops != [] {
      var d, rest := ops[0], ops[1..];
      var r := RenderAfter(rest);
      calc {
        Visible(RenderAfter(ops));
        Unescape(StripTags(AfterPiece(d) + r));
        { AfterPieceShows(d, r); }
        Unescape(EscapeHtml(d.value) + StripTags(r));
        { UnescapeEscape(d.value, StripTags(r)); }
        d.value + Visible(r);
        { AfterShowsAll(rest); }
        d.value + Concat(Values(rest));
      }
    }
  }

  /** A tag in angle brackets holds one `<`. */
  lemma OneOpen(tag: string)
    requires forall k :: 0 <= k < |tag| ==> tag[k] != '<'
    ensures CountIn("<" + tag + ">", {'<'}) == 1
  {
    assert CountIn(tag + ">", {'<'}) == 0;
    assert "<" + tag + ">" == "<" + (tag + ">");
    CountInAppend("<", tag + ">", {'<'});
  }

  /** One `<` for each of a span's two tags, none in its escaped body. */
  lemma WrapTags(tag: string, body: string)
    requires forall k :: 0 <= k < |tag| ==> tag[k] != '<'
    requires forall k :: 0 <= k < |body| ==> body[k] != '<'
    ensures CountIn(Wrap(tag, body), {'<'}) == 2
  {
    var open, close := "<" + tag + ">", "<" + CloseTag + ">";
    assert Wrap(tag, body) == open + body + close;
    OneOpen(tag);
    OneOpen(CloseTag);
    assert CountIn(body, {'<'}) == 0;
    CountInAppend(open + body, close, {'<'});
    CountInAppend(open, body, {'<'});
  }


  lemma BeforePieceTags(d: Op)
    ensures CountIn(BeforePiece(d), {'<'}) == if d.kind == Removed then 2 else 0
  {
    if d.kind == Removed {
      WrapTags(RemovedTag, EscapeHtml(d.value));
    }
  }

  lemma AfterPieceTags(d: Op)
    ensures CountIn(AfterPiece(d), {'<'}) == if d.kind == Added then 2 else 0
  {
    if d.kind == Added {
      WrapTags(AddedTag, EscapeHtml(d.value));
    }
  }

  /** Ops that are all `same` render as the escaped text on both sides. */
  lemma {:induction false} RenderUnchanged(ops: seq<Op>)
    requires forall k :: 0 <= k < |ops| ==> ops[k].kind == Same
    ensures RenderBefore(ops) == RenderAfter(ops) == EscapeHtml(Concat(Values(ops)))
  {
    if ops == [] {
      assert CountIn([], {'&'}) == 0;
    } else {
      var rest := ops[1..];
      RenderUnchanged(rest);
      assert BeforePiece(ops[0]) == AfterPiece(ops[0]) == EscapeHtml(ops[0].value);
      assert RenderBefore(ops) == EscapeHtml(ops[0].value) + RenderBefore(rest);
      assert RenderAfter(ops) == EscapeHtml(ops[0].value) + RenderAfter(rest);
      assert Concat(Values(ops)) == ops[0].value + Concat(Values(rest));
      EscapeAppend(ops[0].value, Concat(Values(rest)));
    }
  }

  /** Diffing a text with itself highlights nothing: both views are the
      escaped text. */
  lemma DiffOfSame(a: string)
    ensures var d := Script(Tokenize(a), Tokenize(a), 0, 0);
      RenderBefore(d) == RenderAfter(d) == EscapeHtml(a)
  {
    var t := Tokenize(a);
    var d := Script(t, t, 0, 0);
    ScriptOfSame(t, 0);
    ValuesOfSame(d, t);
    RenderUnchanged(d);
    TokenizeJoins(a);
  }

  lemma {:induction false} ValuesOfSame(d: seq<Op>, t: seq<string>)
    requires |d| == |t| && forall k :: 0 <= k < |d| ==> d[k] == Op(Same, t[k])
    ensures Values(d) == t
  {
    if d != [] {
      ValuesOfSame(d[1..], t[1..]);
    }
  }

  /** `window.wipaDiff(a, b)`: both views of the one alignment; they show the
      same text and differ only in which ops they highlight. */
  method WipaDiff(a: string, b: string) returns (beforeHtml: string, afterHtml: string)
    ensures var d := Script(Tokenize(a), Tokenize(b), 0, 0);
      beforeHtml == RenderBefore(d) && afterHtml == RenderAfter(d)
    ensures Visible(beforeHtml) == Visible(afterHtml)
    ensures a == b ==> beforeHtml == afterHtml == EscapeHtml(a)
  {
    var ta, tb := Tokenize(a), Tokenize(b);
    var d := DiffTokens(ta, tb);
    beforeHtml, afterHtml := RenderBefore(d), RenderAfter(d);
    BeforeShowsAll(d);
    AfterShowsAll(d);
    if a == b {
      DiffOfSame(a);
    }
  }
}
