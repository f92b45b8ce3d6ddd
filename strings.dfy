/** Character classes and small string functions shared by the cleaning rules,
    the tokenizer and the renderers. Strings are `seq<char>`; the JavaScript
    code works on UTF-16 code units, which coincide with characters for every
    character the rules look at. */
module Strings {

  datatype Option<T> = None | Some(value: T)

  /** JavaScript's `\s` (and the set `String.prototype.trim` removes):
      WhiteSpace and LineTerminator of ECMA-262. */
  predicate IsWs(c: char) {
    ('\t' <= c <= '\r') || c == ' ' || c == '\U{A0}' || c == '\U{1680}' ||
    ('\U{2000}' <= c <= '\U{200A}') || c == '\U{2028}' || c == '\U{2029}' ||
    c == '\U{202F}' || c == '\U{205F}' || c == '\U{3000}' || c == '\U{FEFF}'
  }

  /** Line terminators: where `^` and `$` hold under the `m` flag and what `.` does not match. */
  predicate IsLineEnd(c: char) {
    c == '\n' || c == '\r' || c == '\U{2028}' || c == '\U{2029}'
  }

  /** `\w`, which also decides `\b`. */
  predicate IsWordChar(c: char) {
    ('a' <= c <= 'z') || ('A' <= c <= 'Z') || ('0' <= c <= '9') || c == '_'
  }

  /** `[A-Za-z0-9]` */
  predicate IsAlnum(c: char) {
    ('a' <= c <= 'z') || ('A' <= c <= 'Z') || ('0' <= c <= '9')
  }

  predicate IsDigit(c: char) {
    '0' <= c <= '9'
  }

  /** The character classes that the patterns repeat with `*`, `+` or `{n,}`. */
  datatype CharClass =
    | Ws                   // \s
    | NotWs                // \S
    | NotLineEnd           // .  (without the s flag)
    | Digit                // \d
    | Exactly(c: char)     // a literal character
    | OneOf(cs: set<char>) // [...]
    | NoneOf(c: char)      // [^c]
    | WsOr(ws: set<char>)  // [\s...]

  predicate In(c: char, cls: CharClass) {
    match cls
    case Ws => IsWs(c)
    case NotWs => !IsWs(c)
    case NotLineEnd => !IsLineEnd(c)
    case Digit => IsDigit(c)
    case Exactly(d) => c == d
    case OneOf(cs) => c in cs
    case NoneOf(d) => c != d
    case WsOr(cs) => IsWs(c) || c in cs
  }

  /** Length of the longest run of `cls` characters starting at `i`: what a
      greedy `cls*` consumes there. */
  function Span(s: string, i: nat, cls: CharClass): (n: nat)
    requires i <= |s|
    ensures i + n <= |s|
    ensures forall k :: i <= k < i + n ==> In(s[k], cls)
    ensures i + n < |s| ==> !In(s[i + n], cls)
    ensures i < |s| && In(s[i], cls) ==> n >= 1
    decreases |s| - i
  {
    if i < |s| && In(s[i], cls) then 1 + Span(s, i + 1, cls) else 0
  }

  /** A run that ends where the class stops is the whole greedy span. */
  lemma {:induction false} SpanExact(s: string, i: nat, j: nat, cls: CharClass)
    requires i <= j <= |s|
    requires forall k :: i <= k < j ==> In(s[k], cls)
    requires j < |s| ==> !In(s[j], cls)
    ensures Span(s, i, cls) == j - i
    decreases j - i
  {
    if i < j {
      SpanExact(s, i + 1, j, cls);
    }
  }

  predicate AllWs(s: string) {
    forall k :: 0 <= k < |s| ==> IsWs(s[k])
  }

  predicate NoWs(s: string) {
    forall k :: 0 <= k < |s| ==> !IsWs(s[k])
  }

  /** Neither the first nor the last character is whitespace. */
  predicate NoEdgeWs(s: string) {
    s == [] || (!IsWs(s[0]) && !IsWs(s[|s| - 1]))
  }

  /** Number of characters of `s` that belong to `cls`. */
  function CountIn(s: string, cls: set<char>): (n: nat)
    ensures n <= |s|
    ensures n == 0 <==> forall k :: 0 <= k < |s| ==> s[k] !in cls
  {
    if s == [] then 0 else (if s[0] in cls then 1 else 0) + CountIn(s[1..], cls)
  }

  lemma {:induction false} CountInAppend(a: string, b: string, cls: set<char>)
    ensures CountIn(a + b, cls) == CountIn(a, cls) + CountIn(b, cls)
  {
    if a != [] {
      assert (a + b)[0] == a[0] && (a + b)[1..] == a[1..] + b;
      CountInAppend(a[1..], b, cls);
    } else {
      assert a + b == b;
    }
  }

  /** The characters of `s` outside `cls`, in order: what is left once every
      character of the class is struck out. */
  function Outside(s: string, cls: CharClass): (r: string)
    ensures |r| <= |s|
  {
    if s == [] then [] else (if In(s[0], cls) then [] else [s[0]]) + Outside(s[1..], cls)
  }

  lemma {:induction false} OutsideAppend(a: string, b: string, cls: CharClass)
    ensures Outside(a + b, cls) == Outside(a, cls) + Outside(b, cls)
  {
    if a != [] {
      assert (a + b)[0] == a[0] && (a + b)[1..] == a[1..] + b;
      OutsideAppend(a[1..], b, cls);
    } else {
      assert a + b == b;
    }
  }

  /** A text made only of the class has nothing outside it. */
  lemma {:induction false} OutsideNone(s: string, cls: CharClass)
    requires forall k :: 0 <= k < |s| ==> In(s[k], cls)
    ensures Outside(s, cls) == []
  {
    if s != [] {
      OutsideNone(s[1..], cls);
    }
  }

  lemma OutsideCons(c: char, s: string, cls: CharClass)
    ensures Outside([c] + s, cls) == (if In(c, cls) then [] else [c]) + Outside(s, cls)
  {
    assert ([c] + s)[1..] == s;
  }

  /** A character outside the class that is missing once the class is struck
      out was missing before. */
  lemma {:induction false} OutsideLacks(s: string, cls: CharClass, c: char)
    requires !In(c, cls)
    requires forall k :: 0 <= k < |Outside(s, cls)| ==> Outside(s, cls)[k] != c
    ensures forall k :: 0 <= k < |s| ==> s[k] != c
  {
    if s != [] {
      var head := if In(s[0], cls) then [] else [s[0]];
      assert Outside(s, cls) == head + Outside(s[1..], cls);
      assert forall k :: 0 <= k < |Outside(s[1..], cls)| ==> Outside(s[1..], cls)[k] == Outside(s, cls)[|head| + k];
      OutsideLacks(s[1..], cls, c);
      if !In(s[0], cls) {
        assert Outside(s, cls)[0] == s[0];
      }
      assert forall k :: 1 <= k < |s| ==> s[k] == s[1..][k - 1];
    }
  }

  /** Striking out a class and then a wider one strikes out the wider one. */
  lemma {:induction false} OutsideWithin(s: string, a: CharClass, b: CharClass)
    requires forall c :: In(c, a) ==> In(c, b)
    ensures Outside(Outside(s, a), b) == Outside(s, b)
  {
    if s != [] {
      var head := if In(s[0], a) then [] else [s[0]];
      OutsideWithin(s[1..], a, b);
      OutsideAppend(head, Outside(s[1..], a), b);
      if !In(s[0], a) {
        assert Outside(head, b) == (if In(s[0], b) then [] else [s[0]]) + Outside([], b);
      }
    }
  }

  /** Widening the set of a `[\s...]` class widens the class. */
  lemma WsOrWithin(a: set<char>, b: set<char>)
    requires a <= b
    ensures forall c :: In(c, WsOr(a)) ==> In(c, WsOr(b))
  {
  }

  /** For a class given as a set, the characters outside it and the count of
      those in it make up the whole text. */
  lemma {:induction false} OutsideCount(s: string, cs: set<char>)
    ensures |Outside(s, OneOf(cs))| + CountIn(s, cs) == |s|
  {
    if s != [] {
      OutsideCount(s[1..], cs);
    }
  }

  /** `s.replace(/[cls]/g, repl)`: every character of the class becomes `repl`. */
  function ReplaceChars(s: string, cls: set<char>, repl: string): (r: string)
    ensures (forall k :: 0 <= k < |repl| ==> repl[k] !in cls) ==>
              forall k :: 0 <= k < |r| ==> r[k] !in cls
    ensures |repl| == 1 ==>
              |r| == |s| && forall k {:trigger r[k]} :: 0 <= k < |s| ==> r[k] == (if s[k] in cls then repl[0] else s[k])
    ensures CountIn(s, cls) == 0 ==> r == s
  {
    if s == [] then []
    else (if s[0] in cls then repl else [s[0]]) + ReplaceChars(s[1..], cls, repl)
  }

  /** A single character is replaced or kept. */
  lemma ReplaceCharsUnit(c: char, cls: set<char>, repl: string)
    ensures ReplaceChars([c], cls, repl) == if c in cls then repl else [c]
  {
    assert [c][1..] == [];
  }

  /** Each replaced character is traded for the whole replacement. */
  lemma {:induction false} ReplaceCharsLength(s: string, cls: set<char>, repl: string)
    ensures |ReplaceChars(s, cls, repl)| + CountIn(s, cls) == |s| + CountIn(s, cls) * |repl|
  {
    if s != [] {
      ReplaceCharsLength(s[1..], cls, repl);
      var n, m := CountIn(s[1..], cls), |repl|;
      var head := if s[0] in cls then repl else [s[0]];
      assert ReplaceChars(s, cls, repl) == head + ReplaceChars(s[1..], cls, repl);
      assert CountIn(s, cls) == (if s[0] in cls then 1 else 0) + n;
      MulSucc(n, m);
    }
  }

  lemma MulSucc(n: int, m: int)
    ensures (n + 1) * m == n * m + m
  {
  }

  /** Replacing characters distributes over concatenation. */
  lemma {:induction false} ReplaceCharsAppend(a: string, b: string, cls: set<char>, repl: string)
    ensures ReplaceChars(a + b, cls, repl) == ReplaceChars(a, cls, repl) + ReplaceChars(b, cls, repl)
  {
    if a != [] {
      var ab := a + b;
      assert ab[0] == a[0] && ab[1..] == a[1..] + b;
      ReplaceCharsAppend(a[1..], b, cls, repl);
      var head := if a[0] in cls then repl else [a[0]];
      calc {
        ReplaceChars(ab, cls, repl);
        head + ReplaceChars(ab[1..], cls, repl);
        head + (ReplaceChars(a[1..], cls, repl) + ReplaceChars(b, cls, repl));
        (head + ReplaceChars(a[1..], cls, repl)) + ReplaceChars(b, cls, repl);
      }
    } else {
      assert a + b == b;
    }
  }

  /** A character found neither in the text nor in the replacement is not in
      the result either. */
  lemma {:induction false} ReplaceCharsAbsent(s: string, cls: set<char>, repl: string, c: char)
    requires forall k :: 0 <= k < |s| ==> s[k] != c
    requires forall k :: 0 <= k < |repl| ==> repl[k] != c
    ensures forall k :: 0 <= k < |ReplaceChars(s, cls, repl)| ==> ReplaceChars(s, cls, repl)[k] != c
  {
    if s != [] {
      var head := if s[0] in cls then repl else [s[0]];
      var rest := ReplaceChars(s[1..], cls, repl);
      ReplaceCharsAbsent(s[1..], cls, repl, c);
      assert forall k :: 0 <= k < |head + rest| ==> (head + rest)[k] == if k < |head| then head[k] else rest[k - |head|];
    }
  }

  /** Replacing characters of a class by characters of a wider class leaves
      what is outside the wider class as it was. */
  lemma {:induction false} ReplaceCharsOutside(s: string, cls: set<char>, repl: string, cs: set<char>)
    requires cls <= cs
    requires forall k :: 0 <= k < |repl| ==> repl[k] in cs
    ensures Outside(ReplaceChars(s, cls, repl), OneOf(cs)) == Outside(s, OneOf(cs))
  {
    if s != [] {
      var head := if s[0] in cls then repl else [s[0]];
      ReplaceCharsOutside(s[1..], cls, repl, cs);
      OutsideAppend(head, ReplaceChars(s[1..], cls, repl), OneOf(cs));
      if s[0] in cls {
        OutsideNone(repl, OneOf(cs));
      } else {
        assert Outside(head, OneOf(cs)) == (if s[0] in cs then [] else [s[0]]) + Outside([], OneOf(cs));
      }
    }
  }

  /** Case-insensitive comparison of a text character with a lower-case
      pattern character, as a regex with the `i` flag and without `u` does
      it: only ASCII letters fold. */
  predicate CiEq(c: char, lower: char) {
    c == lower || ('a' <= lower <= 'z' && c as int == lower as int - 32)
  }

  /** The lower-case literal `lit` occurs at `i`, ignoring case. */
  predicate CiAt(s: string, i: nat, lit: string) {
    i + |lit| <= |s| && forall t :: 0 <= t < |lit| ==> CiEq(s[i + t], lit[t])
  }

  /** The literal `d` occurs at position `q` of `s`. */
  predicate OccursAt(s: string, d: string, q: nat) {
    q + |d| <= |s| && s[q..q + |d|] == d
  }

  /** The first occurrence of `d` at or after `k` (what a lazy `.*?d` reaches). */
  function FindFrom(s: string, d: string, k: nat): (r: Option<nat>)
    requires d != []
    ensures r.Some? ==> k <= r.value && OccursAt(s, d, r.value)
    ensures r.Some? ==> forall q :: k <= q < r.value ==> !OccursAt(s, d, q)
    ensures r.None? ==> forall q :: k <= q ==> !OccursAt(s, d, q)
    decreases |s| - k
  {
    if k + |d| > |s| then None
    else if OccursAt(s, d, k) then Some(k)
    else FindFrom(s, d, k + 1)
  }

  function DigitChar(d: nat): (c: char)
    requires d < 10
    ensures IsDigit(c) && c as int - '0' as int == d
  {
    ('0' as int + d) as char
  }

  /** `${n}`: the decimal digits of a count. */
  function Dec(n: nat): (r: string)
    ensures r != []
    ensures forall k :: 0 <= k < |r| ==> IsDigit(r[k])
    ensures |r| > 1 ==> r[0] != '0'
  {
    if n < 10 then [DigitChar(n)] else Dec(n / 10) + [DigitChar(n % 10)]
  }

  /** Reads a string of digits back as a number. */
  function ParseDec(s: string): nat
    requires forall k :: 0 <= k < |s| ==> IsDigit(s[k])
  {
    if s == [] then 0 else 10 * ParseDec(s[..|s| - 1]) + DigitValue(s[|s| - 1])
  }

  function DigitValue(c: char): nat
    requires IsDigit(c)
  {
    c as int - '0' as int
  }

  /** The count shown in a change message can be read back exactly. */
  lemma {:induction false} ParseDecOfDec(n: nat)
    ensures ParseDec(Dec(n)) == n
  {
    if n >= 10 {
      var r := Dec(n);
      assert r[..|r| - 1] == Dec(n / 10);
      ParseDecOfDec(n / 10);
    }
  }

  /** Trailing whitespace removed. */
  function TrimRight(s: string): (r: string)
    ensures |r| <= |s| && r == s[..|r|]
    ensures AllWs(s[|r|..])
    ensures r == [] || !IsWs(r[|r| - 1])
  {
    if s != [] && IsWs(s[|s| - 1]) then
      var t := s[..|s| - 1];
      var r := TrimRight(t);
      assert t[..|r|] == s[..|r|];
      assert s[|r|..] == t[|r|..] + [s[|s| - 1]];
      r
    else s
  }

  /** Every character of `s[lo..hi]` is whitespace. */
  predicate WsBetween(s: string, lo: nat, hi: nat)
    requires lo <= hi <= |s|
  {
    forall k :: lo <= k < hi ==> IsWs(s[k])
  }

  /** The first position at or after `k` that is not whitespace (`|s|` if
      there is none). */
  function SkipWs(s: string, k: nat): (i: nat)
    requires k <= |s|
    ensures k <= i <= |s| && WsBetween(s, k, i)
    ensures i < |s| ==> !IsWs(s[i])
    decreases |s| - k
  {
    if k == |s| || !IsWs(s[k]) then k else SkipWs(s, k + 1)
  }

  /** The end of `s[lo..hi]` once its trailing whitespace is cut off. */
  function BackWs(s: string, lo: nat, hi: nat): (j: nat)
    requires lo <= hi <= |s|
    ensures lo <= j <= hi && WsBetween(s, j, hi)
    ensures lo < j ==> !IsWs(s[j - 1])
    decreases hi - lo
  {
    if hi == lo || !IsWs(s[hi - 1]) then hi else BackWs(s, lo, hi - 1)
  }

  /** `String.prototype.trim`: the text between the leading and the trailing
      whitespace, which neither starts nor ends with whitespace. */
  function Trim(s: string): (r: string)
    ensures NoEdgeWs(r)
    ensures exists i, j :: 0 <= i <= j <= |s| && r == s[i..j] && WsBetween(s, 0, i) && WsBetween(s, j, |s|)
    ensures r == [] <==> AllWs(s)
  {
    var i := SkipWs(s, 0);
    var j := BackWs(s, i, |s|);
    if i < j then
      assert s[i..j][0] == s[i] && s[i..j][j - i - 1] == s[j - 1];
      s[i..j]
    else
      assert i == |s|;
      []
  }

  /** Trimming on the right commutes with putting a character in front of
      text that is not all whitespace. */
  lemma {:induction false} TrimRightCons(c: char, t: string)
    requires !AllWs(t)
    ensures TrimRight([c] + t) == [c] + TrimRight(t)
    decreases |t|
  {
    var ct := [c] + t;
    if IsWs(t[|t| - 1]) {
      assert ct[..|ct| - 1] == [c] + t[..|t| - 1];
      assert !AllWs(t[..|t| - 1]);
      TrimRightCons(c, t[..|t| - 1]);
    }
  }
}
