/** The cleaning pipeline of js/formatting.js: nineteen flag-gated rewrite
    rules applied in a fixed order, the change messages they report, the
    final trim, and the em-dash suggestion. */
module Cleaning {
  import opened Strings
  import opened Patterns

  // ---------------------------------------------------------------- rules and options

  /** The rules, in the order `cleanText` runs them. */
  datatype Rule =
    | Bold | Italic | Headers | Lists | Links | Code | Blockquotes | Tables
    | SmartQuotes | Ellipsis | Bullets | Dashes
    | Formulaic | Transitions | Hedging | Parenthetical
    | Separators | Breaks | Spacing

  const Order: seq<Rule> :=
    [Bold, Italic, Headers, Lists, Links, Code, Blockquotes, Tables,
     SmartQuotes, Ellipsis, Bullets, Dashes,
     Formulaic, Transitions, Hedging, Parenthetical,
     Separators, Breaks, Spacing]

  /** Position of a rule in `Order`. */
  function Rank(k: Rule): (i: nat)
    ensures i < |Order| && Order[i] == k
  {
    match k
    case Bold => 0 case Italic => 1 case Headers => 2 case Lists => 3
    case Links => 4 case Code => 5 case Blockquotes => 6 case Tables => 7
    case SmartQuotes => 8 case Ellipsis => 9 case Bullets => 10 case Dashes => 11
    case Formulaic => 12 case Transitions => 13 case Hedging => 14 case Parenthetical => 15
    case Separators => 16 case Breaks => 17 case Spacing => 18
  }

  /** The key of the rule's flag in the options record. */
  function FlagName(k: Rule): string {
    match k
    case Bold => "bold" case Italic => "italic" case Headers => "headers" case Lists => "lists"
    case Links => "links" case Code => "code" case Blockquotes => "blockquotes" case Tables => "tables"
    case SmartQuotes => "smartQuotes" case Ellipsis => "ellipsis" case Bullets => "bullets"
    case Dashes => "dashes" case Formulaic => "formulaic" case Transitions => "transitions"
    case Hedging => "hedging" case Parenthetical => "parenthetical" case Separators => "separators"
    case Breaks => "breaks" case Spacing => "spacing"
  }

  /** The `opts` argument: boolean flags by name and the em-dash strategy. */
  datatype Config = Config(flags: map<string, bool>, emDashStrategy: string)

  /** `opts[name]` is truthy; a missing flag reads as `undefined`. */
  predicate Enabled(cfg: Config, k: Rule) {
    FlagName(k) in cfg.flags && cfg.flags[FlagName(k)]
  }

  // ---------------------------------------------------------------- change reports

  /** One entry of `changes`, with the rule that pushed it and the count it shows. */
  datatype Report = Report(rule: Rule, count: nat, message: string)

  /** Text after some rules, and the reports they pushed. */
  datatype Step = Step(text: string, reports: seq<Report>)

  /** `if (n) changes.push(message)`. */
  function Note(k: Rule, n: nat, message: string): (r: seq<Report>)
    ensures |r| <= 1 && (|r| == 1 <==> n > 0)
    ensures forall i :: 0 <= i < |r| ==> r[i] == Report(k, n, message)
  {
    if n > 0 then [Report(k, n, message)] else []
  }

  /** A message with a count in it: `${pre}${n}${post}`. */
  function Label(pre: string, n: nat, post: string): string {
    pre + Dec(n) + post
  }

  function Messages(rs: seq<Report>): (ms: seq<string>)
    ensures |ms| == |rs| && forall i :: 0 <= i < |rs| ==> ms[i] == rs[i].message
  {
    if rs == [] then [] else [rs[0].message] + Messages(rs[1..])
  }

  lemma MessagesAppend(a: seq<Report>, b: seq<Report>)
    ensures Messages(a + b) == Messages(a) + Messages(b)
  {
    assert forall i :: 0 <= i < |a + b| ==> Messages(a + b)[i] == (Messages(a) + Messages(b))[i];
  }

  // ---------------------------------------------------------------- typography

  const DoubleQuotes: set<char> := {'\U{201C}', '\U{201D}', '\U{201E}', '\U{201F}'}
  const SingleQuotes: set<char> := {'\U{2018}', '\U{2019}', '\U{201A}', '\U{201B}'}
  const EllipsisChar: char := '\U{2026}'
  const BulletChars: set<char> := {'\U{2022}', '\U{25E6}', '\U{25AA}'}
  const EmDash: char := '\U{2014}'
  const EnDash: char := '\U{2013}'

  /** Curly double quotes become `"` and curly single quotes `'`, one for one;
      the count is the number of curly quotes in the input. */
  function SmartQuotesRule(s: string): (r: Outcome)
    ensures r.n == CountIn(s, DoubleQuotes) + CountIn(s, SingleQuotes)
    ensures r.n == 0 ==> r.text == s
    ensures |r.text| == |s|
    ensures forall k {:trigger r.text[k]} :: 0 <= k < |s| ==>
              r.text[k] == (if s[k] in DoubleQuotes then '"' else if s[k] in SingleQuotes then '\'' else s[k])
  {
    var n := CountIn(s, DoubleQuotes) + CountIn(s, SingleQuotes);
    var t := ReplaceChars(s, DoubleQuotes, "\"");
    assert |t| == |s| && forall k {:trigger t[k]} :: 0 <= k < |s| ==> t[k] == (if s[k] in DoubleQuotes then '"' else s[k]);
    var u := ReplaceChars(t, SingleQuotes, "'");
    assert |u| == |t| && forall k {:trigger u[k]} :: 0 <= k < |t| ==> u[k] == (if t[k] in SingleQuotes then '\'' else t[k]);
    Outcome(u, n)
  }

  /** No curly quote is left. */
  lemma SmartQuotesLeaveNone(s: string)
    ensures var r := SmartQuotesRule(s);
      forall k :: 0 <= k < |r.text| ==> r.text[k] !in DoubleQuotes && r.text[k] !in SingleQuotes
  {
    var r := SmartQuotesRule(s);
    forall k | 0 <= k < |r.text|
      ensures r.text[k] !in DoubleQuotes && r.text[k] !in SingleQuotes
    {
      if s[k] in DoubleQuotes {
        assert r.text[k] == '"';
      } else if s[k] in SingleQuotes {
        assert r.text[k] == '\'';
      } else {
        assert r.text[k] == s[k];
      }
    }
  }

  /** Each `…` becomes `...`, two characters longer. */
  function EllipsisRule(s: string): (r: Outcome)
    ensures r.n == CountIn(s, {EllipsisChar})
    ensures |r.text| == |s| + 2 * r.n
    ensures forall k :: 0 <= k < |r.text| ==> r.text[k] != EllipsisChar
    ensures Outside(r.text, OneOf({EllipsisChar, '.'})) == Outside(s, OneOf({EllipsisChar, '.'}))
  {
    ReplaceCharsLength(s, {EllipsisChar}, "...");
    ReplaceCharsOutside(s, {EllipsisChar}, "...", {EllipsisChar, '.'});
    Outcome(ReplaceChars(s, {EllipsisChar}, "..."), CountIn(s, {EllipsisChar}))
  }

  /** Each `•`, `◦`, `▪` becomes `-`, one for one. */
  function BulletsRule(s: string): (r: Outcome)
    ensures r.n == CountIn(s, BulletChars)
    ensures |r.text| == |s|
    ensures forall k {:trigger r.text[k]} :: 0 <= k < |s| ==> r.text[k] == (if s[k] in BulletChars then '-' else s[k])
  {
    Outcome(ReplaceChars(s, BulletChars, "-"), CountIn(s, BulletChars))
  }

  /** The replacement text of an em dash for a strategy: four names have
      their own text and every other value, `comma` and unknown names
      included, falls through to `, `. */
  function DashText(chosen: string): (r: string)
    ensures |r| >= 1 && EmDash !in r && EnDash !in r
    ensures forall k :: 0 <= k < |r| ==> r[k] in DashMarks
    ensures r == ", " <==> chosen !in {"hyphen", "colon", "period", "remove"}
  {
    if chosen == "hyphen" then " - "
    else if chosen == "colon" then ": "
    else if chosen == "period" then ". "
    else if chosen == "remove" then " "
    else ", "
  }

  /** `[A-Za-z0-9]\s*—\s*[A-Za-z0-9]` matches at `i`, with the dash at `j`
      and the second alphanumeric at `k`. */
  predicate FlankedAt(s: string, i: nat, j: nat, k: nat) {
    i < j < k < |s| && IsAlnum(s[i]) && s[j] == EmDash && IsAlnum(s[k]) &&
    (forall t :: i < t < j ==> IsWs(s[t])) && (forall t :: j < t < k ==> IsWs(s[t]))
  }

  /** `[:;]\s*—` matches at `i`, with the dash at `j`. */
  predicate ColonDashAt(s: string, i: nat, j: nat) {
    i < j < |s| && s[i] in {':', ';'} && s[j] == EmDash && (forall t :: i < t < j ==> IsWs(s[t]))
  }

  /** Where the greedy `\s*` after position `i` stops. */
  function PastWs(s: string, i: nat): (j: nat)
    requires i < |s|
    ensures i < j <= |s|
  {
    i + 1 + Span(s, i + 1, Ws)
  }

  /** The first pattern tried at `i`, following the greedy `\s*`. */
  predicate FlankedHere(s: string, i: nat)
    requires i < |s|
  {
    IsAlnum(s[i]) && PastWs(s, i) < |s| && s[PastWs(s, i)] == EmDash &&
    PastWs(s, PastWs(s, i)) < |s| && IsAlnum(s[PastWs(s, PastWs(s, i))])
  }

  predicate ColonDashHere(s: string, i: nat)
    requires i < |s|
  {
    s[i] in {':', ';'} && PastWs(s, i) < |s| && s[PastWs(s, i)] == EmDash
  }

  /** Some match of the first pattern starts at or after `i`. */
  predicate FlankedFrom(s: string, i: nat)
    decreases |s| - i
  {
    i < |s| && (FlankedHere(s, i) || FlankedFrom(s, i + 1))
  }

  predicate ColonDashFrom(s: string, i: nat)
    decreases |s| - i
  {
    i < |s| && (ColonDashHere(s, i) || ColonDashFrom(s, i + 1))
  }

  lemma FlankedHereIff(s: string, i: nat)
    requires i < |s|
    ensures FlankedHere(s, i) <==> exists j: nat, k: nat :: FlankedAt(s, i, j, k)
  {
    if FlankedHere(s, i) {
      var j := PastWs(s, i);
      var k := PastWs(s, j);
      assert FlankedAt(s, i, j, k);
    }
    if j': nat, k': nat :| FlankedAt(s, i, j', k') {
      FlankedAtIsGreedy(s, i, j', k');
    }
  }

  /** A match found by any split of the whitespace is the one the greedy
      `\s*` finds. */
  lemma FlankedAtIsGreedy(s: string, i: nat, j: nat, k: nat)
    requires FlankedAt(s, i, j, k)
    ensures FlankedHere(s, i)
  {
    WsGap(s, i + 1, j);
    WsGap(s, j + 1, k);
    assert PastWs(s, i) == j && PastWs(s, j) == k;
  }

  /** A whitespace run that stops at a character which is not whitespace is
      all the greedy `\s*` takes. */
  lemma WsGap(s: string, a: nat, b: nat)
    requires a <= b < |s| && (forall t :: a <= t < b ==> IsWs(s[t]))
    requires s[b] == EmDash || IsAlnum(s[b])
    ensures Span(s, a, Ws) == b - a
  {
    assert !In(s[b], Ws);
    forall t | a <= t < b
      ensures In(s[t], Ws)
    {
    }
    SpanExact(s, a, b, Ws);
  }

  lemma ColonDashHereIff(s: string, i: nat)
    requires i < |s|
    ensures ColonDashHere(s, i) <==> exists j: nat :: ColonDashAt(s, i, j)
  {
    var j := PastWs(s, i);
    if ColonDashHere(s, i) {
      assert ColonDashAt(s, i, j);
    }
    if j': nat :| ColonDashAt(s, i, j') {
      SpanExact(s, i + 1, j', Ws);
    }
  }

  lemma {:induction false} FlankedFromIff(s: string, i: nat)
    ensures FlankedFrom(s, i) <==> exists i': nat, j: nat, k: nat :: i <= i' && FlankedAt(s, i', j, k)
    decreases |s| - i
  {
    if i < |s| {
      FlankedHereIff(s, i);
      FlankedFromIff(s, i + 1);
      if FlankedHere(s, i) {
        var j: nat, k: nat :| FlankedAt(s, i, j, k);
        assert i <= i && FlankedAt(s, i, j, k);
      } else if FlankedFrom(s, i + 1) {
        var i': nat, j: nat, k: nat :| i + 1 <= i' && FlankedAt(s, i', j, k);
        assert i <= i' && FlankedAt(s, i', j, k);
      }
      if i': nat, j: nat, k: nat :| i <= i' && FlankedAt(s, i', j, k) {
        if i' == i {
          assert FlankedHere(s, i);
        } else {
          assert i + 1 <= i' && FlankedAt(s, i', j, k);
        }
      }
    } else {
      forall i': nat, j: nat, k: nat | i <= i'
        ensures !FlankedAt(s, i', j, k)
      {
      }
    }
  }

  lemma {:induction false} ColonDashFromIff(s: string, i: nat)
    ensures ColonDashFrom(s, i) <==> exists i': nat, j: nat :: i <= i' && ColonDashAt(s, i', j)
    decreases |s| - i
  {
    if i < |s| {
      ColonDashHereIff(s, i);
      ColonDashFromIff(s, i + 1);
      if i': nat, j: nat :| i <= i' && ColonDashAt(s, i', j) {
        if i' > i {
          assert i + 1 <= i';
        }
      }
    }
  }

  /** `suggestEmDash`: `comma` when a dash sits between two alphanumerics,
      else `colon` when a dash follows `:` or `;`, else `comma`. A global
      `match` finds at least one match exactly when one exists somewhere. */
  function SuggestEmDash(s: string): (r: string)
    ensures r == "comma" || r == "colon"
  {
    if FlankedFrom(s, 0) then "comma"
    else if ColonDashFrom(s, 0) then "colon"
    else "comma"
  }

  /** The suggestion is `colon` exactly when no em dash sits between two
      alphanumerics and some em dash follows `:` or `;`. */
  lemma SuggestEmDashColon(s: string)
    ensures SuggestEmDash(s) == "colon" <==>
              (!exists i: nat, j: nat, k: nat :: FlankedAt(s, i, j, k)) &&
              (exists i: nat, j: nat :: ColonDashAt(s, i, j))
  {
    FlankedFromIff(s, 0);
    ColonDashFromIff(s, 0);
  }

  /** What the dashes rule computed. */
  datatype DashOutcome = DashOutcome(text: string, em: nat, chosen: string, en: nat)

  /** Every em dash becomes `repl`; en dashes are neither added nor removed. */
  function EmDashes(s: string, repl: string): (r: Outcome)
    requires EmDash !in repl && EnDash !in repl
    ensures r.n == CountIn(s, {EmDash})
    ensures forall k :: 0 <= k < |r.text| ==> r.text[k] != EmDash
    ensures CountIn(r.text, {EnDash}) == CountIn(s, {EnDash})
    ensures |r.text| == |s| + r.n * (|repl| - 1)
    ensures Outside(r.text, OneOf({EmDash} + set c | c in repl)) == Outside(s, OneOf({EmDash} + set c | c in repl))
  {
    var em := CountIn(s, {EmDash});
    if em > 0 then
      var t := ReplaceChars(s, {EmDash}, repl);
      ReplaceCharsOutside(s, {EmDash}, repl, {EmDash} + set c | c in repl);
      ReplaceCharsLength(s, {EmDash}, repl);
      assert |t| + em == |s| + em * |repl|;
      CountInReplaceOther(s, {EmDash}, repl, {EnDash});
      Outcome(t, em)
    else Outcome(s, 0)
  }

  /** Every en dash becomes `-`, one for one. */
  function EnDashes(s: string): (r: Outcome)
    ensures r.n == CountIn(s, {EnDash})
    ensures |r.text| == |s|
    ensures forall k {:trigger r.text[k]} :: 0 <= k < |s| ==> r.text[k] == (if s[k] == EnDash then '-' else s[k])
  {
    Outcome(ReplaceChars(s, {EnDash}, "-"), CountIn(s, {EnDash}))
  }

  /** The dashes and every character a dash may be replaced with. */
  const DashMarks: set<char> := {EmDash, EnDash, '-', ' ', ',', ':', '.'}

  /** Outside the dashes and the characters of the replacement, replacing
      em dashes and then en dashes keeps the text. */
  lemma DashesKeepText(s: string, repl: string)
    requires EmDash !in repl && EnDash !in repl
    requires forall k :: 0 <= k < |repl| ==> repl[k] in DashMarks
    ensures Outside(EnDashes(EmDashes(s, repl).text).text, OneOf(DashMarks)) == Outside(s, OneOf(DashMarks))
  {
    var e := EmDashes(s, repl);
    if e.n > 0 {
      assert e.text == ReplaceChars(s, {EmDash}, repl);
      ReplaceCharsOutside(s, {EmDash}, repl, DashMarks);
    } else {
      assert e.text == s;
    }
    assert EnDashes(e.text).text == ReplaceChars(e.text, {EnDash}, "-");
    ReplaceCharsOutside(e.text, {EnDash}, "-", DashMarks);
  }

  /** Every em dash becomes the text of the chosen strategy (`auto` defers to
      the suggestion), then every en dash becomes `-`. */
  function DashesRule(s: string, strategy: string): (r: DashOutcome)
    ensures r.em == CountIn(s, {EmDash}) && r.en == CountIn(s, {EnDash})
    ensures r.chosen == if strategy == "auto" then SuggestEmDash(s) else strategy
    ensures forall k :: 0 <= k < |r.text| ==> r.text[k] != EmDash && r.text[k] != EnDash
    ensures |r.text| == |s| + r.em * (|DashText(r.chosen)| - 1)
    ensures Outside(r.text, OneOf(DashMarks)) == Outside(s, OneOf(DashMarks))
  {
    var chosen := if strategy == "auto" then SuggestEmDash(s) else strategy;
    var e := EmDashes(s, DashText(chosen));
    var f := EnDashes(e.text);
    DashesKeepText(s, DashText(chosen));
    assert |f.text| == |e.text|;
    DashOutcome(f.text, e.n, chosen, f.n)
  }

  /** Replacing one class by text free of a second class does not change how
      many characters of the second class there are. */
  lemma {:induction false} CountInReplaceOther(s: string, cls: set<char>, repl: string, other: set<char>)
    requires cls !! other
    requires forall k :: 0 <= k < |repl| ==> repl[k] !in other
    ensures CountIn(ReplaceChars(s, cls, repl), other) == CountIn(s, other)
  {
    if s != [] {
      CountInReplaceOther(s[1..], cls, repl, other);
      var head := if s[0] in cls then repl else [s[0]];
      CountInAppend(head, ReplaceChars(s[1..], cls, repl), other);
      assert CountIn(head, other) == (if s[0] in other then 1 else 0) by {
        if s[0] in cls {
          assert CountIn(repl, other) == 0;
        } else {
          assert head[1..] == [];
        }
      }
    }
  }

  // ---------------------------------------------------------------- AI phrases

  const FormulaicPatterns: seq<Pattern> := [HeresA, WorthNoting, InConclusion]

  /** One pass of the formulaic loop: when the phrase occurs, remove every
      occurrence and collapse the whitespace runs of the whole text. */
  function PhrasePass(p: Pattern, s: string): (r: Outcome)
    ensures r.n == 0 ==> r.text == s
    ensures |r.text| <= |s|
  {
    var o := Replace(p, None, s);
    ReplaceNoLonger(p, None, s);
    ReplaceNoLonger(WsCollapse, None, o.text);
    if o.n > 0 then Outcome(Replace(WsCollapse, None, o.text).text, o.n) else Outcome(s, 0)
  }

  /** The formulaic loop over a prefix of its patterns. */
  function Phrases(ps: seq<Pattern>, s: string): (r: Outcome)
    ensures r.n == 0 ==> r.text == s
    ensures |r.text| <= |s|
    decreases |ps|
  {
    if ps == [] then Outcome(s, 0)
    else
      var o := Phrases(ps[..|ps| - 1], s);
      var q := PhrasePass(ps[|ps| - 1], o.text);
      Outcome(q.text, o.n + q.n)
  }

  /** The loop over one more pattern is one more pass. */
  lemma PhrasesStep(ps: seq<Pattern>, i: nat, s: string)
    requires i < |ps|
    ensures var o := Phrases(ps[..i], s);
      var q := PhrasePass(ps[i], o.text);
      Phrases(ps[..i + 1], s) == Outcome(q.text, o.n + q.n)
  {
    assert ps[..i + 1][..i] == ps[..i];
  }

  /** The text ends in a comma followed by nothing but whitespace. */
  predicate EndsInComma(s: string) {
    var t := TrimRight(s);
    t != [] && t[|t| - 1] == ','
  }

  /** The parenthetical rule: as written, only `,\s*` at the very end of the
      text matches, and it becomes `)`; its count is 0 or 1. */
  function ParentheticalRule(s: string): (r: Outcome)
    ensures r.n <= 1 && (r.n == 1 <==> EndsInComma(s))
    ensures EndsInComma(s) ==> r.text == CloseComma(s)
    ensures !EndsInComma(s) ==> r.text == s
  {
    var n := Replace(ParenEither, None, s).n;
    var t := Replace(ParenClose, None, Replace(ParenOpen, None, s).text).text;
    ParenEitherIsClose(None, s);
    ParenOpenNeverMatches(None, s);
    ParenCloseSpec(None, s);
    Outcome(t, n)
  }

  lemma {:induction false} ParenOpenNeverMatches(prev: Option<char>, s: string)
    ensures Replace(ParenOpen, prev, s) == Outcome(s, 0)
    decreases |s|
  {
    if s != [] {
      ParenOpenNeverMatches(Some(s[0]), s[1..]);
    }
  }

  lemma {:induction false} ParenEitherIsClose(prev: Option<char>, s: string)
    ensures Replace(ParenEither, prev, s) == Replace(ParenClose, prev, s)
    decreases |s|
  {
    if s != [] {
      assert Match(ParenEither, prev, s) == Match(ParenClose, prev, s) by {
        assert MatchParenOpen(s).None?;
      }
      if Match(ParenClose, prev, s).Some? {
        var h := Match(ParenClose, prev, s).value;
        ReplaceHit(ParenEither, prev, s);
        ReplaceHit(ParenClose, prev, s);
        ParenEitherIsClose(Some(s[h.len - 1]), s[h.len..]);
      } else {
        ReplaceKeep(ParenEither, prev, s);
        ReplaceKeep(ParenClose, prev, s);
        ParenEitherIsClose(Some(s[0]), s[1..]);
      }
    }
  }

  /** Trailing whitespace after a first character trims away. */
  lemma {:induction false} TrimRightWsTail(c: char, t: string)
    requires AllWs(t)
    ensures TrimRight([c] + t) == TrimRight([c])
    decreases |t|
  {
    if t != [] {
      var ct := [c] + t;
      assert ct[..|ct| - 1] == [c] + t[..|t| - 1];
      TrimRightWsTail(c, t[..|t| - 1]);
    } else {
      assert [c] + t == [c];
    }
  }

  /** What the closing-comma rule leaves: the trimmed text with its final
      comma replaced by `)`. */
  function CloseComma(s: string): string
    requires EndsInComma(s)
  {
    TrimRight(s)[..|TrimRight(s)| - 1] + ")"
  }

  /** `,\s*$$` matches exactly once, at the comma that ends the trimmed text. */
  lemma {:induction false} ParenCloseSpec(prev: Option<char>, s: string)
    ensures Replace(ParenClose, prev, s) == if EndsInComma(s) then Outcome(CloseComma(s), 1) else Outcome(s, 0)
    decreases |s|
  {
    if s == [] {
      return;
    }
    assert s == [s[0]] + s[1..];
    if Match(ParenClose, prev, s).Some? {
      ParenCloseAtEnd(prev, s);
    } else if AllWs(s[1..]) {
      ParenCloseSpec(Some(s[0]), s[1..]);
      ParenCloseWsTail(prev, s);
    } else {
      ParenCloseSpec(Some(s[0]), s[1..]);
      ParenCloseInside(prev, s);
    }
  }

  lemma ParenCloseAtEnd(prev: Option<char>, s: string)
    requires s != [] && Match(ParenClose, prev, s).Some?
    ensures Replace(ParenClose, prev, s) == Outcome(")", 1)
    ensures EndsInComma(s) && CloseComma(s) == ")"
  {
    assert s[0] == ',' && 1 + Span(s, 1, Ws) == |s|;
    assert AllWs(s[1..]);
    assert s == [','] + s[1..];
    TrimRightWsTail(',', s[1..]);
    assert TrimRight([',']) == [','];
  }

  lemma ParenCloseWsTail(prev: Option<char>, s: string)
    requires s != [] && Match(ParenClose, prev, s).None? && AllWs(s[1..])
    requires Replace(ParenClose, Some(s[0]), s[1..]) ==
               if EndsInComma(s[1..]) then Outcome(CloseComma(s[1..]), 1) else Outcome(s[1..], 0)
    ensures Replace(ParenClose, prev, s) == Outcome(s, 0) && !EndsInComma(s)
  {
    ReplaceKeep(ParenClose, prev, s);
    assert !EndsInComma(s[1..]) by {
      assert TrimRight(s[1..]) == [];
    }
    assert s == [s[0]] + s[1..];
    TrimRightWsTail(s[0], s[1..]);
    if s[0] == ',' {
      forall k | 1 <= k < |s| ensures In(s[k], Ws) {
        assert s[1..][k - 1] == s[k];
      }
      SpanExact(s, 1, |s|, Ws);
      MatchParenCloseIs(prev, s);
      assert false;
    }
    assert TrimRight([s[0]]) == [] || TrimRight([s[0]]) == [s[0]];
  }

  lemma ParenCloseInside(prev: Option<char>, s: string)
    requires s != [] && Match(ParenClose, prev, s).None? && !AllWs(s[1..])
    requires Replace(ParenClose, Some(s[0]), s[1..]) ==
               if EndsInComma(s[1..]) then Outcome(CloseComma(s[1..]), 1) else Outcome(s[1..], 0)
    ensures Replace(ParenClose, prev, s) == if EndsInComma(s) then Outcome(CloseComma(s), 1) else Outcome(s, 0)
  {
    ReplaceKeep(ParenClose, prev, s);
    TrimRightStep(s);
  }

  /** Trimming on the right, seen from the first character. */
  lemma TrimRightStep(s: string)
    requires s != [] && !AllWs(s[1..])
    ensures EndsInComma(s) == EndsInComma(s[1..])
    ensures EndsInComma(s) ==> CloseComma(s) == [s[0]] + CloseComma(s[1..])
  {
    assert s == [s[0]] + s[1..];
    TrimRightCons(s[0], s[1..]);
    var t := TrimRight(s[1..]);
    assert TrimRight(s) == [s[0]] + t;
    if EndsInComma(s) {
      assert TrimRight(s)[..|TrimRight(s)| - 1] == [s[0]] + t[..|t| - 1];
    }
  }

  // ---------------------------------------------------------------- structure

  /** No run of three line feeds. */
  predicate NoTripleBreak(x: string) {
    forall i :: 0 <= i < |x| - 2 ==> !(x[i] == '\n' && x[i + 1] == '\n' && x[i + 2] == '\n')
  }

  /** No two consecutive spaces. */
  predicate NoDoubleSpace(x: string) {
    forall i :: 0 <= i < |x| - 1 ==> !(x[i] == ' ' && x[i + 1] == ' ')
  }

  predicate IsBlank(c: char) {
    c == ' ' || c == '\t'
  }

  /** No line ends in a space or a tab: every blank is followed by a
      character that is not a line end. */
  predicate NoTrailingBlank(x: string) {
    forall i :: 0 <= i < |x| && IsBlank(x[i]) ==> i + 1 < |x| && !IsLineEnd(x[i + 1])
  }

  /** What `\n{3,}` -> `\n\n` guarantees of its output `r` for input `s`:
      no run of three line feeds, a leading line feed only where `s` had one,
      and two leading line feeds only where `s` had two. */
  predicate BreakInv(s: string, r: string) {
    NoTripleBreak(r) &&
    (r != [] && r[0] == '\n' ==> s != [] && s[0] == '\n') &&
    (!(|s| >= 2 && s[0] == '\n' && s[1] == '\n') ==> !(|r| >= 2 && r[0] == '\n' && r[1] == '\n'))
  }

  /** `\n{3,}` -> `\n\n` leaves no run of three line feeds. */
  lemma {:induction false} BreakRunClears(prev: Option<char>, s: string)
    ensures BreakInv(s, Replace(BreakRun, prev, s).text)
    decreases |s|
  {
    if s == [] {
      return;
    }
    var w := Span(s, 0, Exactly('\n'));
    if w >= 3 {
      assert Match(BreakRun, prev, s) == Some(Hit(w, "\n\n"));
      ReplaceHit(BreakRun, prev, s);
      var r' := Replace(BreakRun, Some(s[w - 1]), s[w..]).text;
      BreakRunClears(Some(s[w - 1]), s[w..]);
      assert s[0] == '\n' && s[1] == '\n';
      BreakHitStep(s, w, r');
    } else {
      ReplaceKeep(BreakRun, prev, s);
      BreakRunClears(Some(s[0]), s[1..]);
      assert s[0] == '\n' ==> w < 3;
      BreakKeepStep(s, Replace(BreakRun, Some(s[0]), s[1..]).text);
    }
  }

  lemma BreakHitStep(s: string, w: nat, r': string)
    requires 3 <= w <= |s| && s[0] == '\n' && s[1] == '\n' && (w < |s| ==> s[w] != '\n')
    requires BreakInv(s[w..], r')
    ensures BreakInv(s, "\n\n" + r')
  {
    var r := "\n\n" + r';
    assert r' != [] ==> r'[0] != '\n';
    assert forall i :: 2 <= i < |r| ==> r[i] == r'[i - 2];
  }

  lemma BreakKeepStep(s: string, r': string)
    requires s != [] && (s[0] == '\n' ==> !(|s| >= 3 && s[1] == '\n' && s[2] == '\n'))
    requires BreakInv(s[1..], r')
    ensures BreakInv(s, [s[0]] + r')
  {
    var r := [s[0]] + r';
    assert forall i :: 1 <= i < |r| ==> r[i] == r'[i - 1];
  }

  /** What ` {2,}` -> ` ` guarantees: no double space, and a leading space
      only where the input had one. */
  predicate SpaceInv(s: string, r: string) {
    NoDoubleSpace(r) && (r != [] && r[0] == ' ' ==> s != [] && s[0] == ' ')
  }

  /** ` {2,}` -> ` ` leaves no two consecutive spaces. */
  lemma {:induction false} SpaceRunClears(prev: Option<char>, s: string)
    ensures SpaceInv(s, Replace(SpaceRun, prev, s).text)
    decreases |s|
  {
    if s == [] {
      return;
    }
    var w := Span(s, 0, Exactly(' '));
    if w >= 2 {
      assert Match(SpaceRun, prev, s) == Some(Hit(w, " "));
      ReplaceHit(SpaceRun, prev, s);
      var r' := Replace(SpaceRun, Some(s[w - 1]), s[w..]).text;
      SpaceRunClears(Some(s[w - 1]), s[w..]);
      SpaceHitStep(s, w, r');
    } else {
      assert Match(SpaceRun, prev, s).None?;
      ReplaceKeep(SpaceRun, prev, s);
      var r' := Replace(SpaceRun, Some(s[0]), s[1..]).text;
      SpaceRunClears(Some(s[0]), s[1..]);
      SpaceKeepStep(s, r');
    }
  }

  lemma SpaceHitStep(s: string, w: nat, r': string)
    requires 1 <= w <= |s| && s[0] == ' ' && (w < |s| ==> s[w] != ' ')
    requires SpaceInv(s[w..], r')
    ensures SpaceInv(s, " " + r')
  {
    var r := " " + r';
    assert r' != [] ==> r'[0] != ' ';
    assert forall i :: 1 <= i < |r| ==> r[i] == r'[i - 1];
  }

  lemma SpaceKeepStep(s: string, r': string)
    requires s != [] && (s[0] == ' ' ==> !(|s| >= 2 && s[1] == ' '))
    requires SpaceInv(s[1..], r')
    ensures SpaceInv(s, [s[0]] + r')
  {
    var r := [s[0]] + r';
    assert forall i :: 1 <= i < |r| ==> r[i] == r'[i - 1];
  }

  /** What `[ \t]+$` -> `` guarantees: no blank ends a line, no new double
      space, and the output begins with the input's first character or a line end. */
  predicate TrailInv(s: string, r: string) {
    NoTrailingBlank(r) &&
    (NoDoubleSpace(s) ==> NoDoubleSpace(r)) &&
    (r != [] ==> s != [] && (r[0] == s[0] || IsLineEnd(r[0])))
  }

  /** `[ \t]+$` -> `` leaves no blank at the end of a line, and creates no
      double space. */
  lemma {:induction false} TrailingBlankClears(prev: Option<char>, s: string)
    ensures TrailInv(s, Replace(TrailingBlank, prev, s).text)
    decreases |s|
  {
    if s == [] {
      return;
    }
    var b := Span(s, 0, OneOf({' ', '\t'}));
    if b >= 1 && (b == |s| || IsLineEnd(s[b])) {
      MatchTrailingBlankIs(prev, s);
      assert Match(TrailingBlank, prev, s) == Some(Hit(b, ""));
      ReplaceHit(TrailingBlank, prev, s);
      var r' := Replace(TrailingBlank, Some(s[b - 1]), s[b..]).text;
      assert Replace(TrailingBlank, prev, s).text == "" + r' == r';
      TrailingBlankClears(Some(s[b - 1]), s[b..]);
      TrailHitStep(s, b, r');
    } else {
      MatchTrailingBlankIs(prev, s);
      assert Match(TrailingBlank, prev, s).None?;
      ReplaceKeep(TrailingBlank, prev, s);
      var s' := s[1..];
      TrailingBlankClears(Some(s[0]), s');
      var r' := Replace(TrailingBlank, Some(s[0]), s').text;
      assert Replace(TrailingBlank, prev, s).text == [s[0]] + r';
      if IsBlank(s[0]) {
        TrailNextKept(s);
      }
      TrailKeepStep(s, r');
    }
  }

  /** Inside a run of blanks that does not end its line, nothing matches one
      position on either, so the next output character is the next input one. */
  lemma TrailNextKept(s: string)
    requires s != [] && IsBlank(s[0])
    requires var b := Span(s, 0, OneOf({' ', '\t'})); b < |s| && !IsLineEnd(s[b])
    ensures |s| > 1 && !IsLineEnd(s[1])
    ensures var r' := Replace(TrailingBlank, Some(s[0]), s[1..]).text; r' != [] && r'[0] == s[1]
  {
    var b := Span(s, 0, OneOf({' ', '\t'}));
    var s' := s[1..];
    assert 1 <= b;
    SpanExact(s', 0, b - 1, OneOf({' ', '\t'}));
    assert b > 1 ==> IsBlank(s[1]);
    MatchTrailingBlankIs(Some(s[0]), s');
    assert Match(TrailingBlank, Some(s[0]), s').None?;
    ReplaceKeep(TrailingBlank, Some(s[0]), s');
  }

  lemma TrailHitStep(s: string, w: nat, r': string)
    requires 1 <= w <= |s| && (w < |s| ==> IsLineEnd(s[w]))
    requires TrailInv(s[w..], r')
    ensures TrailInv(s, r')
  {
    if NoDoubleSpace(s) {
      forall i | 0 <= i < |s[w..]| - 1
        ensures !(s[w..][i] == ' ' && s[w..][i + 1] == ' ')
      {
        assert s[w..][i] == s[w + i] && s[w..][i + 1] == s[w + i + 1];
      }
    }
    assert r' != [] ==> IsLineEnd(r'[0]) by {
      if r' != [] {
        assert s[w..][0] == s[w];
      }
    }
  }

  lemma TrailKeepStep(s: string, r': string)
    requires s != []
    requires IsBlank(s[0]) ==> |s| > 1 && r' != [] && r'[0] == s[1] && !IsLineEnd(s[1])
    requires TrailInv(s[1..], r')
    ensures TrailInv(s, [s[0]] + r')
  {
    var r := [s[0]] + r';
    assert forall i :: 1 <= i < |r| ==> r[i] == r'[i - 1];
    if NoDoubleSpace(s) {
      forall i | 0 <= i < |s[1..]| - 1
        ensures !(s[1..][i] == ' ' && s[1..][i + 1] == ' ')
      {
        assert s[1..][i] == s[i + 1] && s[1..][i + 1] == s[i + 2];
      }
      if s[0] == ' ' && r' != [] {
        assert s[1..][0] == s[1];
      }
    }
  }

  /** The spacing rule: ` {2,}` -> ` `, then `[ \t]+$` -> ``. Afterwards no
      two spaces are adjacent and no line ends in a blank. */
  function SpacingRule(s: string): (r: Outcome)
    ensures NoDoubleSpace(r.text) && NoTrailingBlank(r.text)
    ensures r.n == 0 ==> r.text == s
    ensures Outside(r.text, OneOf({' ', '\t'})) == Outside(s, OneOf({' ', '\t'}))
  {
    var a := Replace(SpaceRun, None, s);
    var b := Replace(TrailingBlank, None, a.text);
    SpaceRunClears(None, s);
    TrailingBlankClears(None, a.text);
    SpacingKeepsText(s);
    Outcome(b.text, a.n + b.n)
  }

  /** Outside spaces and tabs, the two spacing passes keep the text. */
  lemma SpacingKeepsText(s: string)
    ensures var a := Replace(SpaceRun, None, s);
      Outside(Replace(TrailingBlank, None, a.text).text, OneOf({' ', '\t'})) == Outside(s, OneOf({' ', '\t'}))
  {
    var a := Replace(SpaceRun, None, s);
    SpaceRunKeepsText(s);
    ReplaceKeepsRuns(TrailingBlank, None, a.text);
  }

  lemma SpaceRunKeepsText(s: string)
    ensures Outside(Replace(SpaceRun, None, s).text, OneOf({' ', '\t'})) == Outside(s, OneOf({' ', '\t'}))
  {
    var spaces := OneOf({' '});
    var a := Replace(SpaceRun, None, s);
    ReplaceKeepsRuns(SpaceRun, None, s);
    OutsideWithin(s, spaces, OneOf({' ', '\t'}));
    OutsideWithin(a.text, spaces, OneOf({' ', '\t'}));
  }

  /** The spacing rule is its two replacements one after the other. */
  lemma SpacingRuleSteps(s: string)
    ensures var a := Replace(SpaceRun, None, s);
      var b := Replace(TrailingBlank, None, a.text);
      SpacingRule(s) == Outcome(b.text, a.n + b.n)
  { }

  /** The breaks rule: `\n{3,}` -> `\n\n`. */
  function BreaksRule(s: string): (r: Outcome)
    ensures NoTripleBreak(r.text)
    ensures r.n == 0 ==> r.text == s
    ensures |r.text| + r.n <= |s|
    ensures Outside(r.text, OneOf({'\n'})) == Outside(s, OneOf({'\n'}))
  {
    BreakRunClears(None, s);
    ReplaceKeepsRuns(BreakRun, None, s);
    Replace(BreakRun, None, s)
  }

  // ---------------------------------------------------------------- the pipeline

  /** What rule `k` (any rule but the dashes rule, which reports twice) does
      to `s`: its new text and its count. A rule that counts nothing changes
      nothing, so a change never goes unreported. */
  function Effect(k: Rule, s: string): (r: Outcome)
    requires k != Dashes
    ensures r.n == 0 ==> r.text == s
  {
    match k
    case Bold => Replace(BoldPair, None, s)
    case Italic => Replace(ItalicPair, None, s)
    case Headers => Replace(HeaderMark, None, s)
    case Lists =>
      // both counts are taken before either replacement
      var n1 := Replace(BulletMark, None, s).n;
      var n2 := Replace(NumberMark, None, s).n;
      var t := Replace(NumberMark, None, Replace(BulletMark, None, s).text).text;
      Outcome(t, n1 + n2)
    case Links => Replace(MarkdownLink, None, s)
    case Code =>
      // fences are counted after inline code has been replaced
      var o1 := Replace(InlineCode, None, s);
      var o2 := Replace(CodeFence, None, o1.text);
      Outcome(o2.text, o1.n + o2.n)
    case Blockquotes => Replace(QuoteMark, None, s)
    case Tables => Replace(TableRow, None, s)
    case SmartQuotes => SmartQuotesRule(s)
    case Ellipsis => EllipsisRule(s)
    case Bullets => BulletsRule(s)
    case Formulaic => Phrases(FormulaicPatterns, s)
    case Transitions => Replace(Transition, None, s)
    case Hedging => Replace(Hedge, None, s)
    case Parenthetical => ParentheticalRule(s)
    case Separators => Replace(Separator, None, s)
    case Breaks => BreaksRule(s)
    case _ => SpacingRule(s) // Spacing: the dashes rule is excluded
  }

  /** The words before and after rule `k`'s count in its message: a space or
      a parenthesis always sets the count apart from them. */
  function Wording(k: Rule): (r: (string, string))
    requires k != Dashes
    ensures |r.0| > 0 && r.0[|r.0| - 1] in {' ', '('}
    ensures |r.1| > 0 && r.1[0] in {' ', ')'}
  {
    match k
    case Bold => ("Removed ", " bold segments")
    case Italic => ("Removed ", " italic segments")
    case Headers => ("Removed ", " markdown headers")
    case Lists => ("Removed ", " list markers")
    case Links => ("Stripped ", " markdown links")
    case Code => ("Normalized code formatting (", ")")
    case Blockquotes => ("Removed ", " blockquote symbols")
    case Tables => ("Simplified ", " table lines")
    case SmartQuotes => ("Normalized ", " smart quotes")
    case Ellipsis => ("Normalized ", " ellipses")
    case Bullets => ("Replaced ", " bullet characters")
    case Formulaic => ("Trimmed ", " formulaic phrases")
    case Transitions => ("Removed ", " transition phrases")
    case Hedging => ("Reduced ", " hedging patterns")
    case Parenthetical => ("Normalized ", " parenthetical artifacts")
    case Separators => ("Removed ", " separators")
    case Breaks => ("Normalized ", " excessive line breaks")
    case _ => ("Fixed spacing (", " instances)") // Spacing
  }

  // The passes of the markdown and separator rules (what `Effect` runs for
  // them) only strike out their own markers: the text outside a pass's
  // marker characters is the same before and after.

  /** The bold pass: `**...**` pairs lose exactly their four asterisks each. */
  lemma BoldKeepsText(s: string)
    ensures Outside(Replace(BoldPair, None, s).text, OneOf({'*'})) == Outside(s, OneOf({'*'}))
    ensures CountIn(Replace(BoldPair, None, s).text, {'*'}) + 4 * Replace(BoldPair, None, s).n == CountIn(s, {'*'})
  {
    var r := Replace(BoldPair, None, s);
    OutsideCount(r.text, {'*'});
    OutsideCount(s, {'*'});
  }

  /** The italic pass: single-`*` pairs lose exactly their two asterisks each. */
  lemma ItalicKeepsText(s: string)
    ensures Outside(Replace(ItalicPair, None, s).text, OneOf({'*'})) == Outside(s, OneOf({'*'}))
    ensures CountIn(Replace(ItalicPair, None, s).text, {'*'}) + 2 * Replace(ItalicPair, None, s).n == CountIn(s, {'*'})
  {
    var r := Replace(ItalicPair, None, s);
    OutsideCount(r.text, {'*'});
    OutsideCount(s, {'*'});
  }

  /** The two code passes: inline code loses two backticks per count, fences
      six, and nothing else changes. */
  lemma CodeKeepsText(s: string)
    ensures var o1 := Replace(InlineCode, None, s);
            var o2 := Replace(CodeFence, None, o1.text);
            Outside(o2.text, OneOf({'`'})) == Outside(s, OneOf({'`'})) &&
            CountIn(o2.text, {'`'}) + 2 * o1.n + 6 * o2.n == CountIn(s, {'`'})
  {
    var c := OneOf({'`'});
    var o1 := Replace(InlineCode, None, s);
    var o2 := Replace(CodeFence, None, o1.text);
    assert Marks(InlineCode) == Some(c) && Exact(InlineCode) && Shrink(InlineCode) == 2;
    assert Marks(CodeFence) == Some(c) && Exact(CodeFence) && Shrink(CodeFence) == 6;
    OutsideCount(s, {'`'});
    OutsideCount(o1.text, {'`'});
    OutsideCount(o2.text, {'`'});
  }

  /** The header pass loses only `#` and white space, at least two
      characters per count. */
  lemma HeadersKeepText(s: string)
    ensures Outside(Replace(HeaderMark, None, s).text, WsOr({'#'})) == Outside(s, WsOr({'#'}))
    ensures |Replace(HeaderMark, None, s).text| + 2 * Replace(HeaderMark, None, s).n <= |s|
  {
    var r := Replace(HeaderMark, None, s);
    assert Marks(HeaderMark) == Some(WsOr({'#'})) && Shrink(HeaderMark) == 2;
    assert Outside(r.text, WsOr({'#'})) == Outside(s, WsOr({'#'}));
    assert |r.text| + 2 * r.n <= |s|;
  }

  /** The bullet and number passes lose only white space, bullets, digits
      and dots. */
  lemma ListsKeepText(s: string)
    ensures Outside(Replace(NumberMark, None, Replace(BulletMark, None, s).text).text, WsOr({'-', '*', '+'} + DigitsAndDot)) ==
            Outside(s, WsOr({'-', '*', '+'} + DigitsAndDot))
  {
    var u := WsOr({'-', '*', '+'} + DigitsAndDot);
    var t1 := Replace(BulletMark, None, s).text;
    var t2 := Replace(NumberMark, None, t1).text;
    var a, b := WsOr({'-', '*', '+'}), WsOr(DigitsAndDot);
    assert Marks(BulletMark) == Some(a);
    assert Outside(t1, a) == Outside(s, a);
    assert Marks(NumberMark) == Some(b);
    assert Outside(t2, b) == Outside(t1, b);
    WsOrWithin({'-', '*', '+'}, {'-', '*', '+'} + DigitsAndDot);
    WsOrWithin(DigitsAndDot, {'-', '*', '+'} + DigitsAndDot);
    OutsideWithin(t2, b, u);
    OutsideWithin(t1, b, u);
    OutsideWithin(t1, a, u);
    OutsideWithin(s, a, u);
  }

  /** The blockquote pass loses only `>` and white space. */
  lemma QuotesKeepText(s: string)
    ensures Outside(Replace(QuoteMark, None, s).text, WsOr({'>'})) == Outside(s, WsOr({'>'}))
  {
    assert Marks(QuoteMark) == Some(WsOr({'>'}));
  }

  /** The table pass loses only pipes, spaces and hyphens. */
  lemma TablesKeepText(s: string)
    ensures Outside(Replace(TableRow, None, s).text, OneOf({'|', ' ', '-'})) == Outside(s, OneOf({'|', ' ', '-'}))
  {
    assert Marks(TableRow) == Some(OneOf({'|', ' ', '-'}));
  }

  /** The separator pass loses only `-`, `_`, `*` and white space, at least
      three characters per count. */
  lemma SeparatorsKeepText(s: string)
    ensures Outside(Replace(Separator, None, s).text, WsOr({'-', '_', '*'})) == Outside(s, WsOr({'-', '_', '*'}))
    ensures |Replace(Separator, None, s).text| + 3 * Replace(Separator, None, s).n <= |s|
  {
    var r := Replace(Separator, None, s);
    assert Marks(Separator) == Some(WsOr({'-', '_', '*'})) && Shrink(Separator) == 3;
    assert Outside(r.text, WsOr({'-', '_', '*'})) == Outside(s, WsOr({'-', '_', '*'}));
    assert |r.text| + 3 * r.n <= |s|;
  }

  /** A counted rule's new text, with one report carrying its count when the
      count is positive. */
  function Counted(k: Rule, o: Outcome): (r: Step)
    requires k != Dashes
    ensures r.text == o.text && |r.reports| <= 1
    ensures forall i :: 0 <= i < |r.reports| ==> r.reports[i].rule == k && r.reports[i].count == o.n > 0
  {
    Step(o.text, Note(k, o.n, Label(Wording(k).0, o.n, Wording(k).1)))
  }

  /** The message a counted rule adds: one when its count is positive. */
  lemma CountedMessages(k: Rule, o: Outcome)
    requires k != Dashes
    ensures Messages(Counted(k, o).reports) == if o.n > 0 then [Label(Wording(k).0, o.n, Wording(k).1)] else []
  {
  }

  /** The rule's own effect on the text and the reports it pushes: every rule
      reports only itself, with a positive count, at most once; the dashes
      rule at most twice. */
  function Stage(k: Rule, s: string, strategy: string): (r: Step)
    ensures forall i :: 0 <= i < |r.reports| ==> r.reports[i].rule == k && r.reports[i].count > 0
    ensures |r.reports| <= if k == Dashes then 2 else 1
  {
    if k == Dashes then
      var d := DashesRule(s, strategy);
      Step(d.text, DashNotes(d))
    else
      Counted(k, Effect(k, s))
  }

  /** Running a counted rule `k` after `st` replaces the text by the rule's
      when its flag is set, and adds its message when its count is positive. */
  lemma ThenCounted(st: Step, k: Rule, cfg: Config)
    requires k != Dashes
    ensures var o := Effect(k, st.text);
      Then(st, k, cfg).text == (if Enabled(cfg, k) then o.text else st.text) &&
      Messages(Then(st, k, cfg).reports) ==
        Messages(st.reports) + if Enabled(cfg, k) && o.n > 0 then [Label(Wording(k).0, o.n, Wording(k).1)] else []
  {
    MessagesAppend(st.reports, Counted(k, Effect(k, st.text)).reports);
    CountedMessages(k, Effect(k, st.text));
  }

  /** Runs rule `k` after `st` when its flag is set: a rule that is off
      changes neither the text nor the reports. */
  function Then(st: Step, k: Rule, cfg: Config): (r: Step)
    ensures !Enabled(cfg, k) ==> r == st
  {
    if Enabled(cfg, k) then
      var t := Stage(k, st.text, cfg.emDashStrategy);
      Step(t.text, st.reports + t.reports)
    else st
  }

  /** The rules `ks` run in order after `st`: the reports already made are
      kept, and every new one comes from a rule of `ks` whose flag is set,
      with a positive count. */
  function Run(ks: seq<Rule>, st: Step, cfg: Config): (r: Step)
    ensures |st.reports| <= |r.reports| && r.reports[..|st.reports|] == st.reports
    ensures forall i :: |st.reports| <= i < |r.reports| ==>
              r.reports[i].rule in ks && Enabled(cfg, r.reports[i].rule) && r.reports[i].count > 0
    decreases |ks|
  {
    if ks == [] then st
    else
      var init, k := ks[..|ks| - 1], ks[|ks| - 1];
      var mid := Run(init, st, cfg);
      var r := Then(mid, k, cfg);
      assert r.reports[..|st.reports|] == r.reports[..|mid.reports|][..|st.reports|];
      assert forall i :: |st.reports| <= i < |mid.reports| ==> r.reports[i] == mid.reports[i];
      assert forall x :: x in init ==> x in ks;
      r
  }

  lemma RunSnoc(ks: seq<Rule>, k: Rule, st: Step, cfg: Config)
    ensures Run(ks + [k], st, cfg) == Then(Run(ks, st, cfg), k, cfg)
  {
    assert (ks + [k])[..|ks|] == ks;
  }

  /** With every flag off, no rule changes the text or reports anything. */
  lemma {:induction false} RunAllOff(ks: seq<Rule>, st: Step, cfg: Config)
    requires forall k :: !Enabled(cfg, k)
    ensures Run(ks, st, cfg) == st
    decreases |ks|
  {
    if ks != [] {
      RunAllOff(ks[..|ks| - 1], st, cfg);
    }
  }

  /** Reports come only from enabled rules among `ks` and have non-zero
      counts; they appear in execution order, one per rule except that the
      dashes rule can push two in a row. */
  predicate ReportsInOrder(rs: seq<Report>, ks: seq<Rule>, cfg: Config) {
    (forall i :: 0 <= i < |rs| ==> rs[i].count > 0 && Enabled(cfg, rs[i].rule) && rs[i].rule in ks) &&
    (forall i, j :: 0 <= i < j < |rs| ==> Rank(rs[i].rule) <= Rank(rs[j].rule)) &&
    (forall i, j :: 0 <= i < j < |rs| && rs[i].rule == rs[j].rule ==> rs[i].rule == Dashes && j == i + 1)
  }

  /** Increasing in `Order`. */
  predicate Ascending(ks: seq<Rule>) {
    forall i, j :: 0 <= i < j < |ks| ==> Rank(ks[i]) < Rank(ks[j])
  }

  lemma {:induction false} RunReports(ks: seq<Rule>, src: string, cfg: Config)
    requires Ascending(ks)
    ensures ReportsInOrder(Run(ks, Step(src, []), cfg).reports, ks, cfg)
    decreases |ks|
  {
    if ks != [] {
      var init := ks[..|ks| - 1];
      var k := ks[|ks| - 1];
      assert ks == init + [k];
      RunReports(init, src, cfg);
      var st := Run(init, Step(src, []), cfg);
      if Enabled(cfg, k) {
        var t := Stage(k, st.text, cfg.emDashStrategy);
        assert Run(ks, Step(src, []), cfg).reports == st.reports + t.reports;
        ReportsAppend(st.reports, t.reports, init, k, cfg);
      } else {
        assert Run(ks, Step(src, []), cfg) == st;
        ReportsWiden(st.reports, init, k, cfg);
      }
    }
  }

  lemma ReportsWiden(rs: seq<Report>, init: seq<Rule>, k: Rule, cfg: Config)
    requires ReportsInOrder(rs, init, cfg)
    ensures ReportsInOrder(rs, init + [k], cfg)
  {
    forall i | 0 <= i < |rs|
      ensures rs[i].rule in init + [k]
    {
      var p :| 0 <= p < |init| && init[p] == rs[i].rule;
      assert (init + [k])[p] == init[p];
    }
  }

  /** The reports of one more rule, later than every rule before it. */
  lemma ReportsAppend(rs: seq<Report>, more: seq<Report>, init: seq<Rule>, k: Rule, cfg: Config)
    requires Ascending(init + [k]) && Enabled(cfg, k)
    requires ReportsInOrder(rs, init, cfg)
    requires forall i :: 0 <= i < |more| ==> more[i].rule == k && more[i].count > 0
    requires |more| <= if k == Dashes then 2 else 1
    ensures ReportsInOrder(rs + more, init + [k], cfg)
  {
    var ks := init + [k];
    assert forall i :: 0 <= i < |rs| ==> Rank(rs[i].rule) < Rank(k) by {
      forall i | 0 <= i < |rs|
        ensures Rank(rs[i].rule) < Rank(k)
      {
        var p :| 0 <= p < |init| && init[p] == rs[i].rule;
        assert ks[p] == init[p] && ks[|init|] == k;
      }
    }
    ReportsWiden(rs, init, k, cfg);
    assert k in ks by {
      assert ks[|init|] == k;
    }
    var x := rs + more;
    forall i | 0 <= i < |x|
      ensures x[i].count > 0 && Enabled(cfg, x[i].rule) && x[i].rule in ks
    {
      if i >= |rs| {
        assert x[i] == more[i - |rs|];
      }
    }
    forall i, j | 0 <= i < j < |x|
      ensures Rank(x[i].rule) <= Rank(x[j].rule)
      ensures x[i].rule == x[j].rule ==> x[i].rule == Dashes && j == i + 1
    {
      if j < |rs| {
        assert x[i] == rs[i] && x[j] == rs[j];
      } else if i < |rs| {
        assert x[i] == rs[i] && x[j] == more[j - |rs|];
      } else {
        assert x[i] == more[i - |rs|] && x[j] == more[j - |rs|];
      }
    }
  }

  lemma OrderIncreasing()
    ensures Ascending(Order)
  {
    forall i | 0 <= i < |Order|
      ensures Rank(Order[i]) == i
    {
    }
  }

  // ---------------------------------------------------------------- cleanText

  const MarkdownRules: seq<Rule> := [Bold, Italic, Headers, Lists, Links, Code, Blockquotes, Tables]
  const TypographyRules: seq<Rule> := [SmartQuotes, Ellipsis, Bullets, Dashes]
  const PhraseRules: seq<Rule> := [Formulaic, Transitions, Hedging, Parenthetical]
  const StructureRules: seq<Rule> := [Separators, Breaks, Spacing]

  /** One more rule of a list: the prefix up to and including `ks[i]`. */
  lemma RunPrefix(ks: seq<Rule>, i: nat, st: Step, cfg: Config)
    requires i < |ks|
    ensures Run(ks[..i + 1], st, cfg) == Then(Run(ks[..i], st, cfg), ks[i], cfg)
  {
    assert ks[..i + 1][..i] == ks[..i];
  }

  /** Three rules run one after the other. */
  lemma RunThree(ks: seq<Rule>, st: Step, cfg: Config)
    requires |ks| == 3
    ensures Run(ks, st, cfg) == Then(Then(Then(st, ks[0], cfg), ks[1], cfg), ks[2], cfg)
  {
    assert ks[..0] == [];
    RunPrefix(ks, 0, st, cfg);
    RunPrefix(ks, 1, st, cfg);
    RunPrefix(ks, 2, st, cfg);
    assert ks[..3] == ks;
  }

  /** Four rules run one after the other. */
  lemma RunFour(ks: seq<Rule>, st: Step, cfg: Config)
    requires |ks| == 4
    ensures Run(ks, st, cfg) == Then(Then(Then(Then(st, ks[0], cfg), ks[1], cfg), ks[2], cfg), ks[3], cfg)
  {
    assert ks[..0] == [];
    RunPrefix(ks, 0, st, cfg);
    RunPrefix(ks, 1, st, cfg);
    RunPrefix(ks, 2, st, cfg);
    RunPrefix(ks, 3, st, cfg);
    assert ks[..4] == ks;
  }

  /** Running two lists of rules one after the other. */
  lemma {:induction false} RunAppend(a: seq<Rule>, b: seq<Rule>, st: Step, cfg: Config)
    ensures Run(a + b, st, cfg) == Run(b, Run(a, st, cfg), cfg)
    decreases |b|
  {
    if b == [] {
      assert a + b == a;
    } else {
      var b' := b[..|b| - 1];
      assert (a + b)[..|a + b| - 1] == a + b';
      assert (a + b)[|a + b| - 1] == b[|b| - 1];
      RunAppend(a, b', st, cfg);
    }
  }

  /** The rules in `Order` are the four groups, one after the other. */
  lemma OrderInGroups(st: Step, cfg: Config)
    ensures Run(Order, st, cfg) ==
      Run(StructureRules, Run(PhraseRules, Run(TypographyRules, Run(MarkdownRules, st, cfg), cfg), cfg), cfg)
  {
    RunAppend(MarkdownRules, TypographyRules, st, cfg);
    RunAppend(MarkdownRules + TypographyRules, PhraseRules, st, cfg);
    RunAppend(MarkdownRules + TypographyRules + PhraseRules, StructureRules, st, cfg);
    OrderIsGroups();
  }

  /** `Order` is the four groups put together. */
  lemma OrderIsGroups()
    ensures MarkdownRules + TypographyRules + PhraseRules + StructureRules == Order
  {
  }

  /** The `if (opts.bold)` block: `**...**` pairs lose their markers. */
  method BoldStep(cfg: Config, text0: string, changes0: seq<string>, ghost st: Step) returns (text: string, changes: seq<string>)
    requires text0 == st.text && changes0 == Messages(st.reports)
    ensures text == Then(st, Bold, cfg).text
    ensures changes == Messages(Then(st, Bold, cfg).reports)
  {
    text := text0;
    changes := changes0;
    ghost var out := Effect(Bold, text0);
    ThenCounted(st, Bold, cfg);
    assert out == Replace(BoldPair, None, text0) && Wording(Bold) == ("Removed ", " bold segments");
    if Enabled(cfg, Bold) {
      var o := Replace(BoldPair, None, text);
      text := o.text;
      if o.n > 0 { changes := changes + [Label("Removed ", o.n, " bold segments")]; }
    }
  }

  /** The `if (opts.italic)` block: single-`*` pairs lose their markers. */
  method ItalicStep(cfg: Config, text0: string, changes0: seq<string>, ghost st: Step) returns (text: string, changes: seq<string>)
    requires text0 == st.text && changes0 == Messages(st.reports)
    ensures text == Then(st, Italic, cfg).text
    ensures changes == Messages(Then(st, Italic, cfg).reports)
  {
    text := text0;
    changes := changes0;
    ghost var out := Effect(Italic, text0);
    ThenCounted(st, Italic, cfg);
    assert out == Replace(ItalicPair, None, text0) && Wording(Italic) == ("Removed ", " italic segments");
    if Enabled(cfg, Italic) {
      var o := Replace(ItalicPair, None, text);
      text := o.text;
      if o.n > 0 { changes := changes + [Label("Removed ", o.n, " italic segments")]; }
    }
  }

  /** The `if (opts.headers)` block: leading `#` marks are removed. */
  method HeadersStep(cfg: Config, text0: string, changes0: seq<string>, ghost st: Step) returns (text: string, changes: seq<string>)
    requires text0 == st.text && changes0 == Messages(st.reports)
    ensures text == Then(st, Headers, cfg).text
    ensures changes == Messages(Then(st, Headers, cfg).reports)
  {
    text := text0;
    changes := changes0;
    ghost var out := Effect(Headers, text0);
    ThenCounted(st, Headers, cfg);
    assert out == Replace(HeaderMark, None, text0) && Wording(Headers) == ("Removed ", " markdown headers");
    if Enabled(cfg, Headers) {
      var o := Replace(HeaderMark, None, text);
      text := o.text;
      if o.n > 0 { changes := changes + [Label("Removed ", o.n, " markdown headers")]; }
    }
  }

  /** The `if (opts.lists)` block: bullet and number markers are removed; both
      counts are taken on the text the block starts with. */
  method ListsStep(cfg: Config, text0: string, changes0: seq<string>, ghost st: Step) returns (text: string, changes: seq<string>)
    requires text0 == st.text && changes0 == Messages(st.reports)
    ensures text == Then(st, Lists, cfg).text
    ensures changes == Messages(Then(st, Lists, cfg).reports)
  {
    text := text0;
    changes := changes0;
    ghost var out := Effect(Lists, text0);
    ThenCounted(st, Lists, cfg);
    assert Wording(Lists) == ("Removed ", " list markers");
    if Enabled(cfg, Lists) {
      var n1 := Replace(BulletMark, None, text).n;
      var n2 := Replace(NumberMark, None, text).n;
      text := Replace(NumberMark, None, Replace(BulletMark, None, text).text).text;
      assert text == out.text && n1 + n2 == out.n;
      if n1 + n2 > 0 { changes := changes + [Label("Removed ", n1 + n2, " list markers")]; }
    }
  }

  /** The `if (opts.links)` block. */
  method LinksStep(cfg: Config, text0: string, changes0: seq<string>, ghost st: Step) returns (text: string, changes: seq<string>)
    requires text0 == st.text && changes0 == Messages(st.reports)
    ensures text == Then(st, Links, cfg).text
    ensures changes == Messages(Then(st, Links, cfg).reports)
  {
    text := text0;
    changes := changes0;
    ghost var out := Effect(Links, text0);
    ThenCounted(st, Links, cfg);
    assert out == Replace(MarkdownLink, None, text0) && Wording(Links) == ("Stripped ", " markdown links");
    if Enabled(cfg, Links) {
      var o := Replace(MarkdownLink, None, text);
      text := o.text;
      if o.n > 0 { changes := changes + [Label("Stripped ", o.n, " markdown links")]; }
    }
  }

  /** The `if (opts.code)` block: inline code, then fences, each keeping its body. */
  method CodeStep(cfg: Config, text0: string, changes0: seq<string>, ghost st: Step) returns (text: string, changes: seq<string>)
    requires text0 == st.text && changes0 == Messages(st.reports)
    ensures text == Then(st, Code, cfg).text
    ensures changes == Messages(Then(st, Code, cfg).reports)
  {
    text := text0;
    changes := changes0;
    ghost var out := Effect(Code, text0);
    ThenCounted(st, Code, cfg);
    assert Wording(Code) == ("Normalized code formatting (", ")");
    if Enabled(cfg, Code) {
      var n1 := Replace(InlineCode, None, text).n;
      text := Replace(InlineCode, None, text).text;
      var n2 := Replace(CodeFence, None, text).n;
      text := Replace(CodeFence, None, text).text;
      assert text == out.text && n1 + n2 == out.n;
      if n1 + n2 > 0 { changes := changes + [Label("Normalized code formatting (", n1 + n2, ")")]; }
    }
  }

  /** The `if (opts.blockquotes)` block: leading `>` marks are removed. */
  method BlockquotesStep(cfg: Config, text0: string, changes0: seq<string>, ghost st: Step) returns (text: string, changes: seq<string>)
    requires text0 == st.text && changes0 == Messages(st.reports)
    ensures text == Then(st, Blockquotes, cfg).text
    ensures changes == Messages(Then(st, Blockquotes, cfg).reports)
  {
    text := text0;
    changes := changes0;
    ghost var out := Effect(Blockquotes, text0);
    ThenCounted(st, Blockquotes, cfg);
    assert out == Replace(QuoteMark, None, text0) && Wording(Blockquotes) == ("Removed ", " blockquote symbols");
    if Enabled(cfg, Blockquotes) {
      var o := Replace(QuoteMark, None, text);
      text := o.text;
      if o.n > 0 { changes := changes + [Label("Removed ", o.n, " blockquote symbols")]; }
    }
  }

  /** The `if (opts.tables)` block: table lines lose their pipes. */
  method TablesStep(cfg: Config, text0: string, changes0: seq<string>, ghost st: Step) returns (text: string, changes: seq<string>)
    requires text0 == st.text && changes0 == Messages(st.reports)
    ensures text == Then(st, Tables, cfg).text
    ensures changes == Messages(Then(st, Tables, cfg).reports)
  {
    text := text0;
    changes := changes0;
    ghost var out := Effect(Tables, text0);
    ThenCounted(st, Tables, cfg);
    assert out == Replace(TableRow, None, text0) && Wording(Tables) == ("Simplified ", " table lines");
    if Enabled(cfg, Tables) {
      var o := Replace(TableRow, None, text);
      text := o.text;
      if o.n > 0 { changes := changes + [Label("Simplified ", o.n, " table lines")]; }
    }
  }

  /** The `if (opts.smartQuotes)` block. */
  method SmartQuotesStep(cfg: Config, text0: string, changes0: seq<string>, ghost st: Step) returns (text: string, changes: seq<string>)
    requires text0 == st.text && changes0 == Messages(st.reports)
    ensures text == Then(st, SmartQuotes, cfg).text
    ensures changes == Messages(Then(st, SmartQuotes, cfg).reports)
  {
    text := text0;
    changes := changes0;
    ghost var out := Effect(SmartQuotes, text0);
    ThenCounted(st, SmartQuotes, cfg);
    assert out == SmartQuotesRule(text0) && Wording(SmartQuotes) == ("Normalized ", " smart quotes");
    if Enabled(cfg, SmartQuotes) {
      var q := CountIn(text, DoubleQuotes) + CountIn(text, SingleQuotes);
      text := ReplaceChars(ReplaceChars(text, DoubleQuotes, "\""), SingleQuotes, "'");
      assert text == out.text && q == out.n;
      if q > 0 { changes := changes + [Label("Normalized ", q, " smart quotes")]; }
    }
  }

  /** The `if (opts.ellipsis)` block. */
  method EllipsisStep(cfg: Config, text0: string, changes0: seq<string>, ghost st: Step) returns (text: string, changes: seq<string>)
    requires text0 == st.text && changes0 == Messages(st.reports)
    ensures text == Then(st, Ellipsis, cfg).text
    ensures changes == Messages(Then(st, Ellipsis, cfg).reports)
  {
    text := text0;
    changes := changes0;
    ghost var out := Effect(Ellipsis, text0);
    ThenCounted(st, Ellipsis, cfg);
    assert out == EllipsisRule(text0) && Wording(Ellipsis) == ("Normalized ", " ellipses");
    if Enabled(cfg, Ellipsis) {
      var n := CountIn(text, {EllipsisChar});
      text := ReplaceChars(text, {EllipsisChar}, "...");
      if n > 0 { changes := changes + [Label("Normalized ", n, " ellipses")]; }
    }
  }

  /** The `if (opts.bullets)` block. */
  method BulletsStep(cfg: Config, text0: string, changes0: seq<string>, ghost st: Step) returns (text: string, changes: seq<string>)
    requires text0 == st.text && changes0 == Messages(st.reports)
    ensures text == Then(st, Bullets, cfg).text
    ensures changes == Messages(Then(st, Bullets, cfg).reports)
  {
    text := text0;
    changes := changes0;
    ghost var out := Effect(Bullets, text0);
    ThenCounted(st, Bullets, cfg);
    assert out == BulletsRule(text0) && Wording(Bullets) == ("Replaced ", " bullet characters");
    if Enabled(cfg, Bullets) {
      var n := CountIn(text, BulletChars);
      text := ReplaceChars(text, BulletChars, "-");
      if n > 0 { changes := changes + [Label("Replaced ", n, " bullet characters")]; }
    }
  }

  /** The reports of the dashes rule: em dashes first, then en dashes, each
      only when its count is positive. */
  function DashNotes(d: DashOutcome): (r: seq<Report>)
    ensures |r| == (if d.em > 0 then 1 else 0) + (if d.en > 0 then 1 else 0)
    ensures forall i :: 0 <= i < |r| ==> r[i].rule == Dashes && r[i].count > 0
  {
    var a := Note(Dashes, d.em, Label("Replaced ", d.em, " em dashes with \"" + d.chosen + "\""));
    var b := Note(Dashes, d.en, Label("Replaced ", d.en, " en dashes with hyphen"));
    assert forall i :: 0 <= i < |a + b| ==> (a + b)[i] == if i < |a| then a[i] else b[i - |a|];
    a + b
  }

  /** The messages of the dashes rule, one per positive count. */
  lemma DashesMessages(d: DashOutcome)
    ensures Messages(DashNotes(d)) ==
      (if d.em > 0 then [Label("Replaced ", d.em, " em dashes with \"" + d.chosen + "\"")] else []) +
      (if d.en > 0 then [Label("Replaced ", d.en, " en dashes with hyphen")] else [])
  {
    var a := Note(Dashes, d.em, Label("Replaced ", d.em, " em dashes with \"" + d.chosen + "\""));
    var b := Note(Dashes, d.en, Label("Replaced ", d.en, " en dashes with hyphen"));
    MessagesAppend(a, b);
  }

  /** The body of the `if (opts.dashes)` block: em dashes by the chosen
      strategy, then en dashes by a hyphen, each with its own message. */
  method ReplaceDashes(s: string, strategy: string) returns (text: string, messages: seq<string>)
    ensures text == DashesRule(s, strategy).text
    ensures messages == Messages(DashNotes(DashesRule(s, strategy)))
  {
    ghost var d := DashesRule(s, strategy);
    DashesMessages(d);
    text := s;
    messages := [];
    var em := CountIn(text, {EmDash});
    if em > 0 {
      var suggestion := SuggestEmDash(text);
      var chosen := if strategy == "auto" then suggestion else strategy;
      text := ReplaceChars(text, {EmDash}, DashText(chosen));
      messages := messages + [Label("Replaced ", em, " em dashes with \"" + chosen + "\"")];
    }
    assert text == EmDashes(s, DashText(d.chosen)).text;
    var en := CountIn(text, {EnDash});
    if en > 0 {
      text := ReplaceChars(text, {EnDash}, "-");
      messages := messages + [Label("Replaced ", en, " en dashes with hyphen")];
    }
  }

  /** The `if (opts.dashes)` block. */
  method DashesStep(cfg: Config, text0: string, changes0: seq<string>, ghost st: Step) returns (text: string, changes: seq<string>)
    requires text0 == st.text && changes0 == Messages(st.reports)
    ensures text == Then(st, Dashes, cfg).text
    ensures changes == Messages(Then(st, Dashes, cfg).reports)
  {
    text := text0;
    changes := changes0;
    ghost var d := DashesRule(text0, cfg.emDashStrategy);
    assert Stage(Dashes, text0, cfg.emDashStrategy) == Step(d.text, DashNotes(d));
    MessagesAppend(st.reports, DashNotes(d));
    if Enabled(cfg, Dashes) {
      var messages;
      text, messages := ReplaceDashes(text, cfg.emDashStrategy);
      changes := changes + messages;
    }
  }

  /** The `if (opts.formulaic)` block. */
  method FormulaicStep(cfg: Config, text0: string, changes0: seq<string>, ghost st: Step) returns (text: string, changes: seq<string>)
    requires text0 == st.text && changes0 == Messages(st.reports)
    ensures text == Then(st, Formulaic, cfg).text
    ensures changes == Messages(Then(st, Formulaic, cfg).reports)
  {
    text := text0;
    changes := changes0;
    ghost var out := Effect(Formulaic, text0);
    ThenCounted(st, Formulaic, cfg);
    assert out == Phrases(FormulaicPatterns, text0) && Wording(Formulaic) == ("Trimmed ", " formulaic phrases");
    if Enabled(cfg, Formulaic) {
      var c;
      text, c := TrimFormulaic(text);
      if c > 0 { changes := changes + [Label("Trimmed ", c, " formulaic phrases")]; }
    }
  }

  /** The loop over the formulaic patterns: each one that matches is removed
      and the whitespace it leaves collapsed; `c` adds up the matches. */
  method TrimFormulaic(t0: string) returns (text: string, c: nat)
    ensures Outcome(text, c) == Phrases(FormulaicPatterns, t0)
  {
    text := t0;
    c := 0;
    for i := 0 to |FormulaicPatterns|
      invariant Outcome(text, c) == Phrases(FormulaicPatterns[..i], t0)
    {
      PhrasesStep(FormulaicPatterns, i, t0);
      var p := FormulaicPatterns[i];
      ghost var q := PhrasePass(p, text);
      var hits := Replace(p, None, text).n;
      if hits > 0 {
        c := c + hits;
        text := Replace(WsCollapse, None, Replace(p, None, text).text).text;
      }
      assert text == q.text && c == Phrases(FormulaicPatterns[..i], t0).n + q.n;
    }
    assert FormulaicPatterns[..|FormulaicPatterns|] == FormulaicPatterns;
  }

  /** The `if (opts.transitions)` block. */
  method TransitionsStep(cfg: Config, text0: string, changes0: seq<string>, ghost st: Step) returns (text: string, changes: seq<string>)
    requires text0 == st.text && changes0 == Messages(st.reports)
    ensures text == Then(st, Transitions, cfg).text
    ensures changes == Messages(Then(st, Transitions, cfg).reports)
  {
    text := text0;
    changes := changes0;
    ghost var out := Effect(Transitions, text0);
    ThenCounted(st, Transitions, cfg);
    assert out == Replace(Transition, None, text0) && Wording(Transitions) == ("Removed ", " transition phrases");
    if Enabled(cfg, Transitions) {
      var o := Replace(Transition, None, text);
      text := o.text;
      if o.n > 0 { changes := changes + [Label("Removed ", o.n, " transition phrases")]; }
    }
  }

  /** The `if (opts.hedging)` block. */
  method HedgingStep(cfg: Config, text0: string, changes0: seq<string>, ghost st: Step) returns (text: string, changes: seq<string>)
    requires text0 == st.text && changes0 == Messages(st.reports)
    ensures text == Then(st, Hedging, cfg).text
    ensures changes == Messages(Then(st, Hedging, cfg).reports)
  {
    text := text0;
    changes := changes0;
    ghost var out := Effect(Hedging, text0);
    ThenCounted(st, Hedging, cfg);
    assert out == Replace(Hedge, None, text0) && Wording(Hedging) == ("Reduced ", " hedging patterns");
    if Enabled(cfg, Hedging) {
      var o := Replace(Hedge, None, text);
      text := o.text;
      if o.n > 0 { changes := changes + [Label("Reduced ", o.n, " hedging patterns")]; }
    }
  }

  /** The `if (opts.parenthetical)` block: the count is taken with the combined
      pattern, the text is rewritten with the two patterns one after the other. */
  method ParentheticalStep(cfg: Config, text0: string, changes0: seq<string>, ghost st: Step) returns (text: string, changes: seq<string>)
    requires text0 == st.text && changes0 == Messages(st.reports)
    ensures text == Then(st, Parenthetical, cfg).text
    ensures changes == Messages(Then(st, Parenthetical, cfg).reports)
  {
    text := text0;
    changes := changes0;
    ghost var out := Effect(Parenthetical, text0);
    ThenCounted(st, Parenthetical, cfg);
    assert out == ParentheticalRule(text0) && Wording(Parenthetical) == ("Normalized ", " parenthetical artifacts");
    if Enabled(cfg, Parenthetical) {
      var n := Replace(ParenEither, None, text).n;
      text := Replace(ParenClose, None, Replace(ParenOpen, None, text).text).text;
      if n > 0 { changes := changes + [Label("Normalized ", n, " parenthetical artifacts")]; }
    }
  }

  /** The `if (opts.separators)` block: lines of three or more `-`, `_` or `*` are removed. */
  method SeparatorsStep(cfg: Config, text0: string, changes0: seq<string>, ghost st: Step) returns (text: string, changes: seq<string>)
    requires text0 == st.text && changes0 == Messages(st.reports)
    ensures text == Then(st, Separators, cfg).text
    ensures changes == Messages(Then(st, Separators, cfg).reports)
  {
    text := text0;
    changes := changes0;
    ghost var out := Effect(Separators, text0);
    ThenCounted(st, Separators, cfg);
    assert out == Replace(Separator, None, text0) && Wording(Separators) == ("Removed ", " separators");
    if Enabled(cfg, Separators) {
      var o := Replace(Separator, None, text);
      text := o.text;
      if o.n > 0 { changes := changes + [Label("Removed ", o.n, " separators")]; }
    }
  }

  /** The `if (opts.breaks)` block. */
  method BreaksStep(cfg: Config, text0: string, changes0: seq<string>, ghost st: Step) returns (text: string, changes: seq<string>)
    requires text0 == st.text && changes0 == Messages(st.reports)
    ensures text == Then(st, Breaks, cfg).text
    ensures changes == Messages(Then(st, Breaks, cfg).reports)
  {
    text := text0;
    changes := changes0;
    ghost var out := Effect(Breaks, text0);
    ThenCounted(st, Breaks, cfg);
    assert out == BreaksRule(text0) && Wording(Breaks) == ("Normalized ", " excessive line breaks");
    if Enabled(cfg, Breaks) {
      var o := Replace(BreakRun, None, text);
      text := o.text;
      if o.n > 0 { changes := changes + [Label("Normalized ", o.n, " excessive line breaks")]; }
    }
  }

  /** The `if (opts.spacing)` block: runs of spaces, then blanks at line ends. */
  method SpacingStep(cfg: Config, text0: string, changes0: seq<string>, ghost st: Step) returns (text: string, changes: seq<string>)
    requires text0 == st.text && changes0 == Messages(st.reports)
    ensures text == Then(st, Spacing, cfg).text
    ensures changes == Messages(Then(st, Spacing, cfg).reports)
  {
    text := text0;
    changes := changes0;
    ghost var out := Effect(Spacing, text0);
    ThenCounted(st, Spacing, cfg);
    assert out == SpacingRule(text0) && Wording(Spacing) == ("Fixed spacing (", " instances)");
    SpacingRuleSteps(text);
    if Enabled(cfg, Spacing) {
      var n := Replace(SpaceRun, None, text).n;
      text := Replace(SpaceRun, None, text).text;
      var m := Replace(TrailingBlank, None, text).n;
      text := Replace(TrailingBlank, None, text).text;
      assert text == out.text && n + m == out.n;
      if n + m > 0 { changes := changes + [Label("Fixed spacing (", n + m, " instances)")]; }
    }
  }

  /** The markdown rules: bold, italic, headers, lists, links, code, blockquotes, tables. */
  method MarkdownRulesStep(cfg: Config, text0: string, changes0: seq<string>, ghost st0: Step) returns (text: string, changes: seq<string>)
    requires text0 == st0.text && changes0 == Messages(st0.reports)
    ensures text == Run(MarkdownRules, st0, cfg).text
    ensures changes == Messages(Run(MarkdownRules, st0, cfg).reports)
  {
    text := text0;
    changes := changes0;
    ghost var cur := st0;
    text, changes := BoldStep(cfg, text, changes, cur);
    cur := Then(cur, Bold, cfg);
    text, changes := ItalicStep(cfg, text, changes, cur);
    cur := Then(cur, Italic, cfg);
    text, changes := HeadersStep(cfg, text, changes, cur);
    cur := Then(cur, Headers, cfg);
    text, changes := ListsStep(cfg, text, changes, cur);
    cur := Then(cur, Lists, cfg);
    text, changes := LinksStep(cfg, text, changes, cur);
    cur := Then(cur, Links, cfg);
    text, changes := CodeStep(cfg, text, changes, cur);
    cur := Then(cur, Code, cfg);
    text, changes := BlockquotesStep(cfg, text, changes, cur);
    cur := Then(cur, Blockquotes, cfg);
    text, changes := TablesStep(cfg, text, changes, cur);
    cur := Then(cur, Tables, cfg);
    ghost var mid := Then(Then(Then(Then(st0, Bold, cfg), Italic, cfg), Headers, cfg), Lists, cfg);
    RunFour(MarkdownRules[..4], st0, cfg);
    RunFour(MarkdownRules[4..], mid, cfg);
    RunAppend(MarkdownRules[..4], MarkdownRules[4..], st0, cfg);
    assert MarkdownRules[..4] + MarkdownRules[4..] == MarkdownRules;
  }

  /** The typography rules: smart quotes, ellipsis, bullets, dashes. */
  method TypographyRulesStep(cfg: Config, text0: string, changes0: seq<string>, ghost st0: Step) returns (text: string, changes: seq<string>)
    requires text0 == st0.text && changes0 == Messages(st0.reports)
    ensures text == Run(TypographyRules, st0, cfg).text
    ensures changes == Messages(Run(TypographyRules, st0, cfg).reports)
  {
    text := text0;
    changes := changes0;
    ghost var cur := st0;
    text, changes := SmartQuotesStep(cfg, text, changes, cur);
    cur := Then(cur, SmartQuotes, cfg);
    text, changes := EllipsisStep(cfg, text, changes, cur);
    cur := Then(cur, Ellipsis, cfg);
    text, changes := BulletsStep(cfg, text, changes, cur);
    cur := Then(cur, Bullets, cfg);
    text, changes := DashesStep(cfg, text, changes, cur);
    cur := Then(cur, Dashes, cfg);
    RunFour(TypographyRules, st0, cfg);
  }

  /** The AI-pattern rules: formulaic phrases, transitions, hedging, parenthetical artifacts. */
  method PhraseRulesStep(cfg: Config, text0: string, changes0: seq<string>, ghost st0: Step) returns (text: string, changes: seq<string>)
    requires text0 == st0.text && changes0 == Messages(st0.reports)
    ensures text == Run(PhraseRules, st0, cfg).text
    ensures changes == Messages(Run(PhraseRules, st0, cfg).reports)
  {
    text := text0;
    changes := changes0;
    ghost var cur := st0;
    text, changes := FormulaicStep(cfg, text, changes, cur);
    cur := Then(cur, Formulaic, cfg);
    text, changes := TransitionsStep(cfg, text, changes, cur);
    cur := Then(cur, Transitions, cfg);
    text, changes := HedgingStep(cfg, text, changes, cur);
    cur := Then(cur, Hedging, cfg);
    text, changes := ParentheticalStep(cfg, text, changes, cur);
    cur := Then(cur, Parenthetical, cfg);
    RunFour(PhraseRules, st0, cfg);
  }

  /** The structural rules: separators, line breaks, spacing. */
  method StructureRulesStep(cfg: Config, text0: string, changes0: seq<string>, ghost st0: Step) returns (text: string, changes: seq<string>)
    requires text0 == st0.text && changes0 == Messages(st0.reports)
    ensures text == Run(StructureRules, st0, cfg).text
    ensures changes == Messages(Run(StructureRules, st0, cfg).reports)
  {
    text := text0;
    changes := changes0;
    ghost var cur := st0;
    text, changes := SeparatorsStep(cfg, text, changes, cur);
    cur := Then(cur, Separators, cfg);
    text, changes := BreaksStep(cfg, text, changes, cur);
    cur := Then(cur, Breaks, cfg);
    text, changes := SpacingStep(cfg, text, changes, cur);
    cur := Then(cur, Spacing, cfg);
    RunThree(StructureRules, st0, cfg);
  }

  /** What `cleanText` returns. */
  datatype Cleaned = Cleaned(text: string, changes: seq<string>, beforeLen: nat, afterLen: nat)

  /** `cleanText(src, opts)`: the enabled rules in order, then trim. */
  method CleanText(src: string, cfg: Config) returns (r: Cleaned)
    ensures r.beforeLen == |src| && r.afterLen == |r.text|
    ensures r.text == Trim(Run(Order, Step(src, []), cfg).text)
    ensures r.changes == Messages(Run(Order, Step(src, []), cfg).reports)
    ensures NoEdgeWs(r.text)
    ensures (forall k :: !Enabled(cfg, k)) ==> r.text == Trim(src) && r.changes == []
  {
    var text := src;
    var changes: seq<string> := [];
    var beforeLen := |text|;

    ghost var st := Step(src, []);
    // Markdown/basic
    text, changes := MarkdownRulesStep(cfg, text, changes, st);
    st := Run(MarkdownRules, st, cfg);
    // Typography
    text, changes := TypographyRulesStep(cfg, text, changes, st);
    st := Run(TypographyRules, st, cfg);
    // AI patterns
    text, changes := PhraseRulesStep(cfg, text, changes, st);
    st := Run(PhraseRules, st, cfg);
    // Structural
    text, changes := StructureRulesStep(cfg, text, changes, st);
    st := Run(StructureRules, st, cfg);

    OrderInGroups(Step(src, []), cfg);

    text := Trim(text);
    if forall k :: !Enabled(cfg, k) {
      RunAllOff(Order, Step(src, []), cfg);
    }
    r := Cleaned(text, changes, beforeLen, |text|);
  }

  // ---------------------------------------------------------------- properties of the whole pipeline

  /** The change messages come from enabled rules, in execution order, at
      most one per rule except two for dashes. */
  lemma CleanTextReports(src: string, cfg: Config)
    ensures ReportsInOrder(Run(Order, Step(src, []), cfg).reports, Order, cfg)
  {
    OrderIncreasing();
    RunReports(Order, src, cfg);
  }

  /** A middle part of a text has no two adjacent spaces when the text has none. */
  lemma SliceNoDoubleSpace(x: string, i: nat, j: nat)
    requires i <= j <= |x| && NoDoubleSpace(x)
    ensures NoDoubleSpace(x[i..j])
  {
    var t := x[i..j];
    forall p | 0 <= p < |t| - 1
      ensures !(t[p] == ' ' && t[p + 1] == ' ')
    {
      assert t[p] == x[i + p] && t[p + 1] == x[i + p + 1];
    }
  }

  /** A middle part of a text that does not end in whitespace keeps every
      blank followed by a character that is not a line end. */
  lemma SliceNoTrailingBlank(x: string, i: nat, j: nat)
    requires i <= j <= |x| && NoTrailingBlank(x) && NoEdgeWs(x[i..j])
    ensures NoTrailingBlank(x[i..j])
  {
    var t := x[i..j];
    forall p | 0 <= p < |t| && IsBlank(t[p])
      ensures p + 1 < |t| && !IsLineEnd(t[p + 1])
    {
      assert t[p] == x[i + p];
      assert IsWs(t[p]);
      assert t[p + 1] == x[i + p + 1];
    }
  }

  /** Trimming keeps what the spacing rule guarantees. */
  lemma TrimKeepsSpacing(x: string)
    requires NoDoubleSpace(x) && NoTrailingBlank(x)
    ensures NoDoubleSpace(Trim(x)) && NoTrailingBlank(Trim(x))
  {
    var i := SkipWs(x, 0);
    var j := BackWs(x, i, |x|);
    if i < j {
      SliceNoDoubleSpace(x, i, j);
      SliceNoTrailingBlank(x, i, j);
    }
  }

  /** With the spacing rule on, the cleaned text has no two adjacent spaces
      and no line that ends in a blank (spacing is the last rule). */
  lemma CleanedSpacing(src: string, cfg: Config)
    requires Enabled(cfg, Spacing)
    ensures NoDoubleSpace(Trim(Run(Order, Step(src, []), cfg).text))
    ensures NoTrailingBlank(Trim(Run(Order, Step(src, []), cfg).text))
  {
    var before := Run(Order[..|Order| - 1], Step(src, []), cfg);
    assert Order[|Order| - 1] == Spacing;
    var x := Run(Order, Step(src, []), cfg).text;
    assert x == Then(before, Spacing, cfg).text;
    SpacingLast(before, cfg);
    TrimKeepsSpacing(x);
  }

  /** The spacing rule, when on, gives its own text. */
  lemma SpacingLast(st: Step, cfg: Config)
    requires Enabled(cfg, Spacing)
    ensures Then(st, Spacing, cfg).text == SpacingRule(st.text).text
  {
    assert Stage(Spacing, st.text, cfg.emDashStrategy).text == Effect(Spacing, st.text).text;
  }

  /** The links rule, as written, never matches: the text is unchanged and
      nothing is reported. */
  lemma {:induction false} LinksNeverMatch(prev: Option<char>, s: string)
    ensures Replace(MarkdownLink, prev, s) == Outcome(s, 0)
    decreases |s|
  {
    if s != [] {
      LinksNeverMatch(Some(s[0]), s[1..]);
    }
  }

  lemma LinksStageNoOp(s: string, strategy: string)
    ensures Stage(Links, s, strategy) == Step(s, [])
  {
    LinksNeverMatch(None, s);
  }
}
