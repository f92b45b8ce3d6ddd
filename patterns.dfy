/** The regular expressions of the cleaning pipeline (js/formatting.js), each
    written out as a matcher, and the global replace that `String.prototype.replace`
    performs with a `/g` pattern.

    A matcher answers: does the pattern match at the start of the suffix `s`
    of the text, and if so how many characters does the match take and what
    replaces them? `prev` is the character of the original text just before
    `s` (`None` at the start of input); it decides `^` (with and without the
    `m` flag), `\b` before a word, and the `^` alternative of the italic
    pattern. Each matcher follows the backtracking order of the JavaScript
    engine (greedy and lazy quantifiers, alternatives tried left to right);
    where backtracking cannot change the outcome this is stated beside it. */
module Patterns {
  import opened Strings

  /** A match: its length and its replacement text. */
  datatype Hit = Hit(len: nat, repl: string)

  /** Replaced text and the number of matches (`(text.match(re) || []).length`). */
  datatype Outcome = Outcome(text: string, n: nat)

  datatype Pattern =
    | BoldPair       // /\*\*(.*?)\*\*/gs                               -> '$1'
    | ItalicPair     // /(^|[^\*])\*(?!\s)(.*?)(?<!\s)\*(?!\*)/gs        -> '$1$2'
    | HeaderMark     // /^(#{1,6})\s+/gm                                 -> ''
    | BulletMark     // /^\s*[-*+]\s+/gm                                 -> ''
    | NumberMark     // /^\s*\d+\.\s+/gm                                 -> ''
    | MarkdownLink   // /\[([^\]]+)\]$$([^)]+)$$/g                       -> '$1'
    | InlineCode     // /`([^`]+)`/g                                     -> '$1'
    | CodeFence      // /```([\s\S]*?)```/g                              -> '$1'
    | QuoteMark      // /^\s*>\s+/gm                                     -> ''
    | TableRow       // /^\|.*\|$/gm                                     -> pipes to spaces, dash runs to '-'
    | HeresA         // /\bHere['’]?s a\b/gi                             -> ''
    | WorthNoting    // /\bIt['’]?s worth noting\b/gi                    -> ''
    | InConclusion   // /\bIn conclusion\b/gi                            -> ''
    | WsCollapse     // /\s{2,}/g                                        -> ' '
    | Transition     // /\b(Furthermore|...|On the other hand),?\s+/gi   -> ''
    | Hedge          // /\b(it's (important to|worth) (note|remember)|perhaps|maybe|arguably|somewhat)\b[:,]?\s*/gi -> ''
    | ParenOpen      // /$$\s{2,}/g                                      -> '('
    | ParenClose     // /,\s*$$/g                                        -> ')'
    | ParenEither    // /$$\s{2,}|,\s*$$/g                               (counted only)
    | Separator      // /^\s*([-_*]{3,})\s*$/gm                          -> ''
    | BreakRun       // /\n{3,}/g                                        -> '\n\n'
    | SpaceRun       // / {2,}/g                                         -> ' '
    | TrailingBlank  // /[ \t]+$/gm                                      -> ''

  /** The least number of characters every match of the pattern removes. */
  function Shrink(p: Pattern): nat {
    match p
    case BoldPair => 4
    case ItalicPair => 2
    case HeaderMark => 2
    case BulletMark => 2
    case NumberMark => 3
    case InlineCode => 2
    case CodeFence => 6
    case QuoteMark => 2
    case HeresA => 7
    case WorthNoting => 16
    case InConclusion => 13
    case WsCollapse => 1
    case Transition => 9
    case Hedge => 5
    case Separator => 3
    case BreakRun => 1
    case SpaceRun => 1
    case TrailingBlank => 1
    case _ => 0
  }

  /** Patterns whose every match removes exactly `Shrink(p)` characters. */
  predicate Exact(p: Pattern) {
    p.BoldPair? || p.ItalicPair? || p.InlineCode? || p.CodeFence?
  }

  /** A match of at least one character that fits in `s` and removes at least
      (with `exact`: exactly) `shrink` characters. */
  predicate Fits(h: Hit, s: string, shrink: nat, exact: bool) {
    1 <= h.len <= |s| && h.len >= |h.repl| + shrink && (exact ==> h.len == |h.repl| + shrink)
  }

  /** `^` under the `m` flag. */
  predicate LineStart(prev: Option<char>) {
    prev.None? || IsLineEnd(prev.value)
  }

  /** `\b` in front of a word character. */
  predicate WordStart(prev: Option<char>) {
    prev.None? || !IsWordChar(prev.value)
  }

  /** `\b` after a word character that ends at `k`. */
  predicate WordEndAt(s: string, k: nat)
    requires k <= |s|
  {
    k == |s| || !IsWordChar(s[k])
  }

  /** `(?!\s)` at `k`. */
  predicate NotWsAt(s: string, k: nat) {
    k >= |s| || !IsWs(s[k])
  }

  // ---------------------------------------------------------------- markdown

  /** `\*\*(.*?)\*\*` with the s flag: the lazy group ends at the first `**`
      after the opening one. */
  function MatchBold(s: string): (r: Option<Hit>)
    requires s != []
    ensures r.Some? ==> Fits(r.value, s, 4, true)
  {
    if OccursAt(s, "**", 0) then
      match FindFrom(s, "**", 2)
      case Some(q) => Some(Hit(q + 2, s[2..q]))
      case None => None
    else None
  }

  /** The closing `*` of the italic pattern at `c`: `(?<!\s)\*(?!\*)`. */
  predicate ClosesItalic(s: string, c: nat)
    requires 1 <= c < |s|
  {
    s[c] == '*' && !IsWs(s[c - 1]) && (c + 1 == |s| || s[c + 1] != '*')
  }

  /** The first closing position at or after `k` (the lazy `(.*?)`). */
  function ItalicClose(s: string, k: nat): (r: Option<nat>)
    requires 1 <= k <= |s|
    ensures r.Some? ==> k <= r.value < |s| && ClosesItalic(s, r.value)
    ensures r.Some? ==> forall c :: k <= c < r.value ==> !ClosesItalic(s, c)
    ensures r.None? ==> forall c :: k <= c < |s| ==> !ClosesItalic(s, c)
    decreases |s| - k
  {
    if k == |s| then None
    else if ClosesItalic(s, k) then Some(k)
    else ItalicClose(s, k + 1)
  }

  /** `(^|[^\*])\*(?!\s)(.*?)(?<!\s)\*(?!\*)` with the s flag. The `^`
      alternative is tried first and holds only at the start of input; the
      `[^\*]` alternative takes one character, which the replacement keeps. */
  function MatchItalic(prev: Option<char>, s: string): (r: Option<Hit>)
    requires s != []
    ensures r.Some? ==> Fits(r.value, s, 2, true)
  {
    var atStart :=
      if prev.None? && s[0] == '*' && NotWsAt(s, 1) then
        match ItalicClose(s, 1)
        case Some(c) => Some(Hit(c + 1, s[1..c]))
        case None => None
      else None;
    if atStart.Some? then atStart
    else if |s| >= 2 && s[0] != '*' && s[1] == '*' && NotWsAt(s, 2) then
      match ItalicClose(s, 2)
      case Some(c) => Some(Hit(c + 1, [s[0]] + s[2..c]))
      case None => None
    else None
  }

  /** `^(#{1,6})\s+` with the m flag. Backtracking inside `#{1,6}` only
      leaves a `#` in front of `\s+`, so the whole run of `#` must be one to
      six long and be followed by whitespace; `\s+` is greedy and may cross
      line ends. */
  function MatchHeader(prev: Option<char>, s: string): (r: Option<Hit>)
    requires s != []
    ensures r.Some? ==> Fits(r.value, s, 2, false)
  {
    var k := Span(s, 0, Exactly('#'));
    if LineStart(prev) && 1 <= k <= 6 && k < |s| && IsWs(s[k]) then
      Some(Hit(k + Span(s, k, Ws), ""))
    else None
  }

  /** `^\s*[marks]\s+` with the m flag (lists: `[-*+]`, blockquotes: `>`).
      Giving back whitespace from `\s*` only puts a whitespace character where
      the mark must be, so the greedy run decides. */
  function MatchMark(prev: Option<char>, s: string, marks: set<char>): (r: Option<Hit>)
    requires s != []
    ensures r.Some? ==> Fits(r.value, s, 2, false)
  {
    var w := Span(s, 0, Ws);
    if LineStart(prev) && w + 1 < |s| && s[w] in marks && IsWs(s[w + 1]) then
      Some(Hit(w + 1 + Span(s, w + 1, Ws), ""))
    else None
  }

  /** `^\s*\d+\.\s+` with the m flag. */
  function MatchNumber(prev: Option<char>, s: string): (r: Option<Hit>)
    requires s != []
    ensures r.Some? ==> Fits(r.value, s, 3, false)
  {
    var w := Span(s, 0, Ws);
    var d := Span(s, w, Digit);
    if LineStart(prev) && d >= 1 && w + d + 1 < |s| && s[w + d] == '.' && IsWs(s[w + d + 1]) then
      Some(Hit(w + d + 1 + Span(s, w + d + 1, Ws), ""))
    else None
  }

  /** `\[([^\]]+)\]$$([^)]+)$$` without the m flag. After the `]`, both `$`
      demand the end of input, where the second group `[^)]+` has no
      character to take. */
  function MatchLink(s: string): (r: Option<Hit>)
    requires s != []
    ensures r.Some? ==> Fits(r.value, s, 0, false)
  {
    var r := Span(s, 1, NoneOf(']'));
    var k := 2 + r;
    var g := if k <= |s| then Span(s, k, NoneOf(')')) else 0;
    var hit := Hit(k + g, s[1..1 + r]);
    if s[0] == '[' && r >= 1 && k <= |s| && s[k - 1] == ']' && k == |s| && g >= 1 && k + g == |s| then
      Some(hit)
    else None
  }

  /** `` `([^`]+)` ``: the greedy group stops at the next backtick. */
  function MatchInlineCode(s: string): (r: Option<Hit>)
    requires s != []
    ensures r.Some? ==> Fits(r.value, s, 2, true)
  {
    var r := Span(s, 1, NoneOf('`'));
    if s[0] == '`' && r >= 1 && 1 + r < |s| then Some(Hit(r + 2, s[1..1 + r])) else None
  }

  /** ```` ```([\s\S]*?)``` ````: the lazy group ends at the first ``` after the opening one. */
  function MatchCodeFence(s: string): (r: Option<Hit>)
    requires s != []
    ensures r.Some? ==> Fits(r.value, s, 6, true)
  {
    if OccursAt(s, "```", 0) then
      match FindFrom(s, "```", 3)
      case Some(q) => Some(Hit(q + 3, s[3..q]))
      case None => None
    else None
  }

  /** A leading run of hyphens strikes out to nothing. */
  lemma HyphenRun(t: string, n: nat)
    requires n <= |t| && forall k :: 0 <= k < n ==> t[k] == '-'
    ensures Outside(t, OneOf({'-'})) == Outside(t[n..], OneOf({'-'}))
  {
    OutsideNone(t[..n], OneOf({'-'}));
    OutsideAppend(t[..n], t[n..], OneOf({'-'}));
    assert t[..n] + t[n..] == t;
  }

  /** `m.replace(/-+/g, '-')`: every run of hyphens becomes one hyphen. */
  function CollapseHyphens(t: string): (r: string)
    ensures |r| <= |t|
    ensures Outside(r, OneOf({'-'})) == Outside(t, OneOf({'-'}))
    ensures forall k :: 0 <= k < |r| - 1 ==> !(r[k] == '-' && r[k + 1] == '-')
    ensures t != [] ==> r != [] && (r[0] == '-' <==> t[0] == '-')
  {
    if t == [] then []
    else if t[0] == '-' then
      var n := Span(t, 0, Exactly('-'));
      var rest := CollapseHyphens(t[n..]);
      HyphenRun(t, n);
      OutsideCons('-', rest, OneOf({'-'}));
      "-" + rest
    else
      var rest := CollapseHyphens(t[1..]);
      OutsideCons(t[0], t[1..], OneOf({'-'}));
      OutsideCons(t[0], rest, OneOf({'-'}));
      assert [t[0]] + t[1..] == t;
      [t[0]] + rest
  }

  /** Turning pipes into spaces commutes with striking out hyphens. */
  lemma {:induction false} PipesCommute(x: string)
    ensures Outside(ReplaceChars(x, {'|'}, " "), OneOf({'-'})) == ReplaceChars(Outside(x, OneOf({'-'})), {'|'}, " ")
  {
    if x != [] {
      var h := if x[0] == '|' then " " else [x[0]];
      var o := if x[0] == '-' then [] else [x[0]];
      PipesCommute(x[1..]);
      OutsideAppend(h, ReplaceChars(x[1..], {'|'}, " "), OneOf({'-'}));
      ReplaceCharsAppend(o, Outside(x[1..], OneOf({'-'})), {'|'}, " ");
      assert Outside(h, OneOf({'-'})) == (if x[0] == '-' then [] else h) + Outside([], OneOf({'-'}));
      if x[0] != '-' {
        ReplaceCharsUnit(x[0], {'|'}, " ");
      }
    }
  }

  /** The replacement of a table line: `m.replace(/\|/g, ' ').replace(/-+/g, '-')`. */
  function TableCells(line: string): (r: string)
    ensures |r| <= |line|
    ensures forall k :: 0 <= k < |r| ==> r[k] != '|'
    ensures forall k :: 0 <= k < |r| - 1 ==> !(r[k] == '-' && r[k + 1] == '-')
    ensures Outside(r, OneOf({'-'})) == ReplaceChars(Outside(line, OneOf({'-'})), {'|'}, " ")
  {
    var r := CollapseHyphens(ReplaceChars(line, {'|'}, " "));
    PipesCommute(line);
    OutsideLacks(r, OneOf({'-'}), '|');
    r
  }

  /** `^\|.*\|$` with the m flag and without s: `.` stops at a line end, and
      backtracking gives characters back until a `|` ends the line, so the
      match is the whole line when it starts and ends with `|`. */
  function MatchTableRow(prev: Option<char>, s: string): (r: Option<Hit>)
    requires s != []
    ensures r.Some? ==> Fits(r.value, s, 0, false)
  {
    var l := Span(s, 0, NotLineEnd);
    if LineStart(prev) && s[0] == '|' && l >= 2 && s[l - 1] == '|' then
      Some(Hit(l, TableCells(s[..l])))
    else None
  }

  // ---------------------------------------------------------------- AI phrases

  /** `\b<head>['’]?<tail>\b` with the i flag. When the quote is taken and the
      tail then fails, giving the quote back leaves the quote where the tail's
      `s` must be, so the greedy choice decides. */
  function MatchPhrase(prev: Option<char>, s: string, head: string, quote: bool, tail: string): (r: Option<Hit>)
    requires s != [] && head != []
    ensures r.Some? ==> Fits(r.value, s, |head| + |tail|, false)
  {
    var k := if quote && |head| < |s| && s[|head|] in {'\'', '\U{2019}'} then |head| + 1 else |head|;
    if WordStart(prev) && CiAt(s, 0, head) && CiAt(s, k, tail) && WordEndAt(s, k + |tail|) then
      Some(Hit(k + |tail|, ""))
    else None
  }

  /** `\s{2,}` */
  function MatchWsCollapse(s: string): (r: Option<Hit>)
    requires s != []
    ensures r.Some? ==> Fits(r.value, s, 1, false)
  {
    var w := Span(s, 0, Ws);
    if w >= 2 then Some(Hit(w, " ")) else None
  }

  const Transitions: seq<string> := ["furthermore", "moreover", "additionally", "moving on", "on the other hand"]

  /** `,?\s+` from `k`; a comma with no whitespace after it is given back, and
      then `\s+` fails on the comma. */
  function TransitionTail(s: string, k: nat): (r: Option<nat>)
    requires k <= |s|
    ensures r.Some? <==> (k < |s| && IsWs(s[k])) || (k + 1 < |s| && s[k] == ',' && IsWs(s[k + 1]))
    ensures r.Some? ==> var c := if s[k] == ',' then k + 1 else k;
      c < r.value <= |s| && (forall j :: c <= j < r.value ==> IsWs(s[j])) && (r.value < |s| ==> !IsWs(s[r.value]))
  {
    if k + 1 < |s| && s[k] == ',' && IsWs(s[k + 1]) then Some(k + 1 + Span(s, k + 1, Ws))
    else if k < |s| && IsWs(s[k]) then Some(k + Span(s, k, Ws))
    else None
  }

  /** Where alternative `j` of the transition group ends when it matches at
      the start of `s`. */
  function TransitionEnd(s: string, j: nat): (r: Option<nat>)
    requires j < |Transitions|
    ensures r.Some? ==> 9 <= r.value <= |s|
  {
    assert |Transitions[j]| >= 8 by {
      assert j == 0 || j == 1 || j == 2 || j == 3 || j == 4;
    }
    if CiAt(s, 0, Transitions[j]) then TransitionTail(s, |Transitions[j]|) else None
  }

  /** The alternatives of the transition group, tried left to right: the
      match is the first alternative from `i` on that matches with its tail. */
  function TryTransitions(s: string, i: nat): (r: Option<Hit>)
    ensures r.Some? ==> Fits(r.value, s, 9, false) && r.value.repl == []
    ensures r.Some? ==> exists j :: i <= j < |Transitions| && TransitionEnd(s, j) == Some(r.value.len) &&
                                   (forall j' :: i <= j' < j ==> TransitionEnd(s, j').None?)
    ensures r.None? ==> forall j :: i <= j < |Transitions| ==> TransitionEnd(s, j).None?
    decreases |Transitions| - i
  {
    if i >= |Transitions| then None
    else
      var e := TransitionEnd(s, i);
      if e.Some? then Some(Hit(e.value, "")) else TryTransitions(s, i + 1)
  }

  function MatchTransition(prev: Option<char>, s: string): (r: Option<Hit>)
    requires s != []
    ensures r.Some? ==> Fits(r.value, s, 9, false)
  {
    if WordStart(prev) then TryTransitions(s, 0) else None
  }

  /** The alternatives of the hedging group, expanded in the order the engine tries them. */
  const Hedges: seq<string> :=
    ["it's important to note", "it's important to remember", "it's worth note", "it's worth remember",
     "perhaps", "maybe", "arguably", "somewhat"]

  /** `\b[:,]?\s*` after an alternative that ends at `k`. */
  function HedgeTail(s: string, k: nat): (r: Option<nat>)
    requires k <= |s|
    ensures r.Some? <==> WordEndAt(s, k)
    ensures r.Some? ==> var c := if k < |s| && s[k] in {':', ','} then k + 1 else k;
      c <= r.value <= |s| && (forall j :: c <= j < r.value ==> IsWs(s[j])) && (r.value < |s| ==> !IsWs(s[r.value]))
  {
    if WordEndAt(s, k) then
      var c := if k < |s| && s[k] in {':', ','} then k + 1 else k;
      Some(c + Span(s, c, Ws))
    else None
  }

  /** Where alternative `j` of the hedging group ends when it matches at the
      start of `s`. */
  function HedgeEnd(s: string, j: nat): (r: Option<nat>)
    requires j < |Hedges|
    ensures r.Some? ==> 5 <= r.value <= |s|
  {
    assert |Hedges[j]| >= 5 by {
      assert j == 0 || j == 1 || j == 2 || j == 3 || j == 4 || j == 5 || j == 6 || j == 7;
    }
    if CiAt(s, 0, Hedges[j]) then HedgeTail(s, |Hedges[j]|) else None
  }

  /** The alternatives of the hedging group, tried left to right: the match
      is the first alternative from `i` on that matches with its tail. */
  function TryHedges(s: string, i: nat): (r: Option<Hit>)
    ensures r.Some? ==> Fits(r.value, s, 5, false) && r.value.repl == []
    ensures r.Some? ==> exists j :: i <= j < |Hedges| && HedgeEnd(s, j) == Some(r.value.len) &&
                                   (forall j' :: i <= j' < j ==> HedgeEnd(s, j').None?)
    ensures r.None? ==> forall j :: i <= j < |Hedges| ==> HedgeEnd(s, j).None?
    decreases |Hedges| - i
  {
    if i >= |Hedges| then None
    else
      var e := HedgeEnd(s, i);
      if e.Some? then Some(Hit(e.value, "")) else TryHedges(s, i + 1)
  }

  function MatchHedge(prev: Option<char>, s: string): (r: Option<Hit>)
    requires s != []
    ensures r.Some? ==> Fits(r.value, s, 5, false)
  {
    if WordStart(prev) then TryHedges(s, 0) else None
  }

  /** `$$\s{2,}` without the m flag: `$` holds only at the end of input, where
      `\s{2,}` finds nothing. */
  function MatchParenOpen(s: string): (r: Option<Hit>)
    requires s != []
    ensures r.Some? ==> Fits(r.value, s, 0, false)
  {
    var atEnd := |s| == 0;
    var w := Span(s, 0, Ws);
    if atEnd && w >= 2 then Some(Hit(w, "(")) else None
  }

  /** `,\s*$$`: a comma followed by nothing but whitespace up to the end of input. */
  function MatchParenClose(s: string): (r: Option<Hit>)
    requires s != []
    ensures r.Some? ==> Fits(r.value, s, 0, false)
  {
    if s[0] == ',' && 1 + Span(s, 1, Ws) == |s| then Some(Hit(|s|, ")")) else None
  }

  /** `$$\s{2,}|,\s*$$`: the alternatives in order. */
  function MatchParenEither(s: string): (r: Option<Hit>)
    requires s != []
    ensures r.Some? ==> Fits(r.value, s, 0, false)
  {
    var o := MatchParenOpen(s);
    if o.Some? then o else MatchParenClose(s)
  }

  // ---------------------------------------------------------------- structure

  /** The last line end in `s[lo..hi]`. */
  function LastLineEnd(s: string, lo: nat, hi: nat): (r: Option<nat>)
    requires lo <= hi <= |s|
    ensures r.Some? ==> lo <= r.value < hi && IsLineEnd(s[r.value])
    ensures r.Some? ==> forall t :: r.value < t < hi ==> !IsLineEnd(s[t])
    ensures r.None? ==> forall t :: lo <= t < hi ==> !IsLineEnd(s[t])
    decreases hi - lo
  {
    if lo == hi then None
    else if IsLineEnd(s[hi - 1]) then Some(hi - 1)
    else LastLineEnd(s, lo, hi - 1)
  }

  /** `^\s*([-_*]{3,})\s*$` with the m flag. The leading `\s*` (which may take
      earlier blank lines) and the run of three or more marks are greedy and
      giving back from them cannot help; the trailing `\s*` gives back until
      `$` holds: at the end of input, or else in front of the last line end
      it took. */
  function MatchSeparator(prev: Option<char>, s: string): (r: Option<Hit>)
    requires s != []
    ensures r.Some? ==> Fits(r.value, s, 3, false)
  {
    var w := Span(s, 0, Ws);
    var k := Span(s, w, OneOf({'-', '_', '*'}));
    var q := w + k;
    var t := Span(s, q, Ws);
    if !LineStart(prev) || k < 3 then None
    else if q + t == |s| then Some(Hit(|s|, ""))
    else
      match LastLineEnd(s, q, q + t)
      case Some(e) => Some(Hit(e, ""))
      case None => None
  }

  /** `\n{3,}` */
  function MatchBreakRun(s: string): (r: Option<Hit>)
    requires s != []
    ensures r.Some? ==> Fits(r.value, s, 1, false)
  {
    var r := Span(s, 0, Exactly('\n'));
    if r >= 3 then Some(Hit(r, "\n\n")) else None
  }

  /** ` {2,}` */
  function MatchSpaceRun(s: string): (r: Option<Hit>)
    requires s != []
    ensures r.Some? ==> Fits(r.value, s, 1, false)
  {
    var r := Span(s, 0, Exactly(' '));
    if r >= 2 then Some(Hit(r, " ")) else None
  }

  /** `[ \t]+$` with the m flag: giving back blanks leaves a blank where `$`
      must hold, so the whole run must end the line. */
  function MatchTrailingBlank(s: string): (r: Option<Hit>)
    requires s != []
    ensures r.Some? ==> Fits(r.value, s, 1, false)
  {
    var r := Span(s, 0, OneOf({' ', '\t'}));
    if r >= 1 && (r == |s| || IsLineEnd(s[r])) then Some(Hit(r, "")) else None
  }

  // ---------------------------------------------------------------- engine

  /** Does `p` match at the start of `s`, given the character before it? */
  function Match(p: Pattern, prev: Option<char>, s: string): (r: Option<Hit>)
    requires s != []
    ensures r.Some? ==> Fits(r.value, s, Shrink(p), Exact(p))
  {
    match p
    case BoldPair => MatchBold(s)
    case ItalicPair => MatchItalic(prev, s)
    case HeaderMark => MatchHeader(prev, s)
    case BulletMark => MatchMark(prev, s, {'-', '*', '+'})
    case NumberMark => MatchNumber(prev, s)
    case MarkdownLink => MatchLink(s)
    case InlineCode => MatchInlineCode(s)
    case CodeFence => MatchCodeFence(s)
    case QuoteMark => MatchMark(prev, s, {'>'})
    case TableRow => MatchTableRow(prev, s)
    case HeresA => MatchPhrase(prev, s, "here", true, "s a")
    case WorthNoting => MatchPhrase(prev, s, "it", true, "s worth noting")
    case InConclusion => MatchPhrase(prev, s, "in conclusion", false, "")
    case WsCollapse => MatchWsCollapse(s)
    case Transition => MatchTransition(prev, s)
    case Hedge => MatchHedge(prev, s)
    case ParenOpen => MatchParenOpen(s)
    case ParenClose => MatchParenClose(s)
    case ParenEither => MatchParenEither(s)
    case Separator => MatchSeparator(prev, s)
    case BreakRun => MatchBreakRun(s)
    case SpaceRun => MatchSpaceRun(s)
    case TrailingBlank => MatchTrailingBlank(s)
  }

  /** The dispatch for `,\s*$$`. */
  lemma MatchParenCloseIs(prev: Option<char>, s: string)
    requires s != []
    ensures Match(ParenClose, prev, s) == MatchParenClose(s)
  {
  }

  /** The dispatch for `[ \t]+$$` (multiline). */
  lemma MatchTrailingBlankIs(prev: Option<char>, s: string)
    requires s != []
    ensures Match(TrailingBlank, prev, s) == MatchTrailingBlank(s)
  {
  }

  /** `s.replace(re, ...)` together with `(s.match(re) || []).length` for a
      global pattern: scanning left to right, a match is replaced and the
      scan resumes after it; where nothing matches the character is kept and
      the scan moves on by one. No pattern here matches the empty string, so
      the end of input never adds a match. */
  function Replace(p: Pattern, prev: Option<char>, s: string): (r: Outcome)
    ensures r.n == 0 ==> r.text == s
    ensures |r.text| + Shrink(p) * r.n <= |s|
    ensures Exact(p) ==> |r.text| + Shrink(p) * r.n == |s|
    ensures Marks(p).Some? ==> Outside(r.text, Marks(p).value) == Outside(s, Marks(p).value)
    decreases |s|
  {
    if s == [] then Outcome([], 0)
    else
      match Match(p, prev, s)
      case Some(h) =>
        var rest := Replace(p, Some(s[h.len - 1]), s[h.len..]);
        assert Shrink(p) * (rest.n + 1) == Shrink(p) * rest.n + Shrink(p);
        if Marks(p).Some? then
          MatchDrops(p, prev, s);
          DropHit(Marks(p).value, s, h, rest.text);
          Outcome(h.repl + rest.text, rest.n + 1)
        else Outcome(h.repl + rest.text, rest.n + 1)
      case None =>
        var rest := Replace(p, Some(s[0]), s[1..]);
        assert rest.n == 0 ==> [s[0]] + rest.text == s;
        if Marks(p).Some? then
          DropKeep(Marks(p).value, s, rest.text);
          Outcome([s[0]] + rest.text, rest.n)
        else Outcome([s[0]] + rest.text, rest.n)
  }

  /** No replacement makes the text longer. */
  lemma ReplaceNoLonger(p: Pattern, prev: Option<char>, s: string)
    ensures |Replace(p, prev, s).text| <= |s|
  {
    var r := Replace(p, prev, s);
    var k := Shrink(p);
    assert k * r.n >= 0;
  }

  /** One step of the scan where nothing matches: the character is kept. */
  lemma ReplaceKeep(p: Pattern, prev: Option<char>, s: string)
    requires s != [] && Match(p, prev, s).None?
    ensures var rest := Replace(p, Some(s[0]), s[1..]);
      Replace(p, prev, s) == Outcome([s[0]] + rest.text, rest.n)
  {
  }

  /** One step of the scan at a match: the replacement, then the scan after it. */
  lemma ReplaceHit(p: Pattern, prev: Option<char>, s: string)
    requires s != [] && Match(p, prev, s).Some?
    ensures var h := Match(p, prev, s).value;
      var rest := Replace(p, Some(s[h.len - 1]), s[h.len..]);
      Replace(p, prev, s) == Outcome(h.repl + rest.text, rest.n + 1)
  {
  }

  // ---------------------------------------------------------------- what a match removes

  const DigitsAndDot: set<char> := {'0', '1', '2', '3', '4', '5', '6', '7', '8', '9', '.'}

  /** The characters the matches of a markdown pattern remove: delimiters,
      marks and the whitespace around them. The other patterns remove words,
      or rewrite whitespace, and have none. */
  function Marks(p: Pattern): Option<CharClass> {
    match p
    case BoldPair => Some(OneOf({'*'}))
    case ItalicPair => Some(OneOf({'*'}))
    case HeaderMark => Some(WsOr({'#'}))
    case BulletMark => Some(WsOr({'-', '*', '+'}))
    case NumberMark => Some(WsOr(DigitsAndDot))
    case InlineCode => Some(OneOf({'`'}))
    case CodeFence => Some(OneOf({'`'}))
    case QuoteMark => Some(WsOr({'>'}))
    case TableRow => Some(OneOf({'|', ' ', '-'}))
    case Separator => Some(WsOr({'-', '_', '*'}))
    case _ => None
  }

  /** A match that keeps the text between two delimiters of the class. */
  lemma DropEdges(s: string, a: nat, b: nat, e: nat, cls: CharClass)
    requires a <= b <= e <= |s|
    requires forall k :: 0 <= k < a ==> In(s[k], cls)
    requires forall k :: b <= k < e ==> In(s[k], cls)
    ensures Outside(s[a..b], cls) == Outside(s[..e], cls)
  {
    assert s[..e] == s[..a] + s[a..b] + s[b..e];
    OutsideAppend(s[..a] + s[a..b], s[b..e], cls);
    OutsideAppend(s[..a], s[a..b], cls);
    OutsideNone(s[..a], cls);
    OutsideNone(s[b..e], cls);
  }

  /** A match that removes all it takes. */
  lemma DropAll(s: string, e: nat, cls: CharClass)
    requires e <= |s|
    requires forall k :: 0 <= k < e ==> In(s[k], cls)
    ensures Outside([], cls) == Outside(s[..e], cls)
  {
    OutsideNone(s[..e], cls);
  }

  /** A run of the class replaced by text of the class: nothing is left
      outside the class on either side. */
  lemma RunDrops(s: string, e: nat, repl: string, cls: CharClass)
    requires e <= |s|
    requires forall k :: 0 <= k < e ==> In(s[k], cls)
    requires forall k :: 0 <= k < |repl| ==> In(repl[k], cls)
    ensures Outside(repl, cls) == Outside(s[..e], cls)
  {
    OutsideNone(s[..e], cls);
    OutsideNone(repl, cls);
  }

  lemma BoldDrops(s: string)
    requires s != [] && MatchBold(s).Some?
    ensures Outside(MatchBold(s).value.repl, OneOf({'*'})) == Outside(s[..MatchBold(s).value.len], OneOf({'*'}))
  {
    var q := FindFrom(s, "**", 2).value;
    assert s[0] == s[..2][0] && s[1] == s[..2][1];
    assert s[q] == s[q..q + 2][0] && s[q + 1] == s[q..q + 2][1];
    DropEdges(s, 2, q, q + 2, OneOf({'*'}));
  }

  lemma FenceDrops(s: string)
    requires s != [] && MatchCodeFence(s).Some?
    ensures Outside(MatchCodeFence(s).value.repl, OneOf({'`'})) == Outside(s[..MatchCodeFence(s).value.len], OneOf({'`'}))
  {
    var q := FindFrom(s, "```", 3).value;
    assert s[0] == s[..3][0] && s[1] == s[..3][1] && s[2] == s[..3][2];
    assert s[q] == s[q..q + 3][0] && s[q + 1] == s[q..q + 3][1] && s[q + 2] == s[q..q + 3][2];
    DropEdges(s, 3, q, q + 3, OneOf({'`'}));
  }

  lemma InlineCodeDrops(s: string)
    requires s != [] && MatchInlineCode(s).Some?
    ensures Outside(MatchInlineCode(s).value.repl, OneOf({'`'})) == Outside(s[..MatchInlineCode(s).value.len], OneOf({'`'}))
  {
    var r := Span(s, 1, NoneOf('`'));
    DropEdges(s, 1, 1 + r, r + 2, OneOf({'`'}));
  }

  lemma ItalicDrops(prev: Option<char>, s: string)
    requires s != [] && MatchItalic(prev, s).Some?
    ensures Outside(MatchItalic(prev, s).value.repl, OneOf({'*'})) == Outside(s[..MatchItalic(prev, s).value.len], OneOf({'*'}))
  {
    if prev.None? && s[0] == '*' && NotWsAt(s, 1) && ItalicClose(s, 1).Some? {
      var c := ItalicClose(s, 1).value;
      DropEdges(s, 1, c, c + 1, OneOf({'*'}));
    } else {
      var c := ItalicClose(s, 2).value;
      assert MatchItalic(prev, s).value == Hit(c + 1, [s[0]] + s[2..c]);
      ItalicKeepsFirst(s, c);
    }
  }

  /** The `[^\*]` alternative: the character in front of the `*` is kept. */
  lemma ItalicKeepsFirst(s: string, c: nat)
    requires 2 <= c < |s| && s[1] == '*' && s[c] == '*'
    ensures Outside([s[0]] + s[2..c], OneOf({'*'})) == Outside(s[..c + 1], OneOf({'*'}))
  {
    var cls := OneOf({'*'});
    var t := s[1..];
    DropEdges(t, 1, c - 1, c, cls);
    assert t[1..c - 1] == s[2..c] && t[..c] == s[1..c + 1];
    assert s[..c + 1] == [s[0]] + s[1..c + 1];
    OutsideAppend([s[0]], s[2..c], cls);
    OutsideAppend([s[0]], s[1..c + 1], cls);
  }

  lemma HeaderDrops(prev: Option<char>, s: string)
    requires s != [] && MatchHeader(prev, s).Some?
    ensures Outside(MatchHeader(prev, s).value.repl, WsOr({'#'})) == Outside(s[..MatchHeader(prev, s).value.len], WsOr({'#'}))
  {
    var k := Span(s, 0, Exactly('#'));
    DropAll(s, k + Span(s, k, Ws), WsOr({'#'}));
  }

  lemma MarkDrops(prev: Option<char>, s: string, marks: set<char>)
    requires s != [] && MatchMark(prev, s, marks).Some?
    ensures Outside(MatchMark(prev, s, marks).value.repl, WsOr(marks)) == Outside(s[..MatchMark(prev, s, marks).value.len], WsOr(marks))
  {
    var w := Span(s, 0, Ws);
    DropAll(s, w + 1 + Span(s, w + 1, Ws), WsOr(marks));
  }

  lemma NumberDrops(prev: Option<char>, s: string)
    requires s != [] && MatchNumber(prev, s).Some?
    ensures Outside(MatchNumber(prev, s).value.repl, WsOr(DigitsAndDot)) == Outside(s[..MatchNumber(prev, s).value.len], WsOr(DigitsAndDot))
  {
    var w := Span(s, 0, Ws);
    var d := Span(s, w, Digit);
    var t := Span(s, w + d + 1, Ws);
    var cls := WsOr(DigitsAndDot);
    assert MatchNumber(prev, s).value.len == w + d + 1 + t;
    assert forall k :: 0 <= k < w ==> In(s[k], cls);
    assert forall k :: w <= k < w + d ==> s[k] in DigitsAndDot;
    assert In(s[w + d], cls);
    assert forall k :: w + d + 1 <= k < w + d + 1 + t ==> In(s[k], cls);
    DropAll(s, w + d + 1 + t, cls);
  }

  lemma SeparatorDrops(prev: Option<char>, s: string)
    requires s != [] && MatchSeparator(prev, s).Some?
    ensures Outside(MatchSeparator(prev, s).value.repl, WsOr({'-', '_', '*'})) == Outside(s[..MatchSeparator(prev, s).value.len], WsOr({'-', '_', '*'}))
  {
    var w := Span(s, 0, Ws);
    var k := Span(s, w, OneOf({'-', '_', '*'}));
    var t := Span(s, w + k, Ws);
    DropAll(s, MatchSeparator(prev, s).value.len, WsOr({'-', '_', '*'}));
  }

  /** Outside pipes, spaces and hyphens a rewritten table line is the line. */
  lemma TableCellsKeep(x: string)
    ensures Outside(TableCells(x), OneOf({'|', ' ', '-'})) == Outside(x, OneOf({'|', ' ', '-'}))
  {
    var cls := OneOf({'|', ' ', '-'});
    var y := Outside(x, OneOf({'-'}));
    OutsideWithin(TableCells(x), OneOf({'-'}), cls);
    ReplaceCharsOutside(y, {'|'}, " ", {'|', ' ', '-'});
    OutsideWithin(x, OneOf({'-'}), cls);
  }

  lemma TableRowDrops(prev: Option<char>, s: string)
    requires s != [] && MatchTableRow(prev, s).Some?
    ensures Outside(MatchTableRow(prev, s).value.repl, OneOf({'|', ' ', '-'})) == Outside(s[..MatchTableRow(prev, s).value.len], OneOf({'|', ' ', '-'}))
  {
    TableCellsKeep(s[..Span(s, 0, NotLineEnd)]);
  }

  /** The characters outside the class survive a match step of the scan
      when they survive the match and the scan after it. */
  lemma DropHit(cls: CharClass, s: string, h: Hit, rest: string)
    requires h.len <= |s|
    requires Outside(h.repl, cls) == Outside(s[..h.len], cls)
    requires Outside(rest, cls) == Outside(s[h.len..], cls)
    ensures Outside(h.repl + rest, cls) == Outside(s, cls)
  {
    OutsideAppend(h.repl, rest, cls);
    OutsideAppend(s[..h.len], s[h.len..], cls);
    assert s[..h.len] + s[h.len..] == s;
  }

  /** ... and a step that keeps a character. */
  lemma DropKeep(cls: CharClass, s: string, rest: string)
    requires s != []
    requires Outside(rest, cls) == Outside(s[1..], cls)
    ensures Outside([s[0]] + rest, cls) == Outside(s, cls)
  {
    OutsideAppend([s[0]], rest, cls);
    OutsideAppend([s[0]], s[1..], cls);
    assert [s[0]] + s[1..] == s;
  }

  /** Outside its pattern's marks, a match's replacement is the text it took. */
  lemma MatchDrops(p: Pattern, prev: Option<char>, s: string)
    requires s != [] && Marks(p).Some? && Match(p, prev, s).Some?
    ensures Outside(Match(p, prev, s).value.repl, Marks(p).value) == Outside(s[..Match(p, prev, s).value.len], Marks(p).value)
  {
    match p
    case BoldPair => BoldDrops(s);
    case ItalicPair => ItalicDrops(prev, s);
    case HeaderMark => HeaderDrops(prev, s);
    case BulletMark => MarkDrops(prev, s, {'-', '*', '+'});
    case NumberMark => NumberDrops(prev, s);
    case InlineCode => InlineCodeDrops(s);
    case CodeFence => FenceDrops(s);
    case QuoteMark => MarkDrops(prev, s, {'>'});
    case TableRow => TableRowDrops(prev, s);
    case Separator => SeparatorDrops(prev, s);
  }

  /** The character a whitespace-run pattern takes runs of and puts back. */
  function RunClass(p: Pattern): Option<CharClass> {
    match p
    case BreakRun => Some(OneOf({'\n'}))
    case SpaceRun => Some(OneOf({' '}))
    case TrailingBlank => Some(OneOf({' ', '\t'}))
    case _ => None
  }

  /** A match of a whitespace-run pattern takes and gives back only its class. */
  lemma RunMatchDrops(p: Pattern, prev: Option<char>, s: string)
    requires s != [] && RunClass(p).Some? && Match(p, prev, s).Some?
    ensures Outside(Match(p, prev, s).value.repl, RunClass(p).value) == Outside(s[..Match(p, prev, s).value.len], RunClass(p).value)
  {
    match p
    case BreakRun => RunDrops(s, MatchBreakRun(s).value.len, "\n\n", OneOf({'\n'}));
    case SpaceRun => RunDrops(s, MatchSpaceRun(s).value.len, " ", OneOf({' '}));
    case TrailingBlank =>
      MatchTrailingBlankIs(prev, s);
      RunDrops(s, MatchTrailingBlank(s).value.len, "", OneOf({' ', '\t'}));
  }

  /** Outside its class, a whitespace-run replacement keeps the text: only
      line feeds, spaces or blanks are taken out or put back. */
  lemma {:induction false} ReplaceKeepsRuns(p: Pattern, prev: Option<char>, s: string)
    requires RunClass(p).Some?
    ensures Outside(Replace(p, prev, s).text, RunClass(p).value) == Outside(s, RunClass(p).value)
    decreases |s|
  {
    if s != [] {
      var cls := RunClass(p).value;
      match Match(p, prev, s)
      case Some(h) =>
        ReplaceHit(p, prev, s);
        var rest := Replace(p, Some(s[h.len - 1]), s[h.len..]);
        ReplaceKeepsRuns(p, Some(s[h.len - 1]), s[h.len..]);
        RunMatchDrops(p, prev, s);
        DropHit(cls, s, h, rest.text);
      case None =>
        ReplaceKeep(p, prev, s);
        var rest := Replace(p, Some(s[0]), s[1..]);
        ReplaceKeepsRuns(p, Some(s[0]), s[1..]);
        DropKeep(cls, s, rest.text);
    }
  }
}
