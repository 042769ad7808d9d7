/**
 What the TypeScript timer rule sees in a text, said by offsets: how long comments, literals and
 templates are, and which tokens and exemption comments lie where. Nothing here counts lines as it
 goes; a template's expressions are read in place, at their offsets in the original text.
 */
module LexText {
  import opened Options

  /** Character classes, the exemption pattern and string cooking, as the host language defines them. */
  datatype Rules = Rules(space: char -> bool, alpha: char -> bool, alnum: char -> bool,
                         exemption: string -> Option<string>, cook: string -> string)

  // ----- lines -----

  /** The number of newlines before offset `i`. */
  function Newlines(t: string, i: nat): nat
    requires i <= |t|
  {
    if i == 0 then 0 else Newlines(t, i - 1) + (if t[i - 1] == '\n' then 1 else 0)
  }

  /** The offset at which the line of offset `i` starts. */
  function LineStart(t: string, i: nat): (j: nat)
    requires i <= |t|
    ensures j <= i
  {
    if i == 0 then 0 else if t[i - 1] == '\n' then i else LineStart(t, i - 1)
  }

  // ----- where things end -----

  /** After the closing quote of a literal whose content goes on at `k`, or the end. */
  function QuotedEnd(t: string, k: nat, quote: char, escaped: bool): (e: nat)
    requires k <= |t|
    ensures k <= e <= |t|
    decreases |t| - k
  {
    if k == |t| then k
    else if !escaped && t[k] != '\\' && t[k] == quote then k + 1
    else QuotedEnd(t, k + 1, quote, !escaped && t[k] == '\\')
  }

  /** After the first star and slash from `k` on, or the end. */
  function BlockCommentEnd(t: string, k: nat): (e: nat)
    requires k <= |t|
    ensures k <= e <= |t|
    decreases |t| - k
  {
    if k + 1 >= |t| then |t|
    else if t[k] == '*' && t[k + 1] == '/' then k + 2
    else BlockCommentEnd(t, k + 1)
  }

  /** The first newline from `k` on, or the end. */
  function LineEnd(t: string, k: nat): (e: nat)
    requires k <= |t|
    ensures k <= e <= |t|
    decreases |t| - k
  {
    if k == |t| || t[k] == '\n' then k else LineEnd(t, k + 1)
  }

  predicate IsWordChar(r: Rules, c: char) { r.alnum(c) || c == '_' || c == '$' }

  function WordEnd(t: string, k: nat, r: Rules): (e: nat)
    requires k <= |t|
    ensures k <= e <= |t|
    decreases |t| - k
  {
    if k == |t| || !IsWordChar(r, t[k]) then k else WordEnd(t, k + 1, r)
  }

  function FlagsEnd(t: string, k: nat, r: Rules): (e: nat)
    requires k <= |t|
    ensures k <= e <= |t|
    decreases |t| - k
  {
    if k == |t| || !r.alpha(t[k]) then k else FlagsEnd(t, k + 1, r)
  }

  /** After a regular expression and its flags; a newline ends it, and a slash in a class does not. */
  function RegexEnd(t: string, k: nat, escaped: bool, inClass: bool, r: Rules): (e: nat)
    requires k <= |t|
    ensures k <= e <= |t|
    decreases |t| - k
  {
    if k == |t| || t[k] == '\n' then k
    else if !escaped && t[k] == '/' && !inClass then FlagsEnd(t, k + 1, r)
    else RegexEnd(t, k + 1, !escaped && t[k] == '\\',
                  if escaped then inClass else if t[k] == '[' then true else if t[k] == ']' then false else inClass, r)
  }

  predicate Opens(t: string, k: nat, first: char, second: char) {
    k + 1 < |t| && t[k] == first && t[k + 1] == second
  }

  datatype Range = Range(lo: nat, hi: nat)

  /** Where a template ends, and the ranges of its `${...}` expressions. */
  datatype Template = Template(end: nat, parts: seq<Range>)

  ghost predicate PartsWithin(parts: seq<Range>, k: nat, n: nat) {
    forall i :: 0 <= i < |parts| ==> k <= parts[i].lo <= parts[i].hi <= n
  }

  /** The template from `k` on, when `found` are the expressions before. */
  function TemplateFrom(t: string, k: nat, escaped: bool, found: seq<Range>): (r: Template)
    requires k <= |t| + 1
    ensures r.end <= |t| && (k <= |t| ==> k <= r.end)
    decreases |t| + 1 - k, 2
  {
    if k >= |t| then Template(|t|, found)
    else if !escaped && t[k] == '`' then Template(k + 1, found)
    else if !escaped && Opens(t, k, '$', '{') then
      var e := ExpressionEnd(t, k + 2, 1);
      TemplateFrom(t, e + 1, false, found + [Range(k + 2, e)])
    else TemplateFrom(t, k + 1, !escaped && t[k] == '\\', found)
  }

  /** The brace that closes the expression from `k` on, or the end. */
  function ExpressionEnd(t: string, k: nat, depth: nat): (e: nat)
    requires k <= |t|
    ensures k <= e <= |t|
    decreases |t| + 1 - k, 1
  {
    if k == |t| || (t[k] == '}' && depth <= 1) then k
    else ExpressionEnd(t, AfterExpressionChar(t, k), Depth(t[k], depth))
  }

  function Depth(c: char, depth: nat): nat {
    if c == '{' then depth + 1 else if c == '}' && depth > 0 then depth - 1 else depth
  }

  /** After what an expression's scanner takes in one go: a literal, a template, a comment or one character. */
  function AfterExpressionChar(t: string, k: nat): (e: nat)
    requires k < |t|
    ensures k < e <= |t|
    decreases |t| + 1 - k, 0
  {
    if t[k] == '\'' || t[k] == '"' then QuotedEnd(t, k + 1, t[k], false)
    else if t[k] == '`' then TemplateFrom(t, k + 1, false, []).end
    else if Opens(t, k, '/', '/') then LineEnd(t, k + 2)
    else if Opens(t, k, '/', '*') then BlockCommentEnd(t, k + 2)
    else k + 1
  }

  // ----- tokens and exemption comments -----

  datatype Item =
    | Tok(value: string, offset: nat, quoted: bool)
    | Note(reason: string, offset: nat, alone: bool)

  const REGEX_PREFIXES: set<string> :=
    {"(", "[", "{", "=", ",", ":", ";", "!", "&", "|", "?", "return", "case", "throw"}

  /** Whether a slash after a token of this value begins a regular expression. */
  predicate RegexCanStart(last: Option<string>) {
    last.None? || last.value in REGEX_PREFIXES
  }

  /** Only spaces lie between the start of the line and offset `k`. */
  predicate Alone(t: string, k: nat, r: Rules)
    requires k <= |t|
  {
    forall i :: LineStart(t, k) <= i < k ==> r.space(t[i])
  }

  function LastValue(items: seq<Item>, last: Option<string>): Option<string> {
    if items == [] then last
    else if items[|items| - 1].Tok? then Some(items[|items| - 1].value)
    else LastValue(items[..|items| - 1], last)
  }

  /** The content of a literal, without its quotes; an unclosed one ends with the text. */
  function RawQuoted(u: string): string
    requires u != ""
  {
    if u[|u| - 1] != u[0] then u[1..] else if |u| == 1 then "" else u[1..|u| - 1]
  }

  /** What begins at a character of code. */
  datatype Start = Blank | LineComment | BlockComment | Regex | Literal | Backtick | Word | Punctuation

  function StartAt(t: string, k: nat, last: Option<string>, r: Rules): Start
    requires k < |t|
  {
    if t[k] == '\n' || r.space(t[k]) then Blank
    else if Opens(t, k, '/', '/') then LineComment
    else if Opens(t, k, '/', '*') then BlockComment
    else if t[k] == '/' && RegexCanStart(last) then Regex
    else if t[k] == '\'' || t[k] == '"' then Literal
    else if t[k] == '`' then Backtick
    else if r.alpha(t[k]) || t[k] == '_' || t[k] == '$' then Word
    else Punctuation
  }

  /** Where what begins at `k` ends. */
  function EndOf(t: string, k: nat, start: Start, r: Rules): (e: nat)
    requires k < |t| && (start.LineComment? || start.BlockComment? ==> k + 1 < |t|)
    ensures k < e <= |t|
  {
    match start
    case Blank => k + 1
    case LineComment => LineEnd(t, k + 2)
    case BlockComment => BlockCommentEnd(t, k + 2)
    case Regex => RegexEnd(t, k + 1, false, false, r)
    case Literal => QuotedEnd(t, k + 1, t[k], false)
    case Backtick => TemplateFrom(t, k + 1, false, []).end
    case Word => WordEnd(t, k + 1, r)
    case Punctuation => k + 1
  }

  lemma {:induction false} TemplatePartsWithin(t: string, lo: nat, k: nat, escaped: bool, found: seq<Range>)
    requires lo <= k <= |t| + 1 && PartsWithin(found, lo, |t|)
    ensures PartsWithin(TemplateFrom(t, k, escaped, found).parts, lo, |t|)
    decreases |t| + 1 - k
  {
    if k < |t| && (escaped || t[k] != '`') {
      if !escaped && Opens(t, k, '$', '{') {
        var e := ExpressionEnd(t, k + 2, 1);
        TemplatePartsWithin(t, lo, e + 1, false, found + [Range(k + 2, e)]);
      } else {
        TemplatePartsWithin(t, lo, k + 1, !escaped && t[k] == '\\', found);
      }
    }
  }

  function TemplateParts(t: string, k: nat): (parts: seq<Range>)
    requires k <= |t|
    ensures PartsWithin(parts, k, |t|)
  {
    TemplatePartsWithin(t, k, k, false, []);
    TemplateFrom(t, k, false, []).parts
  }

  /** The items, with their offsets in `t`, of what begins at offset `k` and ends at `e`. */
  function ItemsAt(t: string, k: nat, e: nat, start: Start, r: Rules): seq<Item>
    requires k < e <= |t|
    decreases |t|, 0, 0
  {
    match start
    case LineComment =>
      var reason := r.exemption(t[k..e]);
      if reason.None? then [] else [Note(reason.value, k, Alone(t, k, r))]
    case Literal => [Tok(r.cook(RawQuoted(t[k..e])), k, true)]
    case Backtick => LexParts(t, k, TemplateParts(t, k + 1), r)
    case Word => [Tok(t[k..e], k, false)]
    case Punctuation => [Tok(t[k..e], k, false)]
    case _ => []
  }

  /** Everything in `t` from offset `k` on. */
  function Lex(t: string, k: nat, last: Option<string>, r: Rules): seq<Item>
    requires k <= |t|
    decreases |t|, 1, |t| - k
  {
    if k == |t| then []
    else
      var start := StartAt(t, k, last, r);
      var e := EndOf(t, k, start, r);
      var items := ItemsAt(t, k, e, start, r);
      items + Lex(t, e, LastValue(items, last), r)
  }

  /** The expressions of a template opened at `k`, each read on its own and put at its offset in `t`. */
  function LexParts(t: string, k: nat, parts: seq<Range>, r: Rules): seq<Item>
    requires k < |t| && PartsWithin(parts, k + 1, |t|)
    decreases |t| - 1, 2, |parts|
  {
    if parts == [] then []
    else
      var p := parts[0];
      Shift(Lex(t[p.lo..p.hi], 0, None, r), p.lo) + LexParts(t, k, parts[1..], r)
  }

  function ShiftItem(item: Item, w: nat): Item { item.(offset := item.offset + w) }

  function Shift(items: seq<Item>, w: nat): seq<Item> {
    seq(|items|, i requires 0 <= i < |items| => ShiftItem(items[i], w))
  }

  // ----- lines of a part of a text -----

  /** Newlines up to an offset inside the part of `t` that starts at `w` and is `s`. */
  lemma {:induction false} NewlinesInPart(s: string, t: string, w: nat, k: nat)
    requires w + |s| <= |t| && s == t[w..w + |s|] && k <= |s|
    ensures Newlines(t, w + k) == Newlines(t, w) + Newlines(s, k)
    ensures LineStart(t, w + k) == if Newlines(s, k) == 0 then LineStart(t, w) else w + LineStart(s, k)
    ensures Newlines(s, k) == 0 ==> LineStart(s, k) == 0
  {
    if k > 0 {
      NewlinesInPart(s, t, w, k - 1);
      assert t[w + k - 1] == s[k - 1];
    }
  }
}
