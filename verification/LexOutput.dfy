/**
 From the items of a text to what the lexer returns: tokens, exemption reasons and standalone
 lines, each on the line of its offset in the text; and where items lie.
 */
module LexOutput {
  import opened Options
  import opened LexText

  datatype Token = Token(value: string, line: int, quoted: bool)

  // ----- what the items come to -----

  /** An item on its line. */
  datatype Emission = Shown(token: Token) | Exempted(reason: string, line: int, alone: bool)

  ghost function LineOf(t: string, first: int, offset: nat): int {
    if offset <= |t| then first + Newlines(t, offset) else first
  }

  ghost function EmissionOf(item: Item, t: string, first: int): Emission {
    match item
    case Tok(value, offset, quoted) => Shown(Token(value, LineOf(t, first, offset), quoted))
    case Note(reason, offset, alone) => Exempted(reason, LineOf(t, first, offset), alone)
  }

  ghost function Emissions(items: seq<Item>, t: string, first: int): seq<Emission> {
    seq(|items|, i requires 0 <= i < |items| => EmissionOf(items[i], t, first))
  }

  /** The tokens, in order. */
  function TokensOf(all: seq<Emission>): seq<Token> {
    if all == [] then []
    else TokensOf(all[..|all| - 1]) + if all[|all| - 1].Shown? then [all[|all| - 1].token] else []
  }

  /** The exemption reasons by line; the last comment on a line counts. */
  function ReasonsOf(all: seq<Emission>): map<int, string> {
    if all == [] then map[]
    else
      var rest, last := ReasonsOf(all[..|all| - 1]), all[|all| - 1];
      if last.Exempted? then rest[last.line := last.reason] else rest
  }

  /** The lines of the exemption comments that stand alone. */
  function StandaloneOf(all: seq<Emission>): set<int> {
    if all == [] then {}
    else
      var rest, last := StandaloneOf(all[..|all| - 1]), all[|all| - 1];
      if last.Exempted? && last.alone then rest + {last.line} else rest
  }

  /** Everything a lexer returns. */
  datatype Output = Output(tokens: seq<Token>, reasons: map<int, string>, standalone: set<int>)

  function Collect(all: seq<Emission>): Output {
    Output(TokensOf(all), ReasonsOf(all), StandaloneOf(all))
  }

  ghost function OutputOf(items: seq<Item>, t: string, first: int): Output {
    Collect(Emissions(items, t, first))
  }

  function Combine(a: Output, b: Output): Output {
    Output(a.tokens + b.tokens, a.reasons + b.reasons, a.standalone + b.standalone)
  }

  lemma CombineAssociative(a: Output, b: Output, c: Output)
    ensures Combine(Combine(a, b), c) == Combine(a, Combine(b, c))
  {
  }

  lemma {:induction false} CollectConcat(a: seq<Emission>, b: seq<Emission>)
    ensures Collect(a + b) == Combine(Collect(a), Collect(b))
  {
    if b == [] {
      assert a + b == a;
    } else {
      var front := b[..|b| - 1];
      assert (a + b)[..|a + b| - 1] == a + front;
      CollectConcat(a, front);
      ReasonsLast(Collect(a).reasons, Collect(front).reasons, b[|b| - 1]);
    }
  }

  lemma ReasonsLast(a: map<int, string>, b: map<int, string>, e: Emission)
    ensures e.Exempted? ==> (a + b)[e.line := e.reason] == a + b[e.line := e.reason]
  {
  }

  lemma OutputConcat(a: seq<Item>, b: seq<Item>, t: string, first: int)
    ensures OutputOf(a + b, t, first) == Combine(OutputOf(a, t, first), OutputOf(b, t, first))
  {
    assert Emissions(a + b, t, first) == Emissions(a, t, first) + Emissions(b, t, first);
    CollectConcat(Emissions(a, t, first), Emissions(b, t, first));
  }

  ghost predicate Within(items: seq<Item>, n: nat) {
    forall i :: 0 <= i < |items| ==> items[i].offset < n
  }

  lemma EmissionOfPart(item: Item, part: string, t: string, w: nat, first: int)
    requires w + |part| <= |t| && part == t[w..w + |part|] && item.offset < |part|
    ensures EmissionOf(item, part, first + Newlines(t, w)) == EmissionOf(ShiftItem(item, w), t, first)
  {
    NewlinesInPart(part, t, w, item.offset);
    assert ShiftItem(item, w).offset == item.offset + w;
  }

  /** Re-lexing a part from the line it starts on gives the lines of the original text. */
  lemma OutputOfPart(items: seq<Item>, part: string, t: string, w: nat, first: int)
    requires w + |part| <= |t| && part == t[w..w + |part|] && Within(items, |part|)
    ensures OutputOf(items, part, first + Newlines(t, w)) == OutputOf(Shift(items, w), t, first)
  {
    forall i | 0 <= i < |items|
      ensures EmissionOf(items[i], part, first + Newlines(t, w)) == EmissionOf(Shift(items, w)[i], t, first)
    {
      EmissionOfPart(items[i], part, t, w, first);
    }
    assert Emissions(items, part, first + Newlines(t, w)) == Emissions(Shift(items, w), t, first);
  }

  // ----- items lie where they say -----

  /** A comment that begins at `o` and ends, on its line, before `e` exempts for `reason`. */
  ghost predicate IsExemption(t: string, o: nat, e: nat, reason: string, r: Rules) {
    && o + 2 <= e <= |t| && Opens(t, o, '/', '/') && (forall i :: o <= i < e ==> t[i] != '\n')
    && r.exemption(t[o..e]) == Some(reason)
  }

  /**
   A word or punctuation item spells the text at its offset; a quoted one begins with a quote there; a
   note is of a comment there.
   */
  ghost predicate Located(item: Item, t: string, r: Rules) {
    && item.offset < |t|
    && match item
       case Tok(value, o, quoted) =>
         if quoted then t[o] == '\'' || t[o] == '"' else o + |value| <= |t| && value != "" && t[o..o + |value|] == value
       case Note(reason, o, _) => exists e :: IsExemption(t, o, e, reason, r)
  }

  ghost predicate InOrder(items: seq<Item>, lo: nat, hi: nat) {
    && (forall i :: 0 <= i < |items| ==> lo <= items[i].offset < hi)
    && (forall i, j :: 0 <= i < j < |items| ==> items[i].offset < items[j].offset)
  }

  ghost predicate AllLocated(items: seq<Item>, t: string, r: Rules) {
    forall i :: 0 <= i < |items| ==> Located(items[i], t, r)
  }

  lemma OrderConcat(a: seq<Item>, b: seq<Item>, lo: nat, mid: nat, hi: nat)
    requires lo <= mid <= hi && InOrder(a, lo, mid) && InOrder(b, mid, hi)
    ensures InOrder(a + b, lo, hi)
  {
  }

  lemma LocatedShift(items: seq<Item>, part: string, t: string, w: nat, r: Rules)
    requires w + |part| <= |t| && part == t[w..w + |part|] && AllLocated(items, part, r) && InOrder(items, 0, |part|)
    ensures AllLocated(Shift(items, w), t, r) && InOrder(Shift(items, w), w, w + |part|)
  {
    var shifted := Shift(items, w);
    forall i | 0 <= i < |shifted| ensures Located(shifted[i], t, r) {
      var item := items[i];
      assert Located(item, part, r);
      assert part[item.offset] == t[w + item.offset];
      if item.Tok? && !item.quoted {
        PartSlice(part, t, w, item.offset, item.offset + |item.value|);
      } else if item.Note? {
        var e :| IsExemption(part, item.offset, e, item.reason, r);
        ExemptionInPart(part, t, w, item.offset, e, item.reason, r);
      }
    }
  }

  lemma PartSlice(part: string, t: string, w: nat, a: nat, b: nat)
    requires w + |part| <= |t| && part == t[w..w + |part|] && a <= b <= |part|
    ensures part[a..b] == t[w + a..w + b]
  {
    forall i | 0 <= i < b - a ensures part[a..b][i] == t[w + a..w + b][i] {
      assert part[a + i] == t[w + a + i];
    }
  }

  lemma ExemptionInPart(part: string, t: string, w: nat, o: nat, e: nat, reason: string, r: Rules)
    requires w + |part| <= |t| && part == t[w..w + |part|] && IsExemption(part, o, e, reason, r)
    ensures IsExemption(t, w + o, w + e, reason, r)
  {
    PartSlice(part, t, w, o, e);
    forall i | w + o <= i < w + e ensures t[i] != '\n' {
      assert t[i] == part[i - w];
    }
    assert t[w + o] == part[o] && t[w + o + 1] == part[o + 1];
  }

  lemma {:induction false} NoNewlineBeforeLineEnd(t: string, k: nat)
    requires k <= |t|
    ensures forall i :: k <= i < LineEnd(t, k) ==> t[i] != '\n'
    decreases |t| - k
  {
    if k < |t| && t[k] != '\n' {
      NoNewlineBeforeLineEnd(t, k + 1);
    }
  }

  /** Template expressions follow one another between `lo` and `hi`. */
  ghost predicate Chained(parts: seq<Range>, lo: nat, hi: nat) {
    && (forall i :: 0 <= i < |parts| ==> lo <= parts[i].lo <= parts[i].hi <= hi)
    && (forall i, j :: 0 <= i < j < |parts| ==> parts[i].hi <= parts[j].lo)
  }

  lemma ChainMore(parts: seq<Range>, lo: nat, hi: nat, p: Range, end: nat)
    requires lo <= hi <= p.lo <= p.hi <= end && Chained(parts, lo, hi)
    ensures Chained(parts + [p], lo, end)
  {
  }

  lemma {:induction false} TemplateIsChained(t: string, lo: nat, k: nat, escaped: bool, found: seq<Range>)
    requires lo <= k <= |t| + 1 && Chained(found, lo, if k <= |t| then k else |t|)
    ensures var template := TemplateFrom(t, k, escaped, found); Chained(template.parts, lo, template.end)
    decreases |t| + 1 - k
  {
    if k < |t| && (escaped || t[k] != '`') {
      if !escaped && Opens(t, k, '$', '{') {
        var e := ExpressionEnd(t, k + 2, 1);
        ChainMore(found, lo, k, Range(k + 2, e), if e < |t| then e + 1 else e);
        TemplateIsChained(t, lo, e + 1, false, found + [Range(k + 2, e)]);
      } else {
        TemplateIsChained(t, lo, k + 1, !escaped && t[k] == '\\', found);
      }
    }
  }

  /** Items inside a template lie in its expressions, in order. */
  lemma {:induction false} PartsLieInOrder(t: string, k: nat, parts: seq<Range>, lo: nat, hi: nat, r: Rules)
    requires k < |t| && PartsWithin(parts, k + 1, |t|) && k < lo <= hi <= |t| && Chained(parts, lo, hi)
    ensures AllLocated(LexParts(t, k, parts, r), t, r) && InOrder(LexParts(t, k, parts, r), lo, hi)
    decreases |t| - 1, 2, |parts|
  {
    if parts != [] {
      var p, rest := parts[0], parts[1..];
      var part := t[p.lo..p.hi];
      LexLiesInOrder(part, 0, None, r);
      LocatedShift(Lex(part, 0, None, r), part, t, p.lo, r);
      assert forall i :: 0 <= i < |rest| ==> rest[i] == parts[i + 1];
      PartsLieInOrder(t, k, rest, p.hi, hi, r);
      OrderConcat(Shift(Lex(part, 0, None, r), p.lo), LexParts(t, k, rest, r), p.lo, p.hi, hi);
    }
  }

  lemma {:induction false} ItemsLieInOrder(t: string, k: nat, last: Option<string>, r: Rules)
    requires k < |t|
    ensures var start := StartAt(t, k, last, r);
            var e := EndOf(t, k, start, r);
            AllLocated(ItemsAt(t, k, e, start, r), t, r) && InOrder(ItemsAt(t, k, e, start, r), k, e)
    decreases |t|, 0, 0
  {
    var start := StartAt(t, k, last, r);
    var e := EndOf(t, k, start, r);
    if start.Backtick? {
      TemplateIsChained(t, k + 1, k + 1, false, []);
      PartsLieInOrder(t, k, TemplateParts(t, k + 1), k + 1, e, r);
    } else if start.LineComment? && r.exemption(t[k..e]).Some? {
      NoNewlineBeforeLineEnd(t, k + 2);
      assert IsExemption(t, k, e, r.exemption(t[k..e]).value, r);
    }
  }

  /**
   The items of a text lie in it in strictly increasing order, and each spells what the text has
   at its offset, however deep in nested templates it was read.
   */
  lemma {:induction false} LexLiesInOrder(t: string, k: nat, last: Option<string>, r: Rules)
    requires k <= |t|
    ensures AllLocated(Lex(t, k, last, r), t, r) && InOrder(Lex(t, k, last, r), k, |t|)
    decreases |t|, 1, |t| - k
  {
    if k < |t| {
      var start := StartAt(t, k, last, r);
      var e := EndOf(t, k, start, r);
      var items := ItemsAt(t, k, e, start, r);
      ItemsLieInOrder(t, k, last, r);
      LexLiesInOrder(t, e, LastValue(items, last), r);
      OrderConcat(items, Lex(t, e, LastValue(items, last), r), k, e, |t|);
    }
  }

  lemma {:induction false} TokenIsEmitted(all: seq<Emission>, k: nat) returns (i: nat)
    requires k < |TokensOf(all)|
    ensures i < |all| && all[i] == Shown(TokensOf(all)[k])
  {
    var front, last := all[..|all| - 1], all[|all| - 1];
    if k < |TokensOf(front)| {
      i := TokenIsEmitted(front, k);
    } else {
      i := |all| - 1;
    }
  }

  lemma {:induction false} ReasonIsEmitted(all: seq<Emission>, line: int) returns (i: nat)
    requires line in ReasonsOf(all)
    ensures i < |all| && all[i].Exempted? && all[i].line == line && all[i].reason == ReasonsOf(all)[line]
  {
    var front, last := all[..|all| - 1], all[|all| - 1];
    if last.Exempted? && last.line == line {
      i := |all| - 1;
    } else {
      i := ReasonIsEmitted(front, line);
    }
  }

  /**
   Every token is that of an item: it carries the start line plus the newlines before the item's
   offset, and spells the text there.
   */
  lemma TokenLineCounts(t: string, first: int, r: Rules, k: nat) returns (i: nat)
    requires k < |OutputOf(Lex(t, 0, None, r), t, first).tokens|
    ensures i < |Lex(t, 0, None, r)| && Lex(t, 0, None, r)[i].offset < |t|
    ensures var token, o := OutputOf(Lex(t, 0, None, r), t, first).tokens[k], Lex(t, 0, None, r)[i].offset;
            && token.line == first + Newlines(t, o)
            && if token.quoted then t[o] == '\'' || t[o] == '"'
               else o + |token.value| <= |t| && t[o..o + |token.value|] == token.value
  {
    var items := Lex(t, 0, None, r);
    LexLiesInOrder(t, 0, None, r);
    i := TokenIsEmitted(Emissions(items, t, first), k);
    assert Located(items[i], t, r);
  }

  /** Every exemption reason is that of an item, on the line of a comment of the text that exempts for it. */
  lemma ReasonLineCounts(t: string, first: int, r: Rules, line: int) returns (i: nat, e: nat)
    requires line in OutputOf(Lex(t, 0, None, r), t, first).reasons
    ensures i < |Lex(t, 0, None, r)|
    ensures var item, reason := Lex(t, 0, None, r)[i], OutputOf(Lex(t, 0, None, r), t, first).reasons[line];
            item.Note? && IsExemption(t, item.offset, e, reason, r) && line == first + Newlines(t, item.offset)
  {
    var items := Lex(t, 0, None, r);
    LexLiesInOrder(t, 0, None, r);
    i := ReasonIsEmitted(Emissions(items, t, first), line);
    assert Located(items[i], t, r);
    e :| IsExemption(t, items[i].offset, e, items[i].reason, r);
  }

  // ----- the last token -----

  function LastToken(tokens: seq<Token>): Option<string> {
    if tokens == [] then None else Some(tokens[|tokens| - 1].value)
  }

  lemma {:induction false} LastTokenOf(items: seq<Item>, t: string, first: int)
    ensures LastToken(OutputOf(items, t, first).tokens) == LastValue(items, None)
  {
    if items != [] {
      var front := items[..|items| - 1];
      assert Emissions(items, t, first)[..|items| - 1] == Emissions(front, t, first);
      LastTokenOf(front, t, first);
    }
  }

  lemma {:induction false} LastValueConcat(a: seq<Item>, b: seq<Item>, last: Option<string>)
    ensures LastValue(a + b, last) == LastValue(b, LastValue(a, last))
  {
    if b == [] {
      assert a + b == a;
    } else {
      assert (a + b)[..|a + b| - 1] == a + b[..|b| - 1];
      LastValueConcat(a, b[..|b| - 1], last);
    }
  }

  // ----- emitting -----

  /** `after` is `before` and then what `items` come to. */
  ghost predicate Adds(before: Output, after: Output, items: seq<Item>, t: string, first: int) {
    after == Combine(before, OutputOf(items, t, first))
  }

  lemma AddsNothing(before: Output, t: string, first: int)
    ensures Adds(before, before, [], t, first)
  {
    assert Emissions([], t, first) == [];
  }

  lemma AddsToken(before: Output, value: string, k: nat, quoted: bool, t: string, first: int)
    requires k <= |t|
    ensures Adds(before, before.(tokens := before.tokens + [Token(value, first + Newlines(t, k), quoted)]),
                 [Tok(value, k, quoted)], t, first)
  {
    var e := Shown(Token(value, first + Newlines(t, k), quoted));
    assert Emissions([Tok(value, k, quoted)], t, first) == [e];
    CollectOne(e);
  }

  lemma CollectOne(e: Emission)
    ensures e.Shown? ==> Collect([e]) == Output([e.token], map[], {})
    ensures e.Exempted? ==> Collect([e]) == Output([], map[e.line := e.reason], if e.alone then {e.line} else {})
  {
    var all := [e];
    assert all[..|all| - 1] == [];
    assert TokensOf(all) == TokensOf([]) + if e.Shown? then [e.token] else [];
    assert ReasonsOf(all) == if e.Exempted? then ReasonsOf([])[e.line := e.reason] else ReasonsOf([]);
    assert StandaloneOf(all) == if e.Exempted? && e.alone then StandaloneOf([]) + {e.line} else StandaloneOf([]);
  }

  lemma AddsNote(before: Output, reason: string, k: nat, alone: bool, t: string, first: int)
    requires k <= |t|
    ensures var line := first + Newlines(t, k);
            Adds(before,
                 Output(before.tokens, before.reasons[line := reason],
                        if alone then before.standalone + {line} else before.standalone),
                 [Note(reason, k, alone)], t, first)
  {
    var e := Exempted(reason, first + Newlines(t, k), alone);
    assert Emissions([Note(reason, k, alone)], t, first) == [e];
    CollectOne(e);
    CombineNote(before, reason, first + Newlines(t, k), alone);
  }

  lemma CombineNote(a: Output, reason: string, line: int, alone: bool)
    ensures Combine(a, Output([], map[line := reason], if alone then {line} else {}))
            == Output(a.tokens, a.reasons[line := reason], if alone then a.standalone + {line} else a.standalone)
  {
  }

  lemma AddsThen(a: Output, b: Output, c: Output, x: seq<Item>, y: seq<Item>, t: string, first: int)
    requires Adds(a, b, x, t, first) && Adds(b, c, y, t, first)
    ensures Adds(a, c, x + y, t, first)
  {
    OutputConcat(x, y, t, first);
    CombineAssociative(a, OutputOf(x, t, first), OutputOf(y, t, first));
  }

  /** What a text of its own emits is what its items come to in the text around it. */
  lemma AddsPart(before: Output, part: string, t: string, w: nat, first: int, r: Rules)
    requires w + |part| <= |t| && part == t[w..w + |part|]
    ensures var items := Lex(part, 0, None, r);
            Adds(before, Combine(before, OutputOf(items, part, first + Newlines(t, w))), Shift(items, w), t, first)
  {
    LexLiesInOrder(part, 0, None, r);
    OutputOfPart(Lex(part, 0, None, r), part, t, w, first);
  }

  // ----- one step of reading -----

  /** `items` are what the text holds before offset `k`. */
  ghost predicate ReadTo(items: seq<Item>, t: string, k: nat, r: Rules) {
    k <= |t| && items + Lex(t, k, LastValue(items, None), r) == Lex(t, 0, None, r)
  }

  lemma ReadNone(t: string, r: Rules)
    ensures ReadTo([], t, 0, r)
  {
  }

  lemma ReadAll(items: seq<Item>, t: string, r: Rules)
    requires ReadTo(items, t, |t|, r)
    ensures items == Lex(t, 0, None, r)
  {
  }

  lemma ReadMore(items: seq<Item>, t: string, k: nat, r: Rules)
    requires ReadTo(items, t, k, r) && k < |t|
    ensures var start := StartAt(t, k, LastValue(items, None), r);
            var e := EndOf(t, k, start, r);
            ReadTo(items + ItemsAt(t, k, e, start, r), t, e, r)
  {
    var last := LastValue(items, None);
    var start := StartAt(t, k, last, r);
    var e := EndOf(t, k, start, r);
    var more := ItemsAt(t, k, e, start, r);
    LastValueConcat(items, more, None);
    LexStep(t, k, last, r);
    Regroup(items, more, Lex(t, e, LastValue(more, last), r));
  }

  lemma LexStep(t: string, k: nat, last: Option<string>, r: Rules)
    requires k < |t|
    ensures var start := StartAt(t, k, last, r);
            var e := EndOf(t, k, start, r);
            var items := ItemsAt(t, k, e, start, r);
            Lex(t, k, last, r) == items + Lex(t, e, LastValue(items, last), r)
  {
  }

  lemma Regroup(a: seq<Item>, b: seq<Item>, c: seq<Item>)
    ensures (a + b) + c == a + (b + c)
  {
  }

  /** `items` are what the first `i` expressions of a template hold. */
  ghost predicate PartsRead(items: seq<Item>, t: string, k: nat, parts: seq<Range>, i: nat, r: Rules)
    requires k < |t| && PartsWithin(parts, k + 1, |t|)
  {
    i <= |parts| && items + LexParts(t, k, parts[i..], r) == LexParts(t, k, parts, r)
  }

  lemma PartsReadMore(items: seq<Item>, t: string, k: nat, parts: seq<Range>, i: nat, r: Rules)
    requires k < |t| && PartsWithin(parts, k + 1, |t|) && i < |parts| && PartsRead(items, t, k, parts, i, r)
    ensures PartsRead(items + Shift(Lex(t[parts[i].lo..parts[i].hi], 0, None, r), parts[i].lo), t, k, parts, i + 1, r)
  {
    var more := Shift(Lex(t[parts[i].lo..parts[i].hi], 0, None, r), parts[i].lo);
    assert parts[i..][1..] == parts[i + 1..];
    var rest := LexParts(t, k, parts[i + 1..], r);
    assert (items + more) + rest == items + (more + rest);
  }
}
