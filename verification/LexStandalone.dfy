/**
 When an exemption comment counts as standing alone on its line. The lexer judges a comment inside a
 template expression against the expression's own text, so what stands before `${` goes unseen.
 */
module LexStandalone {
  import opened Options
  import opened LexText
  import opened LexOutput

  /** Only spaces lie between a `${` on the same line and offset `k`. */
  ghost predicate AfterOpening(t: string, k: nat, r: Rules)
    requires k <= |t|
  {
    exists b :: IsOpening(t, b, k, r)
  }

  ghost predicate IsOpening(t: string, b: nat, k: nat, r: Rules)
    requires k <= |t|
  {
    && LineStart(t, k) + 2 <= b <= k
    && Opens(t, b - 2, '$', '{')
    && Blank(t, b, k, r)
  }

  ghost predicate Blank(t: string, a: nat, b: nat, r: Rules)
    requires b <= |t|
  {
    forall i :: a <= i < b ==> r.space(t[i])
  }

  /** What the flag of a comment says of its line in the original text. */
  ghost predicate Judged(item: Item, t: string, r: Rules) {
    item.Note? && item.offset <= |t| ==>
      && (Alone(t, item.offset, r) ==> item.alone)
      && (item.alone ==> Alone(t, item.offset, r) || AfterOpening(t, item.offset, r))
  }

  /** For each item the offset at which the innermost template expression around it begins; 0 outside of all. */
  function Origins(t: string, k: nat, last: Option<string>, r: Rules): seq<nat>
    requires k <= |t|
    decreases |t|, 1, |t| - k
  {
    if k == |t| then []
    else
      var start := StartAt(t, k, last, r);
      var e := EndOf(t, k, start, r);
      var items := ItemsAt(t, k, e, start, r);
      OriginsAt(t, k, e, start, r) + Origins(t, e, LastValue(items, last), r)
  }

  function OriginsAt(t: string, k: nat, e: nat, start: Start, r: Rules): seq<nat>
    requires k < e <= |t|
    decreases |t|, 0, 0
  {
    if start.Backtick? then OriginsOfParts(t, k, TemplateParts(t, k + 1), r) else seq(|ItemsAt(t, k, e, start, r)|,
                                                                                      _ => 0)
  }

  function OriginsOfParts(t: string, k: nat, parts: seq<Range>, r: Rules): seq<nat>
    requires k < |t| && PartsWithin(parts, k + 1, |t|)
    decreases |t| - 1, 2, |parts|
  {
    if parts == [] then []
    else
      var p := parts[0];
      var inner := Origins(t[p.lo..p.hi], 0, None, r);
      seq(|inner|, i requires 0 <= i < |inner| => inner[i] + p.lo) + OriginsOfParts(t, k, parts[1..], r)
  }

  predicate IsOrigin(t: string, a: nat) { a == 0 || (2 <= a <= |t| && Opens(t, a - 2, '$', '{')) }

  /** A comment is flagged exactly if on its line nothing but spaces lies between the expression's begin and itself. */
  ghost predicate Flagged(item: Item, a: nat, t: string, r: Rules) {
    && IsOrigin(t, a)
    && (item.Note? ==> a <= item.offset <= |t| && (item.alone <==> Blank(t, Later(a, LineStart(t, item.offset)),
                                                                         item.offset, r)))
  }

  function Later(a: nat, b: nat): nat { if a < b then b else a }

  ghost predicate AllFlagged(items: seq<Item>, origins: seq<nat>, t: string, r: Rules) {
    |origins| == |items| && forall i :: 0 <= i < |items| ==> Flagged(items[i], origins[i], t, r)
  }

  // ----- an expression and the text around it -----

  lemma BlankInPart(part: string, t: string, w: nat, a: nat, b: nat, r: Rules)
    requires w + |part| <= |t| && part == t[w..w + |part|] && b <= |part|
    ensures Blank(part, a, b, r) <==> Blank(t, w + a, w + b, r)
  {
    if Blank(part, a, b, r) {
      forall i | w + a <= i < w + b ensures r.space(t[i]) {
        assert t[i] == part[i - w];
      }
    } else {
      var i :| a <= i < b && !r.space(part[i]);
      assert t[w + i] == part[i];
    }
  }

  lemma OpeningLineStart(t: string, lo: nat)
    requires 2 <= lo <= |t| && Opens(t, lo - 2, '$', '{')
    ensures LineStart(t, lo) + 2 <= lo
  {
    assert LineStart(t, lo) == LineStart(t, lo - 1) == LineStart(t, lo - 2);
  }

  /**
   A comment at offset `o` of an expression stands alone on its line of the whole text if and only
   if it does so in the expression and the expression has begun a new line before it.
   */
  lemma AloneInExpression(part: string, t: string, lo: nat, o: nat, r: Rules)
    requires 2 <= lo && lo + |part| <= |t| && part == t[lo..lo + |part|] && o <= |part|
    requires Opens(t, lo - 2, '$', '{') && !r.space('{')
    ensures Alone(t, lo + o, r) <==> Alone(part, o, r) && Newlines(part, o) > 0
  {
    NewlinesInPart(part, t, lo, o);
    OpeningLineStart(t, lo);
    if Newlines(part, o) > 0 {
      BlankInPart(part, t, lo, LineStart(part, o), o, r);
      assert Alone(part, o, r) <==> Blank(part, LineStart(part, o), o, r);
      assert Alone(t, lo + o, r) <==> Blank(t, lo + LineStart(part, o), lo + o, r);
    } else {
      assert !r.space(t[lo - 1]);
    }
  }

  lemma FlaggedInPart(item: Item, a: nat, part: string, t: string, lo: nat, r: Rules)
    requires 2 <= lo && lo + |part| <= |t| && part == t[lo..lo + |part|] && Opens(t, lo - 2, '$', '{')
    requires Flagged(item, a, part, r)
    ensures Flagged(ShiftItem(item, lo), a + lo, t, r)
  {
    if a > 0 {
      assert t[lo + a - 2] == part[a - 2] && t[lo + a - 1] == part[a - 1];
    }
    if item.Note? {
      var o := item.offset;
      NewlinesInPart(part, t, lo, o);
      var from := Later(a, LineStart(part, o));
      assert Later(a + lo, LineStart(t, lo + o)) == lo + from;
      BlankInPart(part, t, lo, from, o, r);
    }
  }

  lemma {:induction false} SameLine(t: string, a: nat, b: nat)
    requires a <= b <= |t| && LineStart(t, b) < a
    ensures LineStart(t, a) == LineStart(t, b)
  {
    if a < b {
      SameLine(t, a, b - 1);
    }
  }

  lemma FlaggedIsJudged(item: Item, a: nat, t: string, r: Rules)
    requires Flagged(item, a, t, r)
    ensures Judged(item, t, r)
  {
    if item.Note? {
      var o := item.offset;
      var start := LineStart(t, o);
      assert Alone(t, o, r) <==> Blank(t, start, o, r);
      if item.alone && start < a {
        SameLine(t, a, o);
        OpeningLineStart(t, a);
        assert IsOpening(t, a, o, r);
      }
    }
  }

  // ----- at every depth -----

  ghost predicate AllOpened(parts: seq<Range>, t: string) {
    forall i :: 0 <= i < |parts| ==> 2 <= parts[i].lo && Opens(t, parts[i].lo - 2, '$', '{')
  }

  lemma {:induction false} TemplateIsOpened(t: string, k: nat, escaped: bool, found: seq<Range>)
    requires k <= |t| + 1 && AllOpened(found, t)
    ensures AllOpened(TemplateFrom(t, k, escaped, found).parts, t)
    decreases |t| + 1 - k
  {
    if k < |t| && (escaped || t[k] != '`') {
      if !escaped && Opens(t, k, '$', '{') {
        var e := ExpressionEnd(t, k + 2, 1);
        TemplateIsOpened(t, e + 1, false, found + [Range(k + 2, e)]);
      } else {
        TemplateIsOpened(t, k + 1, !escaped && t[k] == '\\', found);
      }
    }
  }

  lemma JoinFlagged(a: seq<Item>, x: seq<nat>, b: seq<Item>, y: seq<nat>, t: string, r: Rules)
    requires AllFlagged(a, x, t, r) && AllFlagged(b, y, t, r)
    ensures AllFlagged(a + b, x + y, t, r)
  {
  }

  lemma ShiftFlagged(items: seq<Item>, origins: seq<nat>, part: string, t: string, lo: nat, r: Rules)
    returns (moved: seq<nat>)
    requires 2 <= lo && lo + |part| <= |t| && part == t[lo..lo + |part|] && Opens(t, lo - 2, '$', '{')
    requires AllFlagged(items, origins, part, r)
    ensures moved == seq(|origins|, i requires 0 <= i < |origins| => origins[i] + lo)
    ensures AllFlagged(Shift(items, lo), moved, t, r)
  {
    moved := seq(|origins|, i requires 0 <= i < |origins| => origins[i] + lo);
    forall i | 0 <= i < |items| ensures Flagged(Shift(items, lo)[i], moved[i], t, r) {
      assert Flagged(items[i], origins[i], part, r);
      FlaggedInPart(items[i], origins[i], part, t, lo, r);
    }
  }

  lemma {:induction false} PartsFlagged(t: string, k: nat, parts: seq<Range>, r: Rules)
    requires k < |t| && PartsWithin(parts, k + 1, |t|) && AllOpened(parts, t)
    ensures AllFlagged(LexParts(t, k, parts, r), OriginsOfParts(t, k, parts, r), t, r)
    decreases |t| - 1, 2, |parts|
  {
    if parts != [] {
      var p, rest := parts[0], parts[1..];
      var part := t[p.lo..p.hi];
      FlagIsBlankInExpression(part, 0, None, r);
      var moved := ShiftFlagged(Lex(part, 0, None, r), Origins(part, 0, None, r), part, t, p.lo, r);
      assert AllOpened(rest, t);
      PartsFlagged(t, k, rest, r);
      JoinFlagged(Shift(Lex(part, 0, None, r), p.lo), moved, LexParts(t, k, rest, r), OriginsOfParts(t, k, rest, r), t,
                  r);
    }
  }

  lemma {:induction false} ItemsFlagged(t: string, k: nat, last: Option<string>, r: Rules)
    requires k < |t|
    ensures var start := StartAt(t, k, last, r);
            var e := EndOf(t, k, start, r);
            AllFlagged(ItemsAt(t, k, e, start, r), OriginsAt(t, k, e, start, r), t, r)
    decreases |t|, 0, 0
  {
    if StartAt(t, k, last, r).Backtick? {
      TemplateIsOpened(t, k + 1, false, []);
      PartsFlagged(t, k, TemplateParts(t, k + 1), r);
    }
  }

  /**
   The flag, exactly and however deep in templates a comment lies: it is set if and only if on the
   comment's line nothing but spaces lies between the begin of the innermost expression around it and
   itself.
   */
  lemma {:induction false} FlagIsBlankInExpression(t: string, k: nat, last: Option<string>, r: Rules)
    requires k <= |t|
    ensures AllFlagged(Lex(t, k, last, r), Origins(t, k, last, r), t, r)
    decreases |t|, 1, |t| - k
  {
    if k < |t| {
      var start := StartAt(t, k, last, r);
      var e := EndOf(t, k, start, r);
      var items := ItemsAt(t, k, e, start, r);
      var next := LastValue(items, last);
      ItemsFlagged(t, k, last, r);
      FlagIsBlankInExpression(t, e, next, r);
      JoinFlagged(items, OriginsAt(t, k, e, start, r), Lex(t, e, next, r), Origins(t, e, next, r), t, r);
      LexStep(t, k, last, r);
    }
  }

  /**
   So a comment that stands alone on its line is flagged, and one flagged that does not has nothing
   but spaces between a `${` and itself.
   */
  lemma EveryCommentJudged(t: string, k: nat, last: Option<string>, r: Rules, i: nat)
    requires k <= |t| && i < |Lex(t, k, last, r)|
    ensures Judged(Lex(t, k, last, r)[i], t, r)
  {
    FlagIsBlankInExpression(t, k, last, r);
    FlaggedIsJudged(Lex(t, k, last, r)[i], Origins(t, k, last, r)[i], t, r);
  }

  lemma ExpressionIsFlagged(r: Rules)
    requires r.exemption("//x") == Some("x") && !r.space('/')
    ensures Lex("//x\n", 0, None, r) == [Note("x", 0, true)]
  {
    var part := "//x\n";
    assert LineEnd(part, 2) == 3;
    assert part[0..3] == "//x";
    assert StartAt(part, 0, None, r) == LineComment;
    assert ItemsAt(part, 0, 3, LineComment, r) == [Note("x", 0, true)];
    assert StartAt(part, 3, None, r) == Start.Blank;
    assert Lex(part, 4, None, r) == [];
    assert Lex(part, 3, None, r) == [];
    LexStep(part, 0, None, r);
    assert Lex(part, 0, None, r) == [Note("x", 0, true)];
  }

  /** A comment right after `${` is flagged, though the template stands before it on the line. */
  lemma OpeningCommentIsFlagged(r: Rules)
    requires r.exemption("//x") == Some("x")
    requires !r.space('`') && !r.space('/')
    ensures var t := "`${//x\n}`";
            Lex(t, 0, None, r) == [Note("x", 3, true)] && !Alone(t, 3, r)
  {
    var t := "`${//x\n}`";
    var part := "//x\n";
    ExpressionIsFlagged(r);
    assert Depth('\n', 1) == 1;
    assert ExpressionEnd(t, 6, 1) == 7;
    assert ExpressionEnd(t, 3, 1) == 7;
    assert TemplateFrom(t, 8, false, [Range(3, 7)]) == Template(9, [Range(3, 7)]);
    assert TemplateFrom(t, 1, false, []) == Template(9, [Range(3, 7)]);
    assert t[3..7] == part;
    var parts := [Range(3, 7)];
    assert parts[1..] == [];
    assert LexParts(t, 0, parts, r) == Shift(Lex(part, 0, None, r), 3) + LexParts(t, 0, [], r);
    assert StartAt(t, 0, None, r) == Backtick;
    LexStep(t, 0, None, r);
    assert LineStart(t, 3) == 0;
    assert !r.space(t[0]);
  }
}
