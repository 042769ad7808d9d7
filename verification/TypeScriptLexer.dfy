/**
 The lexer of the TypeScript timer rule. It walks one text with a cursor, counting lines as it
 goes, and lexes each template expression again as a text of its own. Its result is proved to be
 the items of LexText, each on the line its offset in the original text says.
 */
module TypeScriptLexer {
  import opened Options
  import opened LexText
  import opened LexOutput

  datatype Cursor = Cursor(index: nat, line: int, lineStart: nat)

  /** The cursor's line and line start are those of its index, counting from `first`. */
  ghost predicate At(t: string, first: int, c: Cursor) {
    c.index <= |t| && c.line == first + Newlines(t, c.index) && c.lineStart == LineStart(t, c.index)
  }

  function Advance(t: string, c: Cursor): (r: Cursor)
    requires c.index < |t|
  {
    if t[c.index] == '\n' then Cursor(c.index + 1, c.line + 1, c.index + 1) else Cursor(c.index + 1, c.line,
                                                                                        c.lineStart)
  }

  lemma AdvanceStaysAt(t: string, first: int, c: Cursor)
    requires At(t, first, c) && c.index < |t|
    ensures At(t, first, Advance(t, c))
  {
  }

  /** Characters without a newline leave the line alone. */
  lemma {:induction false} SameLine(t: string, a: nat, b: nat)
    requires a <= b <= |t| && forall i :: a <= i < b ==> t[i] != '\n'
    ensures Newlines(t, b) == Newlines(t, a) && LineStart(t, b) == LineStart(t, a)
  {
    if a < b {
      SameLine(t, a, b - 1);
    }
  }

  // ----- skipping -----

  /** The end of a block comment, by searching for its star and slash. */
  method FindCommentEnd(source: string, from: nat) returns (end: nat)
    requires from <= |source|
    ensures end == BlockCommentEnd(source, from)
  {
    end := from;
    while end + 1 < |source| && !(source[end] == '*' && source[end + 1] == '/')
      invariant from <= end <= |source|
      invariant BlockCommentEnd(source, from) == BlockCommentEnd(source, end)
    {
      end := end + 1;
    }
    end := if end + 1 < |source| then end + 2 else |source|;
  }

  /** The count of newlines in the text from the line's start to `b`, added to the line, is the line of `b`. */
  lemma {:induction false} CountedLines(t: string, a: nat, b: nat)
    requires a <= b <= |t|
    ensures Newlines(t, b) == Newlines(t, a) + Newlines(t[a..b], b - a)
  {
    if a < b {
      CountedLines(t, a, b - 1);
      assert t[a..b][..b - a - 1] == t[a..b - 1];
      SamePrefixNewlines(t[a..b], t[a..b - 1], b - a - 1);
    }
  }

  lemma {:induction false} SamePrefixNewlines(s: string, t: string, k: nat)
    requires k <= |s| && k <= |t| && s[..k] == t[..k]
    ensures Newlines(s, k) == Newlines(t, k)
  {
    if k > 0 {
      assert s[k - 1] == s[..k][k - 1] && t[k - 1] == t[..k][k - 1];
      assert s[..k - 1] == s[..k][..k - 1] && t[..k - 1] == t[..k][..k - 1];
      SamePrefixNewlines(s, t, k - 1);
    }
  }

  lemma {:induction false} LineStartLine(t: string, i: nat)
    requires i <= |t|
    ensures Newlines(t, LineStart(t, i)) == Newlines(t, i)
  {
    if i > 0 && t[i - 1] != '\n' {
      LineStartLine(t, i - 1);
    }
  }

  /** The offset after the last newline before `index`, by searching backwards; none keeps `otherwise`. */
  method AfterLastNewline(source: string, index: nat, otherwise: nat) returns (start: nat)
    requires index <= |source|
    requires Newlines(source, index) == 0 ==> otherwise == 0
    ensures start == LineStart(source, index)
  {
    var i := index;
    while i > 0 && source[i - 1] != '\n'
      invariant 0 <= i <= index
      invariant LineStart(source, i) == LineStart(source, index) && Newlines(source, i) == Newlines(source, index)
    {
      i := i - 1;
    }
    start := if i > 0 then i else otherwise;
  }

  method SkipBlockComment(source: string, c: Cursor, ghost first: int) returns (r: Cursor)
    requires At(source, first, c) && c.index + 2 <= |source|
    ensures At(source, first, r) && r.index == BlockCommentEnd(source, c.index + 2)
  {
    var index := FindCommentEnd(source, c.index + 2);
    LineStartLine(source, c.index);
    CountedLines(source, c.lineStart, index);
    var consumed := source[c.lineStart..index];
    var line := c.line + Newlines(consumed, |consumed|);
    NoNewlinesNoStart(source, c.index, index);
    var lineStart := AfterLastNewline(source, index, c.lineStart);
    r := Cursor(index, line, lineStart);
  }

  lemma {:induction false} NoNewlinesNoStart(t: string, a: nat, b: nat)
    requires a <= b <= |t|
    ensures Newlines(t, a) <= Newlines(t, b)
    ensures Newlines(t, a) == 0 ==> LineStart(t, a) == 0
  {
    if a < b {
      NoNewlinesNoStart(t, a, b - 1);
    } else if a > 0 && t[a - 1] != '\n' {
      NoNewlinesNoStart(t, a - 1, a - 1);
    }
  }

  method SkipQuoted(source: string, c: Cursor, quote: char, ghost first: int) returns (r: Cursor)
    requires At(source, first, c) && c.index < |source|
    ensures At(source, first, r) && r.index == QuotedEnd(source, c.index + 1, quote, false)
  {
    AdvanceStaysAt(source, first, c);
    r := Advance(source, c);
    var escaped := false;
    while r.index < |source|
      invariant c.index < r.index <= |source| && At(source, first, r)
      invariant QuotedEnd(source, c.index + 1, quote, false) == QuotedEnd(source, r.index, quote, escaped)
    {
      var ch := source[r.index];
      AdvanceStaysAt(source, first, r);
      r := Advance(source, r);
      if escaped {
        escaped := false;
      } else if ch == '\\' {
        escaped := true;
      } else if ch == quote {
        return;
      }
    }
  }

  method SkipRegex(source: string, c: Cursor, rules: Rules, ghost first: int) returns (r: Cursor)
    requires At(source, first, c) && c.index < |source| && source[c.index] == '/' && !rules.alpha('\n')
    ensures At(source, first, r) && r.index == RegexEnd(source, c.index + 1, false, false, rules)
  {
    var index, escaped, inClass := c.index + 1, false, false;
    while index < |source|
      invariant c.index < index <= |source|
      invariant forall i :: c.index <= i < index ==> source[i] != '\n'
      invariant RegexEnd(source, c.index + 1, false, false, rules) == RegexEnd(source, index, escaped, inClass, rules)
    {
      var ch := source[index];
      if ch == '\n' {
        SameLine(source, c.index, index);
        return Cursor(index, c.line, c.lineStart);
      }
      if escaped {
        escaped := false;
      } else if ch == '\\' {
        escaped := true;
      } else if ch == '[' {
        inClass := true;
      } else if ch == ']' {
        inClass := false;
      } else if ch == '/' && !inClass {
        index := SkipFlags(source, index + 1, rules);
        SameLine(source, c.index, index);
        return Cursor(index, c.line, c.lineStart);
      }
      index := index + 1;
    }
    SameLine(source, c.index, index);
    r := Cursor(index, c.line, c.lineStart);
  }

  method SkipFlags(source: string, from: nat, rules: Rules) returns (end: nat)
    requires from <= |source| && !rules.alpha('\n')
    ensures end == FlagsEnd(source, from, rules)
    ensures forall i :: from <= i < end ==> source[i] != '\n'
  {
    end := from;
    while end < |source| && rules.alpha(source[end])
      invariant from <= end <= |source|
      invariant FlagsEnd(source, from, rules) == FlagsEnd(source, end, rules)
      invariant forall i :: from <= i < end ==> source[i] != '\n'
    {
      end := end + 1;
    }
  }

  /** The next newline, or the end. */
  method FindNewline(source: string, from: nat) returns (end: nat)
    requires from <= |source|
    ensures end == LineEnd(source, from)
    ensures forall i :: from <= i < end ==> source[i] != '\n'
  {
    end := from;
    while end < |source| && source[end] != '\n'
      invariant from <= end <= |source|
      invariant LineEnd(source, from) == LineEnd(source, end)
      invariant forall i :: from <= i < end ==> source[i] != '\n'
    {
      end := end + 1;
    }
  }

  /** A template expression as the lexer takes it out: its text and the line it starts on. */
  datatype Expression = Expression(text: string, line: int)

  ghost predicate IsPart(source: string, first: int, p: Range, e: Expression) {
    p.lo <= p.hi <= |source| && e == Expression(source[p.lo..p.hi], first + Newlines(source, p.lo))
  }

  /** The expressions are the template's parts, each with the line of its offset. */
  ghost predicate AreParts(source: string, first: int, parts: seq<Range>, expressions: seq<Expression>) {
    |expressions| == |parts| && forall i :: 0 <= i < |parts| ==> IsPart(source, first, parts[i], expressions[i])
  }

  lemma MorePart(source: string, first: int, parts: seq<Range>, expressions: seq<Expression>, p: Range, e: Expression)
    requires AreParts(source, first, parts, expressions) && IsPart(source, first, p, e)
    ensures AreParts(source, first, parts + [p], expressions + [e])
  {
  }

  /** One character on, stopping at the end. */
  method AdvanceWithin(source: string, c: Cursor, ghost first: int) returns (r: Cursor)
    requires At(source, first, c)
    ensures At(source, first, r) && r.index == if c.index < |source| then c.index + 1 else c.index
  {
    if c.index < |source| {
      AdvanceStaysAt(source, first, c);
      r := Advance(source, c);
    } else {
      r := c;
    }
  }

  /** Skips a template and takes out its expressions. */
  method TemplateExpressions(source: string, c: Cursor, ghost first: int)
    returns (r: Cursor, expressions: seq<Expression>, ghost parts: seq<Range>)
    requires At(source, first, c) && c.index < |source| && source[c.index] == '`'
    ensures At(source, first, r) && Template(r.index, parts) == TemplateFrom(source, c.index + 1, false, [])
    ensures AreParts(source, first, parts, expressions)
    decreases |source| - c.index, 1
  {
    AdvanceStaysAt(source, first, c);
    r := Advance(source, c);
    var index, escaped := r.index, false;
    expressions, parts := [], [];
    while index < |source|
      invariant c.index < index <= |source| + 1 && At(source, first, r)
      invariant r.index == if index <= |source| then index else |source|
      invariant TemplateFrom(source, c.index + 1, false, []) == TemplateFrom(source, index, escaped, parts)
      invariant AreParts(source, first, parts, expressions)
      decreases |source| + 1 - index
    {
      var ch := source[index];
      if escaped {
        escaped := false;
      } else if ch == '\\' {
        escaped := true;
      } else if ch == '`' {
        r := AdvanceWithin(source, r, first);
        return;
      } else if Opens(source, index, '$', '{') {
        var e, text := TakeExpression(source, r, first);
        MorePart(source, first, parts, expressions, Range(index + 2, e.index), text);
        expressions, parts := expressions + [text], parts + [Range(index + 2, e.index)];
        index, r := e.index, e;
      }
      r := AdvanceWithin(source, r, first);
      index := index + 1;
    }
  }

  method TakeExpression(source: string, c: Cursor, ghost first: int) returns (r: Cursor, expression: Expression)
    requires At(source, first, c) && Opens(source, c.index, '$', '{')
    ensures At(source, first, r) && r.index == EndOfExpression(source, c.index + 2)
    ensures IsPart(source, first, Range(c.index + 2, r.index), expression)
    decreases |source| - c.index, 0
  {
    SameLine(source, c.index, c.index + 2);
    r := FindExpressionEnd(source, Cursor(c.index + 2, c.line, c.lineStart), first);
    expression := Expression(source[c.index + 2..r.index], c.line);
  }

  ghost function EndOfExpression(t: string, k: nat): (e: nat)
    requires k <= |t|
    ensures k <= e <= |t|
  {
    ExpressionEnd(t, k, 1)
  }

  /** Finds the brace that ends a template expression. */
  method FindExpressionEnd(source: string, c: Cursor, ghost first: int) returns (r: Cursor)
    requires At(source, first, c)
    ensures At(source, first, r) && r.index == EndOfExpression(source, c.index)
    decreases |source| - c.index, 3
  {
    r := c;
    var depth := 1;
    while r.index < |source|
      invariant c.index <= r.index <= |source| && At(source, first, r) && depth >= 1
      invariant EndOfExpression(source, c.index) == ExpressionEnd(source, r.index, depth)
      decreases |source| - r.index
    {
      var ch := source[r.index];
      if ch == '}' && depth == 1 {
        return;
      }
      r := TakeExpressionChar(source, r, first);
      depth := Depth(ch, depth);
    }
  }

  /** One literal, template, comment or character of an expression. */
  method TakeExpressionChar(source: string, c: Cursor, ghost first: int) returns (r: Cursor)
    requires At(source, first, c) && c.index < |source|
    ensures At(source, first, r) && r.index == AfterExpressionChar(source, c.index)
    decreases |source| - c.index, 2
  {
    var ch := source[c.index];
    if ch == '\'' || ch == '"' {
      r := SkipQuoted(source, c, ch, first);
    } else if ch == '`' {
      var ignored;
      ghost var parts;
      r, ignored, parts := TemplateExpressions(source, c, first);
    } else if ch == '/' && c.index + 1 < |source| && source[c.index + 1] == '/' {
      var end := FindNewline(source, c.index + 2);
      SameLine(source, c.index, end);
      r := Cursor(end, c.line, c.lineStart);
    } else if ch == '/' && c.index + 1 < |source| && source[c.index + 1] == '*' {
      r := SkipBlockComment(source, c, first);
    } else {
      AdvanceStaysAt(source, first, c);
      r := Advance(source, c);
    }
  }

  // ----- the lexer -----

  /** The host's classes put no newline in a word. */
  ghost predicate ValidRules(r: Rules) {
    !r.alpha('\n') && !r.alnum('\n')
  }

  method FindWordEnd(source: string, start: nat, rules: Rules) returns (end: nat)
    requires start < |source| && source[start] != '\n' && ValidRules(rules)
    ensures end == WordEnd(source, start + 1, rules) && start < end <= |source|
    ensures forall i :: start <= i < end ==> source[i] != '\n'
  {
    end := start + 1;
    while end < |source| && IsWordChar(rules, source[end])
      invariant start < end <= |source|
      invariant WordEnd(source, start + 1, rules) == WordEnd(source, end, rules)
      invariant forall i :: start <= i < end ==> source[i] != '\n'
    {
      end := end + 1;
    }
  }

  /** A literal's text without its quotes. */
  method Unquoted(literal: string, quote: char) returns (raw: string)
    requires literal != "" && literal[0] == quote
    ensures raw == RawQuoted(literal)
  {
    var closed := literal[|literal| - 1] == quote;
    var end := if closed then |literal| - 1 else |literal|;
    raw := if 1 <= end then literal[1..end] else "";
  }

  class Lexer {
    const source: string
    const rules: Rules
    const first: int
    var index: nat
    var line: int
    var lineStart: nat
    var tokens: seq<Token>
    var reasons: map<int, string>
    var standalone: set<int>

    constructor (source: string, startLine: int, rules: Rules)
      requires ValidRules(rules)
      ensures this.source == source && first == startLine && this.rules == rules
      ensures Valid() && index == 0 && Out() == Output([], map[], {})
    {
      this.source, this.rules, first := source, rules, startLine;
      index, line, lineStart := 0, startLine, 0;
      tokens, reasons, standalone := [], map[], {};
    }

    ghost predicate Valid()
      reads this
    {
      At(source, first, Cursor(index, line, lineStart)) && ValidRules(rules)
    }

    ghost function Out(): Output
      reads this
    {
      Output(tokens, reasons, standalone)
    }

    /** What the fields hold after `items` more than `before`. */
    ghost predicate Emitted(before: Output, items: seq<Item>)
      reads this
    {
      Adds(before, Out(), items, source, first)
    }

    /** Reads the whole text. Its output is the text's items, each on the line of its offset. */
    method Scan()
      requires Valid() && index == 0 && Out() == Output([], map[], {})
      modifies this
      ensures Valid() && Out() == OutputOf(Lex(source, 0, None, rules), source, first)
      decreases |source|, 2
    {
      ghost var items: seq<Item> := [];
      ReadNone(source, rules);
      while index < |source|
        invariant Valid() && ReadTo(items, source, index, rules)
        invariant Out() == OutputOf(items, source, first)
        decreases |source| - index
      {
        LastTokenOf(items, source, first);
        ReadMore(items, source, index, rules);
        ghost var more := Next();
        OutputConcat(items, more, source, first);
        items := items + more;
      }
      ReadAll(items, source, rules);
    }

    /** What begins at the index: consumed, and its items emitted. */
    method Next() returns (ghost more: seq<Item>)
      requires Valid() && index < |source|
      modifies this
      ensures Valid()
      ensures var start := StartAt(source, old(index), LastToken(old(tokens)), rules);
              && index == EndOf(source, old(index), start, rules)
              && more == ItemsAt(source, old(index), index, start, rules)
              && Emitted(old(Out()), more)
      decreases |source|, 1
    {
      var start := Starts();
      more := [];
      AddsNothing(Out(), source, first);
      match start {
        case Blank =>
          Skip();
        case LineComment =>
          more := TakeLineComment();
        case BlockComment =>
          var c := SkipBlockComment(source, Cursor(index, line, lineStart), first);
          MoveTo(c);
        case Regex =>
          var c := SkipRegex(source, Cursor(index, line, lineStart), rules, first);
          MoveTo(c);
        case Literal =>
          more := TakeQuoted();
        case Backtick =>
          more := TakeTemplate();
        case Word =>
          more := TakeIdentifier();
        case Punctuation =>
          more := TakePunctuation();
      }
    }

    /** Which branch the character at the index takes. */
    method Starts() returns (start: Start)
      requires Valid() && index < |source|
      ensures start == StartAt(source, index, LastToken(tokens), rules)
      ensures start.LineComment? ==> Opens(source, index, '/', '/')
      ensures start.BlockComment? ==> Opens(source, index, '/', '*')
      ensures start.Regex? ==> source[index] == '/'
      ensures start.Literal? ==> source[index] == '\'' || source[index] == '"'
      ensures start.Backtick? ==> source[index] == '`'
      ensures start.Word? || start.Punctuation? ==> source[index] != '\n'
    {
      var ch := source[index];
      if ch == '\n' || rules.space(ch) {
        return Blank;
      } else if ch == '/' && index + 1 < |source| && source[index + 1] == '/' {
        return LineComment;
      } else if ch == '/' && index + 1 < |source| && source[index + 1] == '*' {
        return BlockComment;
      } else if ch == '/' && RegexCanStart(LastToken(tokens)) {
        return Regex;
      } else if ch == '\'' || ch == '"' {
        return Literal;
      } else if ch == '`' {
        return Backtick;
      } else if rules.alpha(ch) || ch == '_' || ch == '$' {
        return Word;
      } else {
        return Punctuation;
      }
    }

    method MoveTo(c: Cursor)
      requires ValidRules(rules) && At(source, first, c)
      modifies this`index, this`line, this`lineStart
      ensures Valid() && index == c.index
    {
      index, line, lineStart := c.index, c.line, c.lineStart;
    }

    /** One blank character. */
    method Skip()
      requires Valid() && index < |source|
      modifies this`index, this`line, this`lineStart
      ensures Valid() && index == old(index) + 1
    {
      AdvanceStaysAt(source, first, Cursor(index, line, lineStart));
      if source[index] == '\n' {
        line := line + 1;
        index := index + 1;
        lineStart := index;
      } else {
        index := index + 1;
      }
    }

    method Emit(value: string, quoted: bool) returns (ghost item: Item)
      requires Valid()
      modifies this`tokens
      ensures item == Tok(value, index, quoted) && Emitted(old(Out()), [item])
    {
      item := Tok(value, index, quoted);
      AddsToken(Out(), value, index, quoted, source, first);
      tokens := tokens + [Token(value, line, quoted)];
    }

    method TakeLineComment() returns (ghost more: seq<Item>)
      requires Valid() && Opens(source, index, '/', '/')
      modifies this
      ensures Valid() && index == LineEnd(source, old(index) + 2)
      ensures more == ItemsAt(source, old(index), index, LineComment, rules) && Emitted(old(Out()), more)
    {
      var end := FindNewline(source, index + 2);
      var reason := rules.exemption(source[index..end]);
      more := [];
      AddsNothing(Out(), source, first);
      if reason.Some? {
        more := Exempt(reason.value);
      }
      SameLine(source, index, end);
      index := end;
    }

    /** Notes an exemption on this line. */
    method Exempt(reason: string) returns (ghost more: seq<Item>)
      requires Valid()
      modifies this`reasons, this`standalone
      ensures more == [Note(reason, index, Alone(source, index, rules))] && Emitted(old(Out()), more)
    {
      ghost var alone := Alone(source, index, rules);
      AddsNote(Out(), reason, index, alone, source, first);
      more := [Note(reason, index, alone)];
      reasons := reasons[line := reason];
      if forall i :: lineStart <= i < index ==> rules.space(source[i]) {
        standalone := standalone + {line};
      }
    }

    method TakeQuoted() returns (ghost more: seq<Item>)
      requires Valid() && index < |source|
      modifies this
      ensures Valid() && index == QuotedEnd(source, old(index) + 1, source[old(index)], false)
      ensures more == ItemsAt(source, old(index), index, Literal, rules) && Emitted(old(Out()), more)
    {
      var quote := source[index];
      var c := SkipQuoted(source, Cursor(index, line, lineStart), quote, first);
      var raw := Unquoted(source[index..c.index], quote);
      ghost var item := Emit(rules.cook(raw), true);
      more := [item];
      MoveTo(c);
    }

    method TakeIdentifier() returns (ghost more: seq<Item>)
      requires Valid() && index < |source| && source[index] != '\n'
      modifies this
      ensures Valid() && index == WordEnd(source, old(index) + 1, rules)
      ensures more == ItemsAt(source, old(index), index, Word, rules) && Emitted(old(Out()), more)
    {
      var end := FindWordEnd(source, index, rules);
      ghost var item := Emit(source[index..end], false);
      more := [item];
      SameLine(source, index, end);
      index := end;
    }

    method TakePunctuation() returns (ghost more: seq<Item>)
      requires Valid() && index < |source| && source[index] != '\n'
      modifies this
      ensures Valid() && index == old(index) + 1
      ensures more == ItemsAt(source, old(index), index, Punctuation, rules) && Emitted(old(Out()), more)
    {
      ghost var item := Emit(source[index..index + 1], false);
      more := [item];
      SameLine(source, index, index + 1);
      index := index + 1;
    }

    /** Each expression of the template is lexed again, from the line it starts on. */
    method TakeTemplate() returns (ghost more: seq<Item>)
      requires Valid() && index < |source| && source[index] == '`'
      modifies this
      ensures Valid() && index == TemplateFrom(source, old(index) + 1, false, []).end
      ensures more == LexParts(source, old(index), TemplateParts(source, old(index) + 1), rules)
      ensures Emitted(old(Out()), more)
      decreases |source|, 0
    {
      var c, expressions;
      ghost var parts;
      c, expressions, parts := ReadTemplate();
      more := LexExpressions(expressions, parts);
      MoveTo(c);
    }

    method ReadTemplate() returns (c: Cursor, expressions: seq<Expression>, ghost parts: seq<Range>)
      requires Valid() && index < |source| && source[index] == '`'
      ensures At(source, first, c) && c.index == TemplateFrom(source, index + 1, false, []).end
      ensures parts == TemplateParts(source, index + 1) && AreParts(source, first, parts, expressions)
    {
      c, expressions, parts := TemplateExpressions(source, Cursor(index, line, lineStart), first);
    }

    method LexExpressions(expressions: seq<Expression>, ghost parts: seq<Range>) returns (ghost more: seq<Item>)
      requires Valid() && index < |source| && PartsWithin(parts, index + 1, |source|)
      requires AreParts(source, first, parts, expressions)
      modifies this`tokens, this`reasons, this`standalone
      ensures more == LexParts(source, index, parts, rules) && Emitted(old(Out()), more)
      decreases |source| - 1, 4
    {
      more := [];
      AddsNothing(Out(), source, first);
      var i := 0;
      while i < |expressions|
        invariant i <= |expressions| && PartsRead(more, source, index, parts, i, rules)
        invariant Emitted(old(Out()), more)
      {
        assert IsPart(source, first, parts[i], expressions[i]);
        PartsReadMore(more, source, index, parts, i, rules);
        ghost var before := Out();
        ghost var found := LexExpression(expressions[i].text, expressions[i].line, parts[i].lo);
        AddsThen(old(Out()), before, Out(), more, found, source, first);
        more := more + found;
        i := i + 1;
      }
    }

    /** Lexes one expression as a text of its own and takes over what it emits. */
    method LexExpression(text: string, startLine: int, ghost lo: nat) returns (ghost found: seq<Item>)
      requires Valid() && lo > 0 && lo + |text| <= |source| && text == source[lo..lo + |text|]
      requires startLine == first + Newlines(source, lo)
      modifies this`tokens, this`reasons, this`standalone
      ensures found == Shift(Lex(text, 0, None, rules), lo) && Emitted(old(Out()), found)
      decreases |text|, 3
    {
      var nested := new Lexer(text, startLine, rules);
      nested.Scan();
      found := Shift(Lex(text, 0, None, rules), lo);
      AddsPart(Out(), text, source, lo, first, rules);
      TakeOver(nested);
    }

    method TakeOver(nested: Lexer)
      requires nested != this
      modifies this`tokens, this`reasons, this`standalone
      ensures Out() == Combine(old(Out()), nested.Out())
    {
      tokens := tokens + nested.tokens;
      reasons := reasons + nested.reasons;
      standalone := standalone + nested.standalone;
    }
  }
}
